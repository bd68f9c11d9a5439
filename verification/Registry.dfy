// The per-process subscription registry: the two handler storages, the list
// of topics each node is subscribed to, and the central Zenoh subscriptions
// (src/NodeShared.cc and src/Node.cc).
module Registry {
  import opened Options
  import opened Strings
  import opened TopicNames
  import opened HandlerStore

  datatype NodeOptions = NodeOptions(partition: string, ns: string, remap: map<string, string>)

  /** A Zenoh subscriber that was declared, with the flag its callback reads
      before it dispatches a sample. */
  datatype Declared = Declared(topic: string, active: bool)

  /** The tables under the registry's mutex. `issued` is every Zenoh
      subscriber ever declared; undeclaring happens later, on its own. */
  datatype State = State(normal: FlatTable, raw: FlatTable, listed: map<string, set<string>>,
                         current: map<string, nat>, issued: seq<Declared>)

  ghost predicate HasAny(s: State, topic: string) {
    FlatHasTopic(s.normal, topic) || FlatHasTopic(s.raw, topic)
  }

  ghost predicate HasNode(s: State, topic: string, n: string) {
    FlatHasNode(s.normal, topic, n) || FlatHasNode(s.raw, topic, n)
  }

  function Listed(s: State, n: string): set<string> {
    if n in s.listed then s.listed[n] else {}
  }

  // ---- The steps, each a critical section ----

  function Retired(issued: seq<Declared>, i: nat): seq<Declared> {
    if i < |issued| then issued[i := issued[i].(active := false)] else issued
  }

  function Ensured(zenoh: bool, s: State, name: string): State {
    if !zenoh || name in s.current then s
    else s.(current := s.current[name := |s.issued|], issued := s.issued + [Declared(name, true)])
  }

  ghost function Released(zenoh: bool, s: State, name: string): State {
    if !zenoh || HasAny(s, name) || name !in s.current then s
    else s.(current := s.current - {name}, issued := Retired(s.issued, s.current[name]))
  }

  function WithHandler(s: State, isRaw: bool, name: string, n: string, h: Handler): State {
    if isRaw then s.(raw := FlatAdded(s.raw, name, n, h)) else s.(normal := FlatAdded(s.normal, name, n, h))
  }

  function Subscribed(zenoh: bool, s: State, isRaw: bool, name: string, n: string, h: Handler): State {
    var s' := Ensured(zenoh, WithHandler(s, isRaw, name, n, h), name);
    s'.(listed := s'.listed[n := Listed(s', n) + {name}])
  }

  /** All handlers of the node when `hUuid` is empty. A single handler is
      looked for among the raw ones only when it was not a normal one. */
  ghost function WithoutHandlers(s: State, name: string, n: string, hUuid: string): State {
    var k := Key(name, n, hUuid);
    if hUuid == "" then
      s.(normal := FlatWithoutNode(s.normal, name, n), raw := FlatWithoutNode(s.raw, name, n))
    else if k in s.normal then s.(normal := s.normal - {k})
    else s.(raw := s.raw - {k})
  }

  function Unlisted(s: State, name: string, n: string): State {
    if n in s.listed then s.(listed := s.listed[n := s.listed[n] - {name}]) else s
  }

  ghost function Unsubscribed(zenoh: bool, s: State, name: string, n: string, hUuid: string): State {
    var s' := WithoutHandlers(s, name, n, hUuid);
    if HasNode(s', name, n) then s' else Released(zenoh, Unlisted(s', name, n), name)
  }

  // ---- Coherence ----

  ghost predicate ListsAgree(s: State) {
    forall n, t :: t in Listed(s, n) <==> HasNode(s, t, n)
  }

  /** One active subscriber for each of the topics, recorded in the table. */
  ghost predicate Subscribers(current: map<string, nat>, issued: seq<Declared>, topics: iset<string>) {
    && (forall t :: t in current <==> t in topics)
    && (forall t :: t in current ==> current[t] < |issued| && issued[current[t]] == Declared(t, true))
    && (forall i :: 0 <= i < |issued| && issued[i].active ==>
          issued[i].topic in current && current[issued[i].topic] == i)
  }

  ghost function Topics(s: State): iset<string> {
    iset t | HasAny(s, t)
  }

  ghost predicate ZenohAgrees(s: State) {
    Subscribers(s.current, s.issued, Topics(s))
  }

  /** A node lists a topic exactly when it holds a normal or raw handler for
      it, and the Zenoh table matches the topics that have a handler. */
  ghost predicate Coherent(zenoh: bool, s: State) {
    && ListsAgree(s)
    && if zenoh then ZenohAgrees(s) else s.current == map[] && s.issued == []
  }

  lemma AnyOfNode(s: State, topic: string)
    ensures HasAny(s, topic) <==> exists n :: HasNode(s, topic, n)
  {
    if HasAny(s, topic) {
      var n, h :| Key(topic, n, h) in s.normal || Key(topic, n, h) in s.raw;
      assert HasNode(s, topic, n);
    }
  }

  lemma WithHandlerHas(s: State, isRaw: bool, name: string, n: string, h: Handler)
    ensures var s' := WithHandler(s, isRaw, name, n, h);
            forall t, m :: HasNode(s', t, m) <==> HasNode(s, t, m) || (t == name && m == n)
  {
    var s' := WithHandler(s, isRaw, name, n, h);
    forall t, m
      ensures HasNode(s', t, m) <==> HasNode(s, t, m) || (t == name && m == n)
    {
      if HasNode(s, t, m) {
        var g :| Key(t, m, g) in s.normal || Key(t, m, g) in s.raw;
        assert Key(t, m, g) in s'.normal || Key(t, m, g) in s'.raw;
      }
      assert Key(name, n, h.hUuid) in (if isRaw then s'.raw else s'.normal);
    }
  }

  lemma WithoutHandlersKeys(s: State, name: string, n: string, hUuid: string)
    ensures var s' := WithoutHandlers(s, name, n, hUuid);
            && (forall k :: k in s'.normal ==> k in s.normal) && (forall k :: k in s'.raw ==> k in s.raw)
            && (forall k: Key :: k.topic != name || k.node != n ==>
                  (k in s'.normal <==> k in s.normal) && (k in s'.raw <==> k in s.raw))
            && (hUuid == "" ==> forall k: Key :: k.topic == name && k.node == n ==> k !in s'.normal && k !in s'.raw)
  {
  }

  /** Removing handlers of (name, n) touches no other topic or node. */
  lemma WithoutHandlersHas(s: State, name: string, n: string, hUuid: string)
    ensures var s' := WithoutHandlers(s, name, n, hUuid);
            forall t, m :: t != name || m != n ==> (HasNode(s', t, m) <==> HasNode(s, t, m))
    ensures hUuid == "" ==> !HasNode(WithoutHandlers(s, name, n, hUuid), name, n)
    ensures HasNode(WithoutHandlers(s, name, n, hUuid), name, n) ==> HasNode(s, name, n)
  {
    var s' := WithoutHandlers(s, name, n, hUuid);
    WithoutHandlersKeys(s, name, n, hUuid);
    hide WithoutHandlers;
    forall t, m | t != name || m != n
      ensures HasNode(s', t, m) <==> HasNode(s, t, m)
    {
      assert forall g :: Key(t, m, g) in s'.normal <==> Key(t, m, g) in s.normal;
      assert forall g :: Key(t, m, g) in s'.raw <==> Key(t, m, g) in s.raw;
    }
  }

  lemma EnsureKeepsSubscribers(s: State, name: string, topics: iset<string>)
    requires Subscribers(s.current, s.issued, topics)
    ensures var s' := Ensured(true, s, name); Subscribers(s'.current, s'.issued, topics + iset{name})
  {
  }

  lemma ReleaseKeepsSubscribers(s: State, name: string, topics: iset<string>)
    requires Subscribers(s.current, s.issued, topics) && name in topics
    ensures Subscribers(s.current - {name}, Retired(s.issued, s.current[name]), topics - iset{name})
  {
  }

  lemma SubscribeKeepsLists(zenoh: bool, s: State, isRaw: bool, name: string, n: string, h: Handler)
    requires ListsAgree(s)
    ensures var s' := Subscribed(zenoh, s, isRaw, name, n, h);
            ListsAgree(s') && HasNode(s', name, n) && Topics(s') == Topics(s) + iset{name}
  {
    WithHandlerHas(s, isRaw, name, n, h);
    var s' := Subscribed(zenoh, s, isRaw, name, n, h);
    SameHandlers(WithHandler(s, isRaw, name, n, h), s');
    forall t
      ensures HasAny(s', t) <==> HasAny(s, t) || t == name
    {
      AnyOfNode(s, t);
      AnyOfNode(s', t);
      assert HasNode(s', name, n);
    }
  }

  lemma SubscribeKeepsCoherent(zenoh: bool, s: State, isRaw: bool, name: string, n: string, h: Handler)
    requires Coherent(zenoh, s)
    ensures Coherent(zenoh, Subscribed(zenoh, s, isRaw, name, n, h))
    ensures HasNode(Subscribed(zenoh, s, isRaw, name, n, h), name, n)
  {
    SubscribeKeepsLists(zenoh, s, isRaw, name, n, h);
    if zenoh {
      EnsureKeepsSubscribers(WithHandler(s, isRaw, name, n, h), name, Topics(s));
    }
  }

  lemma SameHandlers(a: State, b: State)
    requires a.normal == b.normal && a.raw == b.raw
    ensures forall t, m :: HasNode(a, t, m) <==> HasNode(b, t, m)
    ensures forall t :: HasAny(a, t) <==> HasAny(b, t)
  {
  }

  /** Which topics still have a handler afterwards. */
  lemma WithoutHandlersTopics(s: State, name: string, n: string, hUuid: string)
    ensures var s' := WithoutHandlers(s, name, n, hUuid);
            && (HasNode(s', name, n) ==> Topics(s') == Topics(s))
            && Topics(s') == (if HasAny(s', name) then Topics(s) else Topics(s) - iset{name})
  {
    WithoutHandlersHas(s, name, n, hUuid);
    var s' := WithoutHandlers(s, name, n, hUuid);
    forall t
      ensures HasAny(s', t) ==> HasAny(s, t)
      ensures t != name && HasAny(s, t) ==> HasAny(s', t)
    {
      AnyOfNode(s, t);
      AnyOfNode(s', t);
    }
    AnyOfNode(s', name);
  }

  lemma UnsubscribedTables(zenoh: bool, s: State, name: string, n: string, hUuid: string)
    ensures var s' := Unsubscribed(zenoh, s, name, n, hUuid);
            var s1 := WithoutHandlers(s, name, n, hUuid);
            s'.normal == s1.normal && s'.raw == s1.raw && s1.listed == s.listed
            && s'.listed == if HasNode(s1, name, n) then s.listed else Unlisted(s1, name, n).listed
  {
    hide HasNode, HasAny, FlatWithoutNode, Retired;
  }

  lemma UnsubscribedLists(zenoh: bool, s: State, name: string, n: string, hUuid: string, m: string)
    ensures var s' := Unsubscribed(zenoh, s, name, n, hUuid);
            Listed(s', m) == if m == n && !HasNode(s', name, n) then Listed(s, m) - {name} else Listed(s, m)
  {
    UnsubscribedTables(zenoh, s, name, n, hUuid);
    SameHandlers(WithoutHandlers(s, name, n, hUuid), Unsubscribed(zenoh, s, name, n, hUuid));
  }

  lemma UnsubscribeKeepsLists(zenoh: bool, s: State, name: string, n: string, hUuid: string)
    requires ListsAgree(s)
    ensures ListsAgree(Unsubscribed(zenoh, s, name, n, hUuid))
  {
    var s' := Unsubscribed(zenoh, s, name, n, hUuid);
    WithoutHandlersHas(s, name, n, hUuid);
    UnsubscribedTables(zenoh, s, name, n, hUuid);
    SameHandlers(WithoutHandlers(s, name, n, hUuid), s');
    forall m, t
      ensures t in Listed(s', m) <==> HasNode(s', t, m)
    {
      UnsubscribedLists(zenoh, s, name, n, hUuid, m);
    }
  }

  lemma ReleasedSubscribers(s: State, name: string, topics: iset<string>)
    requires Subscribers(s.current, s.issued, topics)
    requires Topics(s) == if name in Topics(s) then topics else topics - iset{name}
    ensures var r := Released(true, s, name); Subscribers(r.current, r.issued, Topics(s))
  {
    assert HasAny(s, name) <==> name in Topics(s);
    if name !in Topics(s) && name in topics {
      ReleaseKeepsSubscribers(s, name, topics);
    } else {
      assert Topics(s) == topics;
    }
  }

  lemma UnsubscribeKeepsSubscribers(s: State, name: string, n: string, hUuid: string)
    requires ZenohAgrees(s)
    ensures ZenohAgrees(Unsubscribed(true, s, name, n, hUuid))
  {
    hide Subscribers, HasNode, HasAny;
    WithoutHandlersTopics(s, name, n, hUuid);
    var s1 := WithoutHandlers(s, name, n, hUuid);
    if !HasNode(s1, name, n) {
      var u := Unlisted(s1, name, n);
      SameHandlers(s1, u);
      SameHandlers(u, Released(true, u, name));
      assert Topics(u) == Topics(s1) == Topics(Released(true, u, name));
      assert name in Topics(u) <==> HasAny(s1, name);
      ReleasedSubscribers(u, name, Topics(s));
    }
  }

  lemma UnsubscribeKeepsCoherent(zenoh: bool, s: State, name: string, n: string, hUuid: string)
    requires Coherent(zenoh, s)
    ensures Coherent(zenoh, Unsubscribed(zenoh, s, name, n, hUuid))
  {
    UnsubscribeKeepsLists(zenoh, s, name, n, hUuid);
    if zenoh {
      UnsubscribeKeepsSubscribers(s, name, n, hUuid);
    }
  }

  // ---- Whole runs ----

  function Remapped(opt: NodeOptions, topic: string): string {
    if topic in opt.remap then opt.remap[topic] else topic
  }

  /** Subscribing qualifies the remapped topic. */
  function SubscribeName(opt: NodeOptions, topic: string): Option<string> {
    QualifiedName(opt.partition, opt.ns, Remapped(opt, topic))
  }

  /** Unsubscribing qualifies the topic as it was given. */
  function UnsubscribeName(opt: NodeOptions, topic: string): Option<string> {
    QualifiedName(opt.partition, opt.ns, topic)
  }

  datatype Call =
    | Subscribe(node: string, topic: string, isRaw: bool, handler: Handler)
    | Unsubscribe(node: string, topic: string, hUuid: string)

  ghost function AfterCall(zenoh: bool, opts: string -> NodeOptions, s: State, c: Call): State {
    match c
    case Subscribe(n, topic, isRaw, h) =>
      (match SubscribeName(opts(n), topic)
       case None => s
       case Some(name) => Subscribed(zenoh, s, isRaw, name, n, h))
    case Unsubscribe(n, topic, hUuid) =>
      (match UnsubscribeName(opts(n), topic)
       case None => s
       case Some(name) => Unsubscribed(zenoh, s, name, n, hUuid))
  }

  ghost function AfterCalls(zenoh: bool, opts: string -> NodeOptions, s: State, calls: seq<Call>): State {
    if calls == [] then s
    else AfterCall(zenoh, opts, AfterCalls(zenoh, opts, s, calls[..|calls| - 1]), calls[|calls| - 1])
  }

  const EMPTY := State(map[], map[], map[], map[], [])

  /** What a node lists was qualified with that node's own options. */
  ghost predicate OwnNames(opts: string -> NodeOptions, s: State) {
    forall n, t :: t in Listed(s, n) ==> Qualified(opts(n), t)
  }

  lemma SubscribedLists(zenoh: bool, s: State, isRaw: bool, name: string, n: string, h: Handler, m: string)
    ensures Listed(Subscribed(zenoh, s, isRaw, name, n, h), m) == Listed(s, m) + if m == n then {name} else {}
  {
  }

  ghost predicate Qualified(opt: NodeOptions, name: string) {
    exists topic :: UnsubscribeName(opt, topic) == Some(name)
  }

  lemma CallKeepsOwnNames(zenoh: bool, opts: string -> NodeOptions, s: State, c: Call)
    requires OwnNames(opts, s)
    ensures OwnNames(opts, AfterCall(zenoh, opts, s, c))
  {
    forall m, t | t in Listed(AfterCall(zenoh, opts, s, c), m)
      ensures Qualified(opts(m), t)
    {
      match c
      case Subscribe(n, topic, isRaw, h) =>
        if SubscribeName(opts(n), topic).Some? {
          SubscribedLists(zenoh, s, isRaw, SubscribeName(opts(n), topic).value, n, h, m);
          assert UnsubscribeName(opts(n), Remapped(opts(n), topic)) == SubscribeName(opts(n), topic);
        }
      case Unsubscribe(n, topic, hUuid) =>
        if UnsubscribeName(opts(n), topic).Some? {
          UnsubscribedLists(zenoh, s, UnsubscribeName(opts(n), topic).value, n, hUuid, m);
        }
    }
  }

  lemma CallKeepsCoherent(zenoh: bool, opts: string -> NodeOptions, s: State, c: Call)
    requires Coherent(zenoh, s)
    ensures Coherent(zenoh, AfterCall(zenoh, opts, s, c))
  {
    match c
    case Subscribe(n, topic, isRaw, h) =>
      if SubscribeName(opts(n), topic).Some? {
        SubscribeKeepsCoherent(zenoh, s, isRaw, SubscribeName(opts(n), topic).value, n, h);
      }
    case Unsubscribe(n, topic, hUuid) =>
      if UnsubscribeName(opts(n), topic).Some? {
        UnsubscribeKeepsCoherent(zenoh, s, UnsubscribeName(opts(n), topic).value, n, hUuid);
      }
  }

  /** Every reachable state is coherent, whatever the nodes' options. */
  lemma {:induction false} RunsAreCoherent(zenoh: bool, opts: string -> NodeOptions, calls: seq<Call>)
    ensures Coherent(zenoh, AfterCalls(zenoh, opts, EMPTY, calls))
    ensures OwnNames(opts, AfterCalls(zenoh, opts, EMPTY, calls))
  {
    if calls == [] {
      assert forall t, n :: !HasNode(EMPTY, t, n);
      assert forall n :: Listed(EMPTY, n) == {};
    } else {
      var k := |calls| - 1;
      RunsAreCoherent(zenoh, opts, calls[..k]);
      CallKeepsCoherent(zenoh, opts, AfterCalls(zenoh, opts, EMPTY, calls[..k]), calls[k]);
      CallKeepsOwnNames(zenoh, opts, AfterCalls(zenoh, opts, EMPTY, calls[..k]), calls[k]);
    }
  }

  /** How many declared Zenoh subscribers would dispatch a sample of `topic`. */
  function Dispatching(issued: seq<Declared>, topic: string): nat {
    if issued == [] then 0
    else
      var k := |issued| - 1;
      Dispatching(issued[..k], topic) + if issued[k] == Declared(topic, true) then 1 else 0
  }

  lemma {:induction false} DispatchingIs(issued: seq<Declared>, topic: string, i: nat)
    requires forall j :: 0 <= j < |issued| && j != i ==> issued[j] != Declared(topic, true)
    ensures Dispatching(issued, topic) == if i < |issued| && issued[i] == Declared(topic, true) then 1 else 0
  {
    if issued != [] {
      DispatchingIs(issued[..|issued| - 1], topic, i);
    }
  }

  /** A sample reaches the callbacks exactly once when its topic has a handler
      and not at all otherwise, even while retired subscribers of earlier
      subscriptions are still declared. */
  lemma SamplesDispatchOnce(s: State, topic: string)
    requires Coherent(true, s)
    ensures Dispatching(s.issued, topic) == if HasAny(s, topic) then 1 else 0
  {
    DispatchingIs(s.issued, topic, if topic in s.current then s.current[topic] else |s.issued|);
  }

  // ---- Exactly what a call changes ----

  /** A subscription changes the one table alone: it adds the handler, unless
      a handler with that UUID is there, which is then kept. */
  lemma SubscribedIs(zenoh: bool, s: State, isRaw: bool, name: string, n: string, h: Handler)
    ensures var s' := Subscribed(zenoh, s, isRaw, name, n, h);
            var k := Key(name, n, h.hUuid);
            var (mine, mine', other, other') :=
              if isRaw then (s.raw, s'.raw, s.normal, s'.normal) else (s.normal, s'.normal, s.raw, s'.raw);
            && other' == other
            && k in mine' && mine'[k] == (if k in mine then mine[k] else h)
            && (forall j :: j != k ==> (j in mine' <==> j in mine) && (j in mine ==> mine'[j] == mine[j]))
            && (forall m :: Listed(s', m) == Listed(s, m) + if m == n then {name} else {})
  {
  }

  /** Unsubscribing one handler takes exactly that entry, from the normal table
      if it is there and from the raw one otherwise, and keeps the value of
      every other. The topic stays listed if and only if the node has another
      handler for it. */
  lemma UnsubscribedOneIs(zenoh: bool, s: State, name: string, n: string, hUuid: string)
    requires Coherent(zenoh, s) && hUuid != ""
    ensures var s' := Unsubscribed(zenoh, s, name, n, hUuid);
            var k := Key(name, n, hUuid);
            && s'.normal == s.normal - {k} && s'.raw == (if k in s.normal then s.raw else s.raw - {k})
            && (name in Listed(s', n) <==>
                  exists g :: (Key(name, n, g) in s.normal && g != hUuid)
                              || (Key(name, n, g) in s.raw && (g != hUuid || k in s.normal)))
            && Listed(s', n) - {name} == Listed(s, n) - {name}
            && forall m :: m != n ==> Listed(s', m) == Listed(s, m)
  {
    var s' := Unsubscribed(zenoh, s, name, n, hUuid);
    UnsubscribedTables(zenoh, s, name, n, hUuid);
    UnsubscribeKeepsLists(zenoh, s, name, n, hUuid);
    UnsubscribedLists(zenoh, s, name, n, hUuid, n);
    forall m | m != n
      ensures Listed(s', m) == Listed(s, m)
    {
      UnsubscribedLists(zenoh, s, name, n, hUuid, m);
    }
    assert s.normal - {Key(name, n, hUuid)} == s'.normal;
    assert name in Listed(s', n) <==> HasNode(s', name, n);
  }

  /** Unsubscribing a node from a topic takes exactly its handlers for that
      topic, normal and raw, and the topic from its list. */
  lemma UnsubscribedNodeIs(zenoh: bool, s: State, name: string, n: string)
    requires Coherent(zenoh, s)
    ensures var s' := Unsubscribed(zenoh, s, name, n, "");
            && (forall k: Key :: k in s'.normal <==> k in s.normal && !(k.topic == name && k.node == n))
            && (forall k: Key :: k in s'.raw <==> k in s.raw && !(k.topic == name && k.node == n))
            && (forall k :: k in s'.normal ==> s'.normal[k] == s.normal[k])
            && (forall k :: k in s'.raw ==> s'.raw[k] == s.raw[k])
            && Listed(s', n) == Listed(s, n) - {name}
  {
    UnsubscribedTables(zenoh, s, name, n, "");
    UnsubscribeNodeIs(zenoh, s, name, n);
  }

  /** Subscribing a handler with a fresh UUID and unsubscribing it again gives
      back both handler tables, all lists and the topics with a handler, and
      with them the set of current Zenoh subscriptions. */
  lemma SubscribeThenUnsubscribe(zenoh: bool, s: State, isRaw: bool, name: string, n: string, h: Handler)
    requires Coherent(zenoh, s) && h.hUuid != ""
    requires Key(name, n, h.hUuid) !in s.normal && Key(name, n, h.hUuid) !in s.raw
    ensures var s' := Unsubscribed(zenoh, Subscribed(zenoh, s, isRaw, name, n, h), name, n, h.hUuid);
            && s'.normal == s.normal && s'.raw == s.raw
            && (forall m :: Listed(s', m) == Listed(s, m))
            && s'.current.Keys == s.current.Keys
  {
    var k := Key(name, n, h.hUuid);
    var s1 := Subscribed(zenoh, s, isRaw, name, n, h);
    var s' := Unsubscribed(zenoh, s1, name, n, h.hUuid);
    SubscribeKeepsCoherent(zenoh, s, isRaw, name, n, h);
    SubscribedIs(zenoh, s, isRaw, name, n, h);
    UnsubscribedOneIs(zenoh, s1, name, n, h.hUuid);
    UnsubscribeKeepsCoherent(zenoh, s1, name, n, h.hUuid);
    hide Subscribed, Unsubscribed, Coherent, HasNode, HasAny, Listed;
    if isRaw {
      TakenBack(s.raw, s1.raw, k);
      assert s.normal - {k} == s.normal;
    } else {
      TakenBack(s.normal, s1.normal, k);
    }
    SameHandlers(s', s);
    SameListsSameKeys(zenoh, s', s);
  }

  lemma TakenBack(before: FlatTable, after: FlatTable, k: Key)
    requires k !in before && k in after
    requires forall j :: j != k ==> (j in after <==> j in before) && (j in before ==> after[j] == before[j])
    ensures after - {k} == before
  {
  }

  /** The handler tables determine the lists and the current subscriptions. */
  lemma SameListsSameKeys(zenoh: bool, a: State, b: State)
    requires Coherent(zenoh, a) && Coherent(zenoh, b)
    requires forall t, m :: HasNode(a, t, m) <==> HasNode(b, t, m)
    requires forall t :: HasAny(a, t) <==> HasAny(b, t)
    ensures forall m :: Listed(a, m) == Listed(b, m)
    ensures a.current.Keys == b.current.Keys
  {
    hide HasNode, HasAny;
    assert Topics(a) == Topics(b);
  }

  // ---- Unsubscribing by name ----

  /** Unsubscribe(topic) undoes a subscription made as Subscribe(topic) if and
      only if remapping does not change the qualified name. */
  lemma UnsubscribeUndoesIff(zenoh: bool, opt: NodeOptions, s: State, n: string, topic: string)
    requires Coherent(zenoh, s)
    requires SubscribeName(opt, topic).Some? && HasNode(s, SubscribeName(opt, topic).value, n)
    ensures var name := SubscribeName(opt, topic).value;
            var s' := if UnsubscribeName(opt, topic).None? then s
                      else Unsubscribed(zenoh, s, UnsubscribeName(opt, topic).value, n, "");
            var gone := !HasNode(s', name, n) && name !in Listed(s', n);
            gone <==> UnsubscribeName(opt, topic) == SubscribeName(opt, topic)
  {
    if UnsubscribeName(opt, topic).Some? {
      var other := UnsubscribeName(opt, topic).value;
      WithoutHandlersHas(s, other, n, "");
      UnsubscribeKeepsCoherent(zenoh, s, other, n, "");
      SameHandlers(WithoutHandlers(s, other, n, ""), Unsubscribed(zenoh, s, other, n, ""));
    }
  }

  /** With the topic "a" remapped to "b" it does not: the node calls
      Subscribe("a") and then Unsubscribe("a") on empty tables, and the
      handler, the listed topic and the Zenoh subscriber all remain. */
  lemma RemappedStaysSubscribed(zenoh: bool, opts: string -> NodeOptions, n: string, h: Handler)
    requires opts(n) == NodeOptions("", "", map["a" := "b"])
    ensures var subscribed := AfterCalls(zenoh, opts, EMPTY, [Subscribe(n, "a", false, h)]);
            var s := AfterCalls(zenoh, opts, EMPTY, [Subscribe(n, "a", false, h), Unsubscribe(n, "a", "")]);
            && HasNode(s, "@@/b", n) && Listed(s, n) == {"@@/b"}
            && s.normal == subscribed.normal == map[Key("@@/b", n, h.hUuid) := h]
            && s.issued == subscribed.issued == if zenoh then [Declared("@@/b", true)] else []
  {
    RemappedNames();
    hide QualifiedName;
    var first, second := Subscribe(n, "a", false, h), Unsubscribe(n, "a", "");
    assert [first, second][..1] == [first] && [first][..0] == [];
    var s1 := Subscribed(zenoh, EMPTY, false, "@@/b", n, h);
    assert AfterCalls(zenoh, opts, EMPTY, [first]) == s1;
    assert AfterCalls(zenoh, opts, EMPTY, [first, second]) == Unsubscribed(zenoh, s1, "@@/a", n, "");
    assert Key("@@/b", n, h.hUuid) in s1.normal;
    assert "@@/b" != "@@/a";
    UnsubscribedTables(zenoh, s1, "@@/a", n, "");
  }

  lemma RemappedNames()
    ensures var opt := NodeOptions("", "", map["a" := "b"]);
            SubscribeName(opt, "a") == Some("@@/b") && UnsubscribeName(opt, "a") == Some("@@/a")
  {
    assert NamespacePrefix("") == "/" && AbsoluteTopic("", "a") == "/a" && AbsoluteTopic("", "b") == "/b";
    assert NormalPartition("") == "";
    assert Compose("", "/b") == "@@/b" && Compose("", "/a") == "@@/a";
  }

  // ---- Node teardown ----

  /** SubscribedTopics drops everything up to the last '@'. */
  function Stripped(name: string): string {
    var at := LastIndexOf(name, '@');
    if at < |name| then name[at + 1..] else name
  }

  lemma StrippedRequalifies(opt: NodeOptions, topic: string, name: string)
    requires UnsubscribeName(opt, topic) == Some(name)
    ensures UnsubscribeName(opt, Stripped(name)) == Some(name)
  {
    QualifiedDecomposes(opt.partition, opt.ns, topic);
    RequalifyIsIdentity(name, opt.partition, opt.ns);
  }

  /** Unsubscribing the whole node from a list of topics, in order. */
  ghost function AllUnsubscribed(zenoh: bool, opt: NodeOptions, s: State, n: string, topics: seq<string>): State {
    if topics == [] then s
    else
      var s' := AllUnsubscribed(zenoh, opt, s, n, topics[..|topics| - 1]);
      match UnsubscribeName(opt, topics[|topics| - 1])
      case None => s'
      case Some(name) => Unsubscribed(zenoh, s', name, n, "")
  }

  ghost predicate OthersKept(s: State, s': State, n: string) {
    && (forall k: Key :: k.node != n ==> (k in s.normal <==> k in s'.normal) && (k in s.raw <==> k in s'.raw))
    && (forall k: Key :: k.node != n && k in s.normal ==> k in s'.normal && s'.normal[k] == s.normal[k])
    && (forall k: Key :: k.node != n && k in s.raw ==> k in s'.raw && s'.raw[k] == s.raw[k])
    && (forall m :: m != n ==> Listed(s', m) == Listed(s, m))
  }

  lemma OthersKeptItself(s: State, n: string)
    ensures OthersKept(s, s, n)
  {
  }

  lemma OthersKeptTwice(s: State, s1: State, s2: State, n: string)
    requires OthersKept(s, s1, n) && OthersKept(s1, s2, n)
    ensures OthersKept(s, s2, n)
  {
  }

  lemma UnsubscribeNodeIs(zenoh: bool, s: State, name: string, n: string)
    requires Coherent(zenoh, s)
    ensures var s' := Unsubscribed(zenoh, s, name, n, "");
            Coherent(zenoh, s') && Listed(s', n) == Listed(s, n) - {name} && OthersKept(s, s', n)
  {
    UnsubscribeKeepsCoherent(zenoh, s, name, n, "");
    WithoutHandlersHas(s, name, n, "");
    var s' := Unsubscribed(zenoh, s, name, n, "");
    UnsubscribedTables(zenoh, s, name, n, "");
    SameHandlers(WithoutHandlers(s, name, n, ""), s');
    hide Coherent, HasNode, HasAny, Released, Unsubscribed;
  }

  lemma {:induction false} AllUnsubscribedIs(zenoh: bool, opt: NodeOptions, s: State, n: string, topics: seq<string>)
    requires Coherent(zenoh, s)
    ensures var s' := AllUnsubscribed(zenoh, opt, s, n, topics);
            && Coherent(zenoh, s')
            && OthersKept(s, s', n)
            && (forall t :: t in Listed(s', n) <==>
                  t in Listed(s, n) && forall topic :: topic in topics ==> UnsubscribeName(opt, topic) != Some(t))
  {
    hide Coherent, OthersKept, Unsubscribed, UnsubscribeName, Listed;
    OthersKeptItself(s, n);
    if topics == [] {
    } else {
      var k := |topics| - 1;
      AllUnsubscribedIs(zenoh, opt, s, n, topics[..k]);
      assert topics == topics[..k] + [topics[k]];
      var s1 := AllUnsubscribed(zenoh, opt, s, n, topics[..k]);
      match UnsubscribeName(opt, topics[k])
      case None =>
      case Some(name) =>
        UnsubscribeNodeIs(zenoh, s1, name, n);
        OthersKeptTwice(s, s1, AllUnsubscribed(zenoh, opt, s, n, topics), n);
    }
  }

  /** The destructor's assertion: unsubscribing from every name
      SubscribedTopics returns leaves the node without subscription or
      handler, and every other node as it was, for every partition, namespace
      and remap table. */
  lemma TeardownLeavesNothing(zenoh: bool, opts: string -> NodeOptions, s: State, n: string, topics: seq<string>)
    requires Coherent(zenoh, s) && OwnNames(opts, s)
    requires forall t :: t in Listed(s, n) ==> Stripped(t) in topics
    ensures var s' := AllUnsubscribed(zenoh, opts(n), s, n, topics);
            Coherent(zenoh, s') && Listed(s', n) == {} && (forall t :: !HasNode(s', t, n)) && OthersKept(s, s', n)
  {
    AllUnsubscribedIs(zenoh, opts(n), s, n, topics);
    var s' := AllUnsubscribed(zenoh, opts(n), s, n, topics);
    forall t | t in Listed(s, n)
      ensures t !in Listed(s', n)
    {
      var topic :| UnsubscribeName(opts(n), topic) == Some(t);
      StrippedRequalifies(opts(n), topic, t);
    }
    assert forall t :: HasNode(s', t, n) <==> t in Listed(s', n);
  }
}
