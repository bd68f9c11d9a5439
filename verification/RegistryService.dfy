// The registry as the objects that hold it: the shared per-process tables
// updated in place (src/NodeShared.cc) and the node calls on them
// (src/Node.cc).
module RegistryService {
  import opened Options
  import opened TopicNames
  import opened HandlerStore
  import opened Registry

  class NodeShared {
    const zenoh: bool
    const discoveryStarted: bool
    const normal: HandlerStorage
    const raw: HandlerStorage
    var topicsSubscribed: map<string, set<string>>
    var zenohSubscribers: map<string, nat>
    var declared: seq<Declared>

    ghost predicate Valid()
      reads this, normal, raw
    {
      && normal != raw && normal.Valid() && raw.Valid()
      && forall t :: t in zenohSubscribers ==> zenohSubscribers[t] < |declared|
    }

    ghost function Tables(): State
      reads this, normal, raw
    {
      State(normal.Contents(), raw.Contents(), topicsSubscribed, zenohSubscribers, declared)
    }

    constructor (zenoh: bool, discoveryStarted: bool)
      ensures Valid() && Tables() == EMPTY && this.zenoh == zenoh && this.discoveryStarted == discoveryStarted
      ensures fresh(normal) && fresh(raw)
    {
      this.zenoh := zenoh;
      this.discoveryStarted := discoveryStarted;
      normal := new HandlerStorage();
      raw := new HandlerStorage();
      topicsSubscribed := map[];
      zenohSubscribers := map[];
      declared := [];
    }

    method HasSubscriber(name: string) returns (found: bool)
      requires Valid()
      ensures found <==> HasAny(Tables(), name)
    {
      found := normal.HasHandlersForTopic(name);
      if !found {
        found := raw.HasHandlersForTopic(name);
      }
    }

    method HasSubscriberForNode(name: string, nUuid: string) returns (found: bool)
      requires Valid()
      ensures found <==> HasNode(Tables(), name, nUuid)
    {
      found := normal.HasHandlersForNode(name, nUuid);
      if !found {
        found := raw.HasHandlersForNode(name, nUuid);
      }
    }

    method EnsureZenohSubscription(name: string)
      requires Valid() && zenoh
      modifies this
      ensures Valid() && Tables() == Ensured(zenoh, old(Tables()), name)
    {
      if name in zenohSubscribers {
        return;
      }
      zenohSubscribers := zenohSubscribers[name := |declared|];
      declared := declared + [Declared(name, true)];
    }

    method MaybeRemoveZenohSubscription(name: string)
      requires Valid() && zenoh
      modifies this
      ensures Valid() && Tables() == Released(zenoh, old(Tables()), name)
    {
      var used := HasSubscriber(name);
      if used || name !in zenohSubscribers {
        return;
      }
      var subscription := zenohSubscribers[name];
      zenohSubscribers := zenohSubscribers - {name};
      declared := declared[subscription := declared[subscription].(active := false)];
    }

    method RemoveSubscribedTopic(name: string, nUuid: string) returns (removed: bool)
      requires Valid()
      modifies this`topicsSubscribed
      ensures Valid() && Tables() == Unlisted(old(Tables()), name, nUuid)
      ensures removed <==> name in Listed(old(Tables()), nUuid)
    {
      if nUuid !in topicsSubscribed {
        return false;
      }
      removed := name in topicsSubscribed[nUuid];
      topicsSubscribed := topicsSubscribed[nUuid := topicsSubscribed[nUuid] - {name}];
    }

    method AddHandler(isRaw: bool, name: string, nUuid: string, handler: Handler)
      requires Valid()
      modifies normal, raw
      ensures Valid() && Tables() == WithHandler(old(Tables()), isRaw, name, nUuid, handler)
    {
      if isRaw {
        raw.AddHandler(name, nUuid, handler);
      } else {
        normal.AddHandler(name, nUuid, handler);
      }
    }

    /** Lists the topic and reports whether its publishers can be looked for. */
    method SubscribeHelper(name: string, nUuid: string) returns (discovered: bool)
      requires Valid()
      modifies this`topicsSubscribed
      ensures Valid()
      ensures var s := old(Tables()); Tables() == s.(listed := s.listed[nUuid := Listed(s, nUuid) + {name}])
      ensures discovered <==> zenoh || discoveryStarted
    {
      if nUuid !in topicsSubscribed {
        topicsSubscribed := topicsSubscribed[nUuid := {}];
      }
      topicsSubscribed := topicsSubscribed[nUuid := topicsSubscribed[nUuid] + {name}];
      discovered := true;
      if !zenoh {
        discovered := discoveryStarted;
      }
    }

    /** The critical section of Subscribe and SubscribeRaw. */
    method AddSubscription(isRaw: bool, name: string, nUuid: string, handler: Handler)
      requires Valid()
      modifies this, normal, raw
      ensures Valid() && Tables() == Subscribed(zenoh, old(Tables()), isRaw, name, nUuid, handler)
    {
      AddHandler(isRaw, name, nUuid, handler);
      if zenoh {
        EnsureZenohSubscription(name);
      }
      var discovered := SubscribeHelper(name, nUuid);
    }

    method RemoveNodeHandlers(name: string, nUuid: string)
      requires Valid()
      modifies normal, raw
      ensures Valid() && Tables() == WithoutHandlers(old(Tables()), name, nUuid, "")
    {
      var removed := normal.RemoveHandlersForNode(name, nUuid);
      removed := raw.RemoveHandlersForNode(name, nUuid);
    }

    /** The raw storage is asked only when the normal one had no such handler. */
    method RemoveOneHandler(name: string, nUuid: string, hUuid: string)
      requires Valid() && hUuid != ""
      modifies normal, raw
      ensures Valid() && Tables() == WithoutHandlers(old(Tables()), name, nUuid, hUuid)
    {
      var removed := normal.RemoveHandler(name, nUuid, hUuid);
      if !removed {
        assert normal.Contents() == old(normal.Contents());
        removed := raw.RemoveHandler(name, nUuid, hUuid);
      }
    }

    /** A subscription succeeds even when discovery was not started: the node
        reports the failure of SubscribeHelper as a message only. */
    method Subscribe(opt: NodeOptions, nUuid: string, topic: string, isRaw: bool, handler: Handler) returns (ok: bool)
      requires Valid()
      modifies this, normal, raw
      ensures Valid()
      ensures forall opts: string -> NodeOptions :: opts(nUuid) == opt ==>
                Tables() == AfterCall(zenoh, opts, old(Tables()), Call.Subscribe(nUuid, topic, isRaw, handler))
      ensures ok <==> SubscribeName(opt, topic).Some?
    {
      var target := if topic in opt.remap then opt.remap[topic] else topic;
      var name;
      ok, name := FullyQualifiedName(opt.partition, opt.ns, target);
      if !ok {
        return;
      }
      AddSubscription(isRaw, name, nUuid, handler);
    }

    method UnsubscribeByName(name: string, nUuid: string, hUuid: string)
      requires Valid()
      modifies this, normal, raw
      ensures Valid() && Tables() == Unsubscribed(zenoh, old(Tables()), name, nUuid, hUuid)
    {
      if hUuid == "" {
        RemoveNodeHandlers(name, nUuid);
      } else {
        RemoveOneHandler(name, nUuid, hUuid);
      }
      var remain := HasSubscriberForNode(name, nUuid);
      if remain {
        return;
      }
      var removed := RemoveSubscribedTopic(name, nUuid);
      if zenoh {
        MaybeRemoveZenohSubscription(name);
      }
    }

    method Unsubscribe(opt: NodeOptions, nUuid: string, topic: string, hUuid: string) returns (ok: bool)
      requires Valid()
      modifies this, normal, raw
      ensures Valid()
      ensures Tables() == match UnsubscribeName(opt, topic)
                          case None => old(Tables())
                          case Some(name) => Unsubscribed(zenoh, old(Tables()), name, nUuid, hUuid)
      ensures ok <==> UnsubscribeName(opt, topic).Some?
    {
      var name;
      ok, name := FullyQualifiedName(opt.partition, opt.ns, topic);
      if !ok {
        return;
      }
      UnsubscribeByName(name, nUuid, hUuid);
    }

    /** Every subscribed name of the node, without its partition. */
    method SubscribedTopics(nUuid: string) returns (topics: seq<string>)
      ensures topics == [] <==> Listed(Tables(), nUuid) == {}
      ensures forall t :: t in Listed(Tables(), nUuid) ==> Stripped(t) in topics
      ensures forall topic :: topic in topics ==> exists t :: t in Listed(Tables(), nUuid) && Stripped(t) == topic
    {
      topics := [];
      var names := if nUuid in topicsSubscribed then topicsSubscribed[nUuid] else {};
      ghost var all := names;
      while names != {}
        invariant names <= all
        invariant topics == [] <==> names == all
        invariant forall t :: t in all && t !in names ==> Stripped(t) in topics
        invariant forall topic :: topic in topics ==> exists t :: t in all && Stripped(t) == topic
        decreases |names|
      {
        var name :| name in names;
        topics := topics + [Stripped(name)];
        names := names - {name};
      }
    }

    method UnsubscribeAll(opt: NodeOptions, nUuid: string, topics: seq<string>)
      requires Valid()
      modifies this, normal, raw
      ensures Valid() && Tables() == AllUnsubscribed(zenoh, opt, old(Tables()), nUuid, topics)
    {
      for i := 0 to |topics|
        invariant Valid()
        invariant Tables() == AllUnsubscribed(zenoh, opt, old(Tables()), nUuid, topics[..i])
      {
        assert topics[..i + 1][..i] == topics[..i];
        var ok := Unsubscribe(opt, nUuid, topics[i], "");
      }
      assert topics[..|topics|] == topics;
    }

    /** ~Node: the loop over SubscribedTopics and the assertion after it. */
    method DestroyNode(ghost opts: string -> NodeOptions, opt: NodeOptions, nUuid: string)
      requires Valid() && Coherent(zenoh, Tables()) && OwnNames(opts, Tables()) && opts(nUuid) == opt
      modifies this, normal, raw
      ensures Valid() && Coherent(zenoh, Tables())
      ensures Listed(Tables(), nUuid) == {} && forall t :: !HasNode(Tables(), t, nUuid)
      ensures OthersKept(old(Tables()), Tables(), nUuid)
    {
      var topics := SubscribedTopics(nUuid);
      UnsubscribeAll(opt, nUuid, topics);
      TeardownLeavesNothing(zenoh, opts, old(Tables()), nUuid, topics);
      var left := SubscribedTopics(nUuid);
      assert left == [];
    }
  }

  // ---- Listing topics ----

  /** The partition and topic TopicList works with: both stay empty when the
      name does not decompose, and the partition loses its first character. */
  function ShownAs(name: string): (string, string) {
    match Decompose(name)
    case None => ("", "")
    case Some((partition, topic)) => (if partition == "" then "" else partition[1..], topic)
  }

  function TopicsShown(partition: string, names: seq<string>): seq<string> {
    if names == [] then []
    else
      var k := |names| - 1;
      TopicsShown(partition, names[..k]) + if ShownAs(names[k]).0 == partition then [ShownAs(names[k]).1] else []
  }

  method TopicList(opt: NodeOptions, names: seq<string>) returns (topics: seq<string>)
    ensures topics == TopicsShown(opt.partition, names)
  {
    topics := [];
    for i := 0 to |names|
      invariant topics == TopicsShown(opt.partition, names[..i])
    {
      assert names[..i + 1][..i] == names[..i];
      var partition, topic := "", "";
      var halves := Decompose(names[i]);
      if halves.Some? {
        partition, topic := halves.value.0, halves.value.1;
      }
      if partition != "" {
        partition := partition[1..];
      }
      if partition != opt.partition {
        continue;
      }
      topics := topics + [topic];
    }
    assert names[..|names|] == names;
  }

  lemma {:induction false} ShownIs(partition: string, names: seq<string>, topic: string)
    ensures topic in TopicsShown(partition, names) <==>
              exists i :: 0 <= i < |names| && ShownAs(names[i]) == (partition, topic)
  {
    if names != [] {
      hide ShownAs;
      var k := |names| - 1;
      ShownIs(partition, names[..k], topic);
      assert TopicsShown(partition, names) == TopicsShown(partition, names[..k]) +
          if ShownAs(names[k]).0 == partition then [ShownAs(names[k]).1] else [];
      assert forall i :: 0 <= i < k ==> names[..k][i] == names[i];
      if i :| 0 <= i < |names| && ShownAs(names[i]) == (partition, topic) {
        assert i < k ==> ShownAs(names[..k][i]) == (partition, topic);
      }
    }
  }

  /** Each name gives its topic in its place, or nothing. */
  lemma {:induction false} ShownInOrder(partition: string, names: seq<string>, i: nat)
    requires i < |names|
    ensures TopicsShown(partition, names)
         == TopicsShown(partition, names[..i])
            + (if ShownAs(names[i]).0 == partition then [ShownAs(names[i]).1] else [])
            + TopicsShown(partition, names[i + 1..])
  {
    hide ShownAs;
    var k := |names| - 1;
    if i < k {
      ShownInOrder(partition, names[..k], i);
      assert names[..k][..i] == names[..i] && names[..k][i + 1..] == names[i + 1..][..k - i - 1];
    } else {
      assert names[i + 1..] == [];
    }
  }

  /** A node sees the topics of its own partition in TopicList if and only if
      it spelled that partition without a slash at either end: the comparison
      is with the option as given, not as normalised. */
  lemma OwnTopicShownIff(opt: NodeOptions, topic: string, names: seq<string>)
    requires UnsubscribeName(opt, topic).Some? && UnsubscribeName(opt, topic).value in names
    ensures var name := UnsubscribeName(opt, topic).value;
            ShownAs(name).0 == opt.partition <==> !StartsWithSlash(opt.partition) && !EndsWithSlash(opt.partition)
    ensures !StartsWithSlash(opt.partition) && !EndsWithSlash(opt.partition) ==>
              AbsoluteTopic(opt.ns, topic) in TopicsShown(opt.partition, names)
  {
    QualifiedDecomposes(opt.partition, opt.ns, topic);
    ShownIs(opt.partition, names, AbsoluteTopic(opt.ns, topic));
    var p := opt.partition;
    assert ShownAs(UnsubscribeName(opt, topic).value).1 == AbsoluteTopic(opt.ns, topic);
    if p != "" && !StartsWithSlash(p) {
      assert ("/" + p)[1..] == p;
    }
  }
}
