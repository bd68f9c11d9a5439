// The three-level handler storage (include/gz/transport/HandlerStorage.hh)
// and the flat (topic, node, handler) table it refines.
module HandlerStore {
  import opened MessageTypes
  import opened Options
  import opened Strings

  /** A subscription callback, or a request or reply handler. */
  datatype Handler = Handler(hUuid: string, nUuid: string, typeName: string, repTypeName: string)

  datatype Key = Key(topic: string, node: string, handler: string)

  type Inner = map<string, Handler>
  type ByNode = map<string, Inner>
  type Table = map<string, ByNode>
  type FlatTable = map<Key, Handler>

  /** No empty inner map is kept, at either level. */
  predicate NoEmpty(t: Table) {
    NoneEmpty(t) && forall topic :: topic in t ==> NoneEmpty(t[topic])
  }

  function Get<A, B>(m: map<string, map<A, B>>, k: string): map<A, B> {
    if k in m then m[k] else map[]
  }

  /** Puts an inner map, leaving no empty one behind. */
  function Put<A, B>(m: map<string, map<A, B>>, k: string, inner: map<A, B>): map<string, map<A, B>> {
    if inner == map[] then m - {k} else m[k := inner]
  }

  predicate NoneEmpty<A, B>(m: map<string, map<A, B>>) {
    forall k :: k in m ==> m[k] != map[]
  }

  lemma GetPut<A, B>(m: map<string, map<A, B>>, k: string, inner: map<A, B>)
    ensures forall j :: Get(Put(m, k, inner), j) == if j == k then inner else Get(m, j)
    ensures NoneEmpty(m) ==> NoneEmpty(Put(m, k, inner))
  {
  }

  function HandlersAt(t: Table, topic: string, n: string): Inner {
    Get(Get(t, topic), n)
  }

  function Keys(t: Table): set<Key> {
    set topic, n, h | topic in t && n in t[topic] && h in t[topic][n] :: Key(topic, n, h)
  }

  function Flat(t: Table): FlatTable {
    map k | k in Keys(t) :: t[k.topic][k.node][k.handler]
  }

  lemma FlatAt(t: Table)
    ensures forall k: Key :: k in Flat(t) <==> k.handler in HandlersAt(t, k.topic, k.node)
    ensures forall k: Key :: k in Flat(t) ==> Flat(t)[k] == HandlersAt(t, k.topic, k.node)[k.handler]
  {
    forall k: Key
      ensures k in Flat(t) <==> k.handler in HandlersAt(t, k.topic, k.node)
    {
      assert k == Key(k.topic, k.node, k.handler);
    }
  }

  /** The flat table of `t` is `f`, read level by level. */
  lemma FlatIs(t: Table, f: FlatTable)
    requires forall k: Key :: k in f <==> k.handler in HandlersAt(t, k.topic, k.node)
    requires forall k: Key :: k in f ==> f[k] == HandlersAt(t, k.topic, k.node)[k.handler]
    ensures Flat(t) == f
  {
    FlatAt(t);
  }

  lemma SameFlatSameInner(a: Table, b: Table, topic: string, n: string)
    requires Flat(a) == Flat(b)
    ensures HandlersAt(a, topic, n) == HandlersAt(b, topic, n)
  {
    FlatAt(a);
    FlatAt(b);
    var x, y := HandlersAt(a, topic, n), HandlersAt(b, topic, n);
    forall h
      ensures (h in x <==> h in y) && (h in x && h in y ==> x[h] == y[h])
    {
      assert Key(topic, n, h) in Flat(a) <==> h in x;
    }
  }

  /** Without empty inner maps the nested table is determined by the flat one:
      the two levels of nesting carry no further information. */
  lemma FlatIsFaithful(a: Table, b: Table)
    requires NoEmpty(a) && NoEmpty(b) && Flat(a) == Flat(b)
    ensures a == b
  {
    forall topic, n
      ensures HandlersAt(a, topic, n) == HandlersAt(b, topic, n)
    {
      SameFlatSameInner(a, b, topic, n);
    }
    SameInnerSameTable(a, b);
  }

  lemma SameGetSameMap<A, B>(a: map<string, map<A, B>>, b: map<string, map<A, B>>)
    requires NoneEmpty(a) && NoneEmpty(b) && forall k :: Get(a, k) == Get(b, k)
    ensures a == b
  {
    forall k
      ensures (k in a <==> k in b) && (k in a && k in b ==> a[k] == b[k])
    {
      assert Get(a, k) == Get(b, k);
    }
  }

  lemma SameInnerSameTable(a: Table, b: Table)
    requires NoEmpty(a) && NoEmpty(b)
    requires forall topic, n :: HandlersAt(a, topic, n) == HandlersAt(b, topic, n)
    ensures a == b
  {
    forall topic
      ensures Get(a, topic) == Get(b, topic)
    {
      forall n
        ensures Get(Get(a, topic), n) == Get(Get(b, topic), n)
      {
        assert HandlersAt(a, topic, n) == HandlersAt(b, topic, n);
      }
      SameGetSameMap(Get(a, topic), Get(b, topic));
    }
    SameGetSameMap(a, b);
  }

  // ---- What the queries mean on the flat table ----

  ghost predicate FlatHasTopic(f: FlatTable, topic: string) {
    exists n, h :: Key(topic, n, h) in f
  }

  ghost predicate FlatHasNode(f: FlatTable, topic: string, n: string) {
    exists h :: Key(topic, n, h) in f
  }

  predicate IsFor(f: FlatTable, k: Key, topic: string, typeName: string) {
    k in f && k.topic == topic && (f[k].typeName == typeName || f[k].typeName == GENERIC_TYPE)
  }

  function FlatAdded(f: FlatTable, topic: string, n: string, handler: Handler): FlatTable {
    var k := Key(topic, n, handler.hUuid);
    if k in f then f else f[k := handler]
  }

  function FlatWithoutNode(f: FlatTable, topic: string, n: string): FlatTable {
    map k | k in f && !(k.topic == topic && k.node == n) :: f[k]
  }

  /** A topic entry exists exactly for the topics with a handler, and a node
      entry exactly for the nodes with one. */
  lemma QueriesRefine(t: Table, topic: string, n: string)
    requires NoEmpty(t)
    ensures topic in t <==> FlatHasTopic(Flat(t), topic)
    ensures topic in t && n in t[topic] <==> FlatHasNode(Flat(t), topic, n)
  {
    FlatAt(t);
    if topic in t {
      var m :| m in t[topic];
      var h :| h in t[topic][m];
      assert Key(topic, m, h) in Flat(t);
      if n in t[topic] {
        var g :| g in t[topic][n];
        assert Key(topic, n, g) in Flat(t);
      }
    }
  }

  /** Only the inner map of (topic, n) differs. */
  ghost predicate InnerReplaced(t: Table, t': Table, topic: string, n: string, inner: Inner) {
    forall u, m :: HandlersAt(t', u, m) == if u == topic && m == n then inner else HandlersAt(t, u, m)
  }

  function WithInner(t: Table, topic: string, n: string, inner: Inner): Table {
    Put(t, topic, Put(Get(t, topic), n, inner))
  }

  lemma WithInnerIs(t: Table, topic: string, n: string, inner: Inner)
    requires NoEmpty(t)
    ensures NoEmpty(WithInner(t, topic, n, inner))
    ensures InnerReplaced(t, WithInner(t, topic, n, inner), topic, n, inner)
  {
    var nodes := Get(t, topic);
    GetPut(nodes, n, inner);
    GetPut(t, topic, Put(nodes, n, inner));
  }

  function InnerWith(inner: Inner, handler: Handler): Inner {
    if handler.hUuid in inner then inner else inner[handler.hUuid := handler]
  }

  lemma InnerAdded(t: Table, topic: string, n: string, handler: Handler)
    requires NoEmpty(t)
    ensures var t' := WithInner(t, topic, n, InnerWith(HandlersAt(t, topic, n), handler));
            NoEmpty(t') && Flat(t') == FlatAdded(Flat(t), topic, n, handler)
  {
    WithInnerIs(t, topic, n, InnerWith(HandlersAt(t, topic, n), handler));
    FlatOfReplaced(t, WithInner(t, topic, n, InnerWith(HandlersAt(t, topic, n), handler)), topic, n, handler);
  }

  lemma FlatOfReplaced(t: Table, t': Table, topic: string, n: string, handler: Handler)
    requires InnerReplaced(t, t', topic, n, InnerWith(HandlersAt(t, topic, n), handler))
    ensures Flat(t') == FlatAdded(Flat(t), topic, n, handler)
  {
    FlatAt(t);
    FlatIs(t', FlatAdded(Flat(t), topic, n, handler));
  }

  lemma InnerRemoved(t: Table, topic: string, n: string, h: string)
    requires NoEmpty(t)
    ensures var t' := WithInner(t, topic, n, HandlersAt(t, topic, n) - {h});
            NoEmpty(t') && Flat(t') == Flat(t) - {Key(topic, n, h)}
  {
    var t' := WithInner(t, topic, n, HandlersAt(t, topic, n) - {h});
    WithInnerIs(t, topic, n, HandlersAt(t, topic, n) - {h});
    FlatAt(t);
    FlatIs(t', Flat(t) - {Key(topic, n, h)});
  }

  lemma InnerCleared(t: Table, topic: string, n: string)
    requires NoEmpty(t)
    ensures var t' := WithInner(t, topic, n, map[]);
            NoEmpty(t') && Flat(t') == FlatWithoutNode(Flat(t), topic, n)
  {
    var t' := WithInner(t, topic, n, map[]);
    WithInnerIs(t, topic, n, map[]);
    FlatAt(t);
    FlatIs(t', FlatWithoutNode(Flat(t), topic, n));
  }

  /** Where nothing is stored, the table does not change. */
  lemma NothingThere(t: Table, topic: string, n: string)
    requires NoEmpty(t) && HandlersAt(t, topic, n) == map[]
    ensures WithInner(t, topic, n, map[]) == t
  {
    assert Put(Get(t, topic), n, map[]) == Get(t, topic);
    assert Put(t, topic, Get(t, topic)) == t;
  }

  /** The three statements of AddHandler. */
  function AddSteps(t: Table, topic: string, n: string, handler: Handler): Table {
    var t1 := if topic in t then t else t[topic := map[]];
    var t2 := if n in t1[topic] then t1 else t1[topic := t1[topic][n := map[]]];
    if handler.hUuid in t2[topic][n] then t2
    else t2[topic := t2[topic][n := t2[topic][n][handler.hUuid := handler]]]
  }

  lemma AddStepsIs(t: Table, topic: string, n: string, handler: Handler)
    requires NoEmpty(t)
    ensures AddSteps(t, topic, n, handler) == WithInner(t, topic, n, InnerWith(HandlersAt(t, topic, n), handler))
  {
    var inner := HandlersAt(t, topic, n);
    var full := InnerWith(inner, handler);
    assert handler.hUuid in full;
    PutFull(t, topic, n, full);
    if handler.hUuid in inner {
      assert Get(t, topic)[n := inner] == Get(t, topic);
    } else {
      AddStepsFresh(t, topic, n, handler);
    }
  }

  lemma AddStepsFresh(t: Table, topic: string, n: string, handler: Handler)
    requires handler.hUuid !in HandlersAt(t, topic, n)
    ensures AddSteps(t, topic, n, handler)
         == t[topic := Get(t, topic)[n := HandlersAt(t, topic, n)[handler.hUuid := handler]]]
  {
    var full := HandlersAt(t, topic, n)[handler.hUuid := handler];
    var t1 := if topic in t then t else t[topic := map[]];
    var nodes := if n in t1[topic] then t1[topic] else t1[topic][n := map[]];
    assert nodes[n := full] == Get(t, topic)[n := full];
  }

  lemma PutFull(t: Table, topic: string, n: string, full: Inner)
    requires full != map[]
    ensures WithInner(t, topic, n, full) == t[topic := Get(t, topic)[n := full]]
  {
    assert n in Get(t, topic)[n := full];
  }

  /** The erasures of RemoveHandler. */
  function RemoveSteps(t: Table, topic: string, n: string, h: string): Table
    requires topic in t && n in t[topic]
  {
    var t1 := t[topic := t[topic][n := t[topic][n] - {h}]];
    var t2 := if t1[topic][n] == map[] then t1[topic := t1[topic] - {n}] else t1;
    if t2[topic] == map[] then t2 - {topic} else t2
  }

  lemma RemoveStepsIs(t: Table, topic: string, n: string, h: string)
    requires NoEmpty(t) && topic in t && n in t[topic]
    ensures RemoveSteps(t, topic, n, h) == WithInner(t, topic, n, HandlersAt(t, topic, n) - {h})
  {
    var inner := t[topic][n] - {h};
    var nodes := if inner == map[] then t[topic] - {n} else t[topic][n := inner];
    assert t[topic][n := inner] - {n} == t[topic] - {n};
    assert nodes == Put(t[topic], n, inner);
    assert t[topic := nodes] - {topic} == t - {topic};
  }

  /** The erasures of RemoveHandlersForNode. */
  function ClearSteps(t: Table, topic: string, n: string): Table
    requires topic in t
  {
    var t1 := t[topic := t[topic] - {n}];
    if t1[topic] == map[] then t1 - {topic} else t1
  }

  lemma ClearStepsIs(t: Table, topic: string, n: string)
    requires NoEmpty(t) && topic in t
    ensures ClearSteps(t, topic, n) == WithInner(t, topic, n, map[])
  {
    assert t[topic := t[topic] - {n}] - {topic} == t - {topic};
  }

  class HandlerStorage {
    var data: Table

    ghost predicate Valid()
      reads this
    {
      NoEmpty(data)
    }

    ghost function Contents(): FlatTable
      reads this
    {
      Flat(data)
    }

    constructor ()
      ensures Valid() && Contents() == map[]
    {
      data := map[];
    }

    /** An existing handler with the same UUID is kept: `insert` does not
        overwrite. */
    method AddHandler(topic: string, nUuid: string, handler: Handler)
      requires Valid()
      modifies this
      ensures Valid() && Contents() == FlatAdded(old(Contents()), topic, nUuid, handler)
    {
      if topic !in data {
        data := data[topic := map[]];
      }
      if nUuid !in data[topic] {
        data := data[topic := data[topic][nUuid := map[]]];
      }
      if handler.hUuid !in data[topic][nUuid] {
        data := data[topic := data[topic][nUuid := data[topic][nUuid][handler.hUuid := handler]]];
      }
      assert data == AddSteps(old(data), topic, nUuid, handler);
      AddStepsIs(old(data), topic, nUuid, handler);
      InnerAdded(old(data), topic, nUuid, handler);
    }

    method HasHandlersForTopic(topic: string) returns (found: bool)
      requires Valid()
      ensures found <==> FlatHasTopic(Contents(), topic)
    {
      QueriesRefine(data, topic, "");
      found := topic in data && data[topic] != map[];
    }

    method HasHandlersForNode(topic: string, nUuid: string) returns (found: bool)
      requires Valid()
      ensures found <==> FlatHasNode(Contents(), topic, nUuid)
    {
      QueriesRefine(data, topic, nUuid);
      found := topic in data && nUuid in data[topic];
    }

    method Find(topic: string, nUuid: string, hUuid: string) returns (handler: Option<Handler>)
      ensures var k := Key(topic, nUuid, hUuid);
              handler == if k in Contents() then Some(Contents()[k]) else None
    {
      FlatAt(data);
      if topic !in data {
        return None;
      }
      if nUuid !in data[topic] {
        return None;
      }
      if hUuid !in data[topic][nUuid] {
        return None;
      }
      handler := Some(data[topic][nUuid][hUuid]);
    }

    /** The handler of the topic for the given message type with the least node
        and, for that node, the least UUID, when there is one. */
    method FirstHandler(topic: string, typeName: string) returns (handler: Option<Handler>)
      ensures match handler
              case Some(h) =>
                && (h.typeName == typeName || h.typeName == GENERIC_TYPE)
                && exists k: Key ::
                     && k in Contents() && k.topic == topic && Contents()[k] == h
                     && forall j: Key | j in Contents() && j.topic == topic
                                        && Contents()[j].typeName in {typeName, GENERIC_TYPE}
                          :: AtMost(k.node, j.node) && (j.node == k.node ==> AtMost(k.handler, j.handler))
              case None =>
                forall k: Key :: k in Contents() && k.topic == topic ==>
                  Contents()[k].typeName != typeName && Contents()[k].typeName != GENERIC_TYPE
    {
      FlatAt(data);
      if topic !in data {
        return None;
      }
      var nodes := data[topic].Keys;
      while nodes != {}
        invariant nodes <= data[topic].Keys
        invariant forall k :: IsFor(Contents(), k, topic, typeName) ==> k.node in nodes
        decreases |nodes|
      {
        ghost var leastNode := LeastExists(nodes);
        var n :| n in nodes && forall m :: m in nodes ==> AtMost(n, m);
        var todo := data[topic][n].Keys;
        while todo != {}
          invariant todo <= data[topic][n].Keys
          invariant forall k :: IsFor(Contents(), k, topic, typeName) && k.node == n ==> k.handler in todo
          decreases |todo|
        {
          ghost var leastHandler := LeastExists(todo);
          var h :| h in todo && forall g :: g in todo ==> AtMost(h, g);
          var candidate := data[topic][n][h];
          if candidate.typeName == typeName || candidate.typeName == GENERIC_TYPE {
            assert Key(topic, n, h) in Contents() && Contents()[Key(topic, n, h)] == candidate;
            forall j: Key | j in Contents() && j.topic == topic && Contents()[j].typeName in {typeName, GENERIC_TYPE}
              ensures AtMost(n, j.node) && (j.node == n ==> AtMost(h, j.handler))
            {
              assert IsFor(Contents(), j, topic, typeName);
            }
            return Some(candidate);
          }
          todo := todo - {h};
        }
        nodes := nodes - {n};
      }
      handler := None;
    }

    method RemoveHandler(topic: string, nUuid: string, hUuid: string) returns (removed: bool)
      requires Valid()
      modifies this
      ensures Valid() && Contents() == old(Contents()) - {Key(topic, nUuid, hUuid)}
      ensures removed <==> Key(topic, nUuid, hUuid) in old(Contents())
    {
      FlatAt(data);
      InnerRemoved(data, topic, nUuid, hUuid);
      removed := false;
      if topic in data && nUuid in data[topic] {
        RemoveStepsIs(data, topic, nUuid, hUuid);
        removed := hUuid in data[topic][nUuid];
        data := data[topic := data[topic][nUuid := data[topic][nUuid] - {hUuid}]];
        if data[topic][nUuid] == map[] {
          data := data[topic := data[topic] - {nUuid}];
        }
        if data[topic] == map[] {
          data := data - {topic};
        }
        assert data == RemoveSteps(old(data), topic, nUuid, hUuid);
      } else {
        NothingThere(data, topic, nUuid);
      }
    }

    method RemoveHandlersForNode(topic: string, nUuid: string) returns (removed: bool)
      requires Valid()
      modifies this
      ensures Valid() && Contents() == FlatWithoutNode(old(Contents()), topic, nUuid)
      ensures removed <==> FlatHasNode(old(Contents()), topic, nUuid)
    {
      QueriesRefine(data, topic, nUuid);
      InnerCleared(data, topic, nUuid);
      removed := false;
      if topic in data {
        ClearStepsIs(data, topic, nUuid);
        removed := nUuid in data[topic];
        data := data[topic := data[topic] - {nUuid}];
        if data[topic] == map[] {
          data := data - {topic};
        }
        assert data == ClearSteps(old(data), topic, nUuid);
      } else {
        NothingThere(data, topic, nUuid);
      }
    }
  }
}
