// The table of publishers behind discovery: topic -> process -> publishers
// (include/gz/transport/TopicStorage.hh).
module TopicStore {
  import opened Options

  datatype Scope = PROCESS | HOST | ALL

  datatype Pub = Pub(topic: string, addr: string, ctrl: string, pUuid: string, nUuid: string,
                     typeName: string, scope: Scope)

  type Store = map<string, map<string, seq<Pub>>>

  /** Two publishers that AddPublisher takes for the same entry. */
  predicate SameEntry(a: Pub, b: Pub) {
    a.topic == b.topic && a.pUuid == b.pUuid && a.addr == b.addr && a.nUuid == b.nUuid
  }

  /** Every list is non-empty, filed under its own topic and process, and
      holds no entry twice; no topic is kept without a process. */
  ghost predicate WellFormed(s: Store) {
    && (forall t :: t in s ==> s[t] != map[])
    && (forall t, p :: t in s && p in s[t] ==> GoodList(t, p, s[t][p]))
  }

  ghost predicate GoodList(t: string, p: string, v: seq<Pub>) {
    && v != []
    && (forall i :: 0 <= i < |v| ==> v[i].topic == t && v[i].pUuid == p)
    && (forall i, j :: 0 <= i < j < |v| ==> !SameEntry(v[i], v[j]))
  }

  function ListAt(s: Store, t: string, p: string): seq<Pub> {
    if t in s && p in s[t] then s[t][p] else []
  }

  /** The flat reading of the table: is this publisher stored? */
  predicate Has(s: Store, x: Pub) {
    x in ListAt(s, x.topic, x.pUuid)
  }

  predicate HasEntry(v: seq<Pub>, x: Pub) {
    exists i :: 0 <= i < |v| && v[i].addr == x.addr && v[i].nUuid == x.nUuid
  }

  function Added(s: Store, x: Pub): Store {
    var v := ListAt(s, x.topic, x.pUuid);
    if HasEntry(v, x) then s
    else s[x.topic := (if x.topic in s then s[x.topic] else map[])[x.pUuid := v + [x]]]
  }

  function OtherNodes(v: seq<Pub>, nUuid: string): (r: seq<Pub>)
    ensures forall x :: x in r <==> x in v && x.nUuid != nUuid
    ensures |r| <= |v| && (|r| == |v| ==> r == v)
  {
    if v == [] then []
    else
      var k := |v| - 1;
      assert v == v[..k] + [v[k]];
      OtherNodes(v[..k], nUuid) + if v[k].nUuid == nUuid then [] else [v[k]]
  }

  function WithoutNode(s: Store, t: string, p: string, n: string): Store {
    if t !in s || p !in s[t] then s
    else
      var v := OtherNodes(s[t][p], n);
      var m := if v == [] then s[t] - {p} else s[t][p := v];
      if m == map[] then s - {t} else s[t := m]
  }

  function WithoutProc(s: Store, p: string): Store {
    map t | t in s && s[t] - {p} != map[] :: s[t] - {p}
  }

  // ---- What each operation does to the flat reading ----

  lemma AddedHas(s: Store, x: Pub)
    requires WellFormed(s)
    ensures WellFormed(Added(s, x))
    ensures forall y :: Has(Added(s, x), y) <==> Has(s, y) || (y == x && forall z :: Has(s, z) ==> !SameEntry(z, x))
  {
    hide WellFormed;
    var v := ListAt(s, x.topic, x.pUuid);
    ListIsGood(s, x.topic, x.pUuid);
    EntryIff(s, x);
    if !HasEntry(v, x) {
      UpdatedAt(s, x.topic, x.pUuid, v + [x]);
      HasFromLists(s, Added(s, x), x.topic, x.pUuid, v + [x]);
    }
  }

  /** Replacing one list changes the flat reading for its publishers only. */
  lemma HasFromLists(s: Store, r: Store, t: string, p: string, w: seq<Pub>)
    requires forall u, q :: ListAt(r, u, q) == if u == t && q == p then w else ListAt(s, u, q)
    ensures forall y :: Has(r, y) <==> if y.topic == t && y.pUuid == p then y in w else Has(s, y)
  {
    forall y
      ensures Has(r, y) <==> if y.topic == t && y.pUuid == p then y in w else Has(s, y)
    {
      assert ListAt(r, y.topic, y.pUuid) == if y.topic == t && y.pUuid == p then w else ListAt(s, y.topic, y.pUuid);
    }
  }

  lemma ListIsGood(s: Store, t: string, p: string)
    requires WellFormed(s)
    ensures ListAt(s, t, p) != [] <==> t in s && p in s[t]
    ensures ListAt(s, t, p) != [] ==> GoodList(t, p, ListAt(s, t, p))
  {
  }

  lemma EntryIff(s: Store, x: Pub)
    requires WellFormed(s)
    ensures HasEntry(ListAt(s, x.topic, x.pUuid), x) <==> exists z :: Has(s, z) && SameEntry(z, x)
  {
    var v := ListAt(s, x.topic, x.pUuid);
    ListIsGood(s, x.topic, x.pUuid);
    if HasEntry(v, x) {
      var i :| 0 <= i < |v| && v[i].addr == x.addr && v[i].nUuid == x.nUuid;
      assert Has(s, v[i]) && SameEntry(v[i], x);
    }
    forall z | Has(s, z) && SameEntry(z, x)
      ensures HasEntry(v, x)
    {
      var i :| 0 <= i < |v| && v[i] == z;
    }
  }

  /** Storing one good list leaves every other list as it is. */
  lemma UpdatedAt(s: Store, t: string, p: string, w: seq<Pub>)
    requires WellFormed(s) && GoodList(t, p, w)
    ensures var r := s[t := (if t in s then s[t] else map[])[p := w]];
            WellFormed(r) && forall u, q :: ListAt(r, u, q) == if u == t && q == p then w else ListAt(s, u, q)
  {
    var r := s[t := (if t in s then s[t] else map[])[p := w]];
    forall u, q | u in r && q in r[u]
      ensures GoodList(u, q, r[u][q])
    {
      if !(u == t && q == p) {
        assert u in s && q in s[u] && r[u][q] == s[u][q];
      }
    }
    assert p in r[t];
    forall u, q
      ensures ListAt(r, u, q) == if u == t && q == p then w else ListAt(s, u, q)
    {
      if u == t {
        assert q in r[t] <==> q == p || (t in s && q in s[t]);
      }
    }
  }

  /** Erasing one list leaves every other list as it is. */
  lemma ErasedAt(s: Store, t: string, p: string)
    requires WellFormed(s) && t in s && p in s[t]
    ensures var m := s[t] - {p}; var r := if m == map[] then s - {t} else s[t := m];
            WellFormed(r) && forall u, q :: ListAt(r, u, q) == if u == t && q == p then [] else ListAt(s, u, q)
  {
    var m := s[t] - {p};
    var r := if m == map[] then s - {t} else s[t := m];
    forall u, q
      ensures u in r && q in r[u] ==> u in s && q in s[u] && r[u][q] == s[u][q]
      ensures ListAt(r, u, q) == if u == t && q == p then [] else ListAt(s, u, q)
    {
      if u == t && q in s[t] && q != p {
        assert q in m;
      }
    }
  }

  lemma {:induction false} OtherNodesGood(t: string, p: string, v: seq<Pub>, n: string)
    requires GoodList(t, p, v)
    ensures OtherNodes(v, n) != [] ==> GoodList(t, p, OtherNodes(v, n))
  {
    var r := OtherNodes(v, n);
    if |v| > 1 {
      var k := |v| - 1;
      OtherNodesGood(t, p, v[..k], n);
      assert forall y :: y in v[..k] ==> !SameEntry(y, v[k]);
    }
  }

  lemma WithoutNodeHas(s: Store, t: string, p: string, n: string)
    requires WellFormed(s)
    ensures WellFormed(WithoutNode(s, t, p, n))
    ensures forall u, q :: ListAt(WithoutNode(s, t, p, n), u, q)
                        == if u == t && q == p then OtherNodes(ListAt(s, t, p), n) else ListAt(s, u, q)
    ensures forall y :: Has(WithoutNode(s, t, p, n), y)
                   <==> Has(s, y) && !(y.topic == t && y.pUuid == p && y.nUuid == n)
  {
    hide WellFormed, GoodList, HasEntry;
    ListIsGood(s, t, p);
    if t in s && p in s[t] {
      var v := OtherNodes(s[t][p], n);
      if v == [] {
        ErasedAt(s, t, p);
      } else {
        OtherNodesGood(t, p, s[t][p], n);
        UpdatedAt(s, t, p, v);
        assert p in s[t][p := v];
      }
    } else {
      assert OtherNodes([], n) == [];
    }
    HasFromLists(s, WithoutNode(s, t, p, n), t, p, OtherNodes(ListAt(s, t, p), n));
  }

  lemma WithoutProcHas(s: Store, p: string)
    requires WellFormed(s)
    ensures WellFormed(WithoutProc(s, p))
    ensures forall y :: Has(WithoutProc(s, p), y) <==> Has(s, y) && y.pUuid != p
    ensures forall t, q :: ListAt(WithoutProc(s, p), t, q) == if q == p then [] else ListAt(s, t, q)
  {
    var r := WithoutProc(s, p);
    forall t, q
      ensures ListAt(r, t, q) == if q == p then [] else ListAt(s, t, q)
    {
      if t in s && q in s[t] && q != p {
        assert q in s[t] - {p};
      }
    }
  }

  /** A process present anywhere in a well-formed table has a publisher. */
  lemma PresentHasPub(s: Store, t: string, p: string)
    requires WellFormed(s) && t in s && p in s[t]
    ensures Has(s, s[t][p][0]) && s[t][p][0].pUuid == p && s[t][p][0].topic == t
  {
  }

  lemma WellFormedEmpty()
    ensures WellFormed(map[])
  {
  }

  class TopicStorage {
    var data: Store

    constructor ()
      ensures data == map[]
    {
      data := map[];
    }

    method AddPublisher(x: Pub) returns (added: bool)
      modifies this
      ensures data == Added(old(data), x)
      ensures added <==> !HasEntry(ListAt(old(data), x.topic, x.pUuid), x)
    {
      var m := map[];
      if x.topic in data {
        m := data[x.topic];
      }
      var v := [];
      if x.pUuid in m {
        v := m[x.pUuid];
        var i := 0;
        while i < |v|
          invariant i <= |v|
          invariant forall k :: 0 <= k < i ==> !(v[k].addr == x.addr && v[k].nUuid == x.nUuid)
        {
          if v[i].addr == x.addr && v[i].nUuid == x.nUuid {
            return false;
          }
          i := i + 1;
        }
      }
      data := data[x.topic := m[x.pUuid := v + [x]]];
      added := true;
    }

    method HasAnyPublishers(t: string, p: string) returns (found: bool)
      ensures found <==> t in data && p in data[t]
    {
      found := t in data && p in data[t];
    }

    method Publishers(t: string) returns (found: bool, m: map<string, seq<Pub>>)
      ensures found <==> t in data
      ensures found ==> m == data[t]
      ensures forall p :: ListAt(data, t, p) == if p in m then m[p] else []
    {
      found := t in data;
      m := if found then data[t] else map[];
    }

    /** The first publisher of a node on a topic. */
    method Publisher(t: string, p: string, n: string) returns (r: Option<Pub>)
      ensures r == FirstOfNode(ListAt(data, t, p), n)
    {
      var v := if t in data && p in data[t] then data[t][p] else [];
      var i := 0;
      while i < |v|
        invariant i <= |v|
        invariant FirstOfNode(v, n) == FirstOfNode(v[i..], n)
      {
        if v[i].nUuid == n {
          return Some(v[i]);
        }
        assert v[i..][1..] == v[i + 1..];
        i := i + 1;
      }
      r := None;
    }

    /** Writing back what is there changes nothing. */
    static lemma SameListSameStore(s: Store, t: string, p: string)
      requires t in s && p in s[t]
      ensures s[t][p := s[t][p]] == s[t] && s[t := s[t]] == s
    {
    }

    method DelPublisherByNode(t: string, p: string, n: string) returns (removed: bool)
      requires WellFormed(data)
      modifies this
      ensures data == WithoutNode(old(data), t, p, n)
      ensures removed <==> data != old(data)
    {
      ListIsGood(data, t, p);
      hide WellFormed, GoodList, HasEntry, OtherNodes;
      removed := false;
      if t in data && p in data[t] {
        var m := data[t];
        var v := m[p];
        var kept := RemoveNode(v, n);
        removed := |kept| < |v|;
        m := if kept == [] then m - {p} else m[p := kept];
        data := if m == map[] then data - {t} else data[t := m];
        SameListSameStore(old(data), t, p);
      }
    }

    method DelPublishersByProc(p: string) returns (removed: bool)
      modifies this
      ensures data == WithoutProc(old(data), p)
      ensures removed <==> exists t :: t in old(data) && p in old(data)[t]
    {
      removed := false;
      ghost var done: set<string> := {};
      var todo := data.Keys;
      while todo != {}
        invariant done !! todo && done + todo == old(data).Keys
        invariant forall t :: t in done ==>
                    (t in data <==> old(data)[t] - {p} != map[]) && (t in data ==> data[t] == old(data)[t] - {p})
        invariant forall t :: t in todo ==> t in data && data[t] == old(data)[t]
        invariant data.Keys <= old(data).Keys
        invariant removed <==> exists t :: t in done && p in old(data)[t]
        decreases todo
      {
        var t :| t in todo;
        if p in data[t] {
          removed := true;
        }
        var m := data[t] - {p};
        data := if m == map[] then data - {t} else data[t := m];
        todo := todo - {t};
        done := done + {t};
      }
      assert data == WithoutProc(old(data), p);
    }

    /** Every publisher of one process, in some order and none twice. */
    method PublishersByProc(p: string) returns (pubs: seq<Pub>)
      requires WellFormed(data)
      ensures Lists(pubs, data, p)
    {
      pubs := [];
      assert ListsOutside([], data, p, data.Keys);
      hide WellFormed, ListsOutside;
      var todo := data.Keys;
      while todo != {}
        invariant todo <= data.Keys
        invariant ListsOutside(pubs, data, p, todo)
        decreases todo
      {
        var t :| t in todo;
        ListsMore(pubs, data, p, todo, t);
        todo := todo - {t};
        if p in data[t] {
          pubs := pubs + data[t][p];
        }
      }
      ListsAll(pubs, data, p);
    }
  }

  /** So far without the topics of `todo`. */
  ghost predicate ListsOutside(pubs: seq<Pub>, s: Store, p: string, todo: set<string>) {
    && (forall x :: x in pubs <==> Has(s, x) && x.pUuid == p && x.topic !in todo)
    && (forall i, j :: 0 <= i < j < |pubs| ==> pubs[i] != pubs[j])
  }

  lemma ListsMore(pubs: seq<Pub>, s: Store, p: string, todo: set<string>, t: string)
    requires WellFormed(s) && ListsOutside(pubs, s, p, todo) && t in todo
    ensures ListsOutside(pubs + ListAt(s, t, p), s, p, todo - {t})
    ensures ListAt(s, t, p) == [] ==> ListsOutside(pubs, s, p, todo - {t})
  {
    ListIsGood(s, t, p);
    assert pubs + [] == pubs;
  }

  lemma ListsAll(pubs: seq<Pub>, s: Store, p: string)
    requires ListsOutside(pubs, s, p, {})
    ensures Lists(pubs, s, p)
  {
  }

  lemma OtherNodesSnoc(v: seq<Pub>, i: nat, n: string)
    requires i < |v|
    ensures OtherNodes(v[..i + 1], n) == OtherNodes(v[..i], n) + if v[i].nUuid == n then [] else [v[i]]
  {
    assert v[..i + 1][..i] == v[..i];
  }

  /** The erase(remove_if) on one list. */
  method RemoveNode(v: seq<Pub>, n: string) returns (kept: seq<Pub>)
    ensures kept == OtherNodes(v, n)
  {
    kept := [];
    assert OtherNodes(v[..0], n) == [];
    hide OtherNodes;
    for i := 0 to |v|
      invariant kept == OtherNodes(v[..i], n)
    {
      OtherNodesSnoc(v, i, n);
      if v[i].nUuid != n {
        kept := kept + [v[i]];
      }
    }
    assert v[..|v|] == v;
  }

  /** `pubs` enumerates the publishers of process `p`, each once. */
  ghost predicate Lists(pubs: seq<Pub>, s: Store, p: string) {
    && (forall x :: x in pubs <==> Has(s, x) && x.pUuid == p)
    && (forall i, j :: 0 <= i < j < |pubs| ==> pubs[i] != pubs[j])
  }

  function FirstOfNode(v: seq<Pub>, n: string): (r: Option<Pub>)
    ensures r.Some? ==> r.value in v && r.value.nUuid == n
    ensures r.None? ==> forall x :: x in v ==> x.nUuid != n
  {
    if v == [] then None
    else if v[0].nUuid == n then Some(v[0])
    else
      assert v == [v[0]] + v[1..];
      FirstOfNode(v[1..], n)
  }

  /** It is the first one in the list. */
  lemma {:induction false} FirstOfNodeIsFirst(v: seq<Pub>, n: string) returns (i: nat)
    requires FirstOfNode(v, n).Some?
    ensures i < |v| && FirstOfNode(v, n) == Some(v[i]) && forall j :: 0 <= j < i ==> v[j].nUuid != n
  {
    if v[0].nUuid == n {
      i := 0;
    } else {
      i := FirstOfNodeIsFirst(v[1..], n);
      i := i + 1;
    }
  }
}
