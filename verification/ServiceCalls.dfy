// Pending service requests over ZeroMQ: stored, transmitted when a responder
// is known, answered, cancelled (src/NodeShared.cc,
// include/gz/transport/detail/Node.hh).
module ServiceCalls {
  import opened MessageTypes
  import opened Options
  import opened HandlerStore

  /** A request handler; `payload` is None when Serialize fails on it. */
  datatype Request = Request(reqType: string, repType: string, payload: Option<string>, requested: bool)

  /** An announced responder. */
  datatype Responder = Responder(addr: string, socketId: string, reqType: string, repType: string)

  /** The frames of one transmitted request. */
  datatype Wire = Wire(to: Responder, key: Key, data: string, reqType: string, repType: string)

  datatype Notice = Notice(key: Key, rep: string, ok: bool)

  // ---- Finding a responder ----

  predicate Offers(r: Responder, reqType: string, repType: string) {
    r.reqType == reqType && r.repType == repType
  }

  function FirstOf(pubs: seq<Responder>, reqType: string, repType: string): Option<Responder> {
    if pubs == [] then None
    else if Offers(pubs[0], reqType, repType) then Some(pubs[0])
    else FirstOf(pubs[1..], reqType, repType)
  }

  /** `addresses` lists the responders of each process in key order. */
  function FirstIn(addresses: seq<seq<Responder>>, reqType: string, repType: string): Option<Responder> {
    if addresses == [] then None
    else
      var first := FirstOf(addresses[0], reqType, repType);
      if first.Some? then first else FirstIn(addresses[1..], reqType, repType)
  }

  lemma {:induction false} FirstOfOffers(pubs: seq<Responder>, reqType: string, repType: string)
    ensures match FirstOf(pubs, reqType, repType)
            case Some(r) => r in pubs && Offers(r, reqType, repType)
            case None => forall r :: r in pubs ==> !Offers(r, reqType, repType)
  {
    if pubs != [] {
      FirstOfOffers(pubs[1..], reqType, repType);
    }
  }

  lemma {:induction false} FirstInOffers(addresses: seq<seq<Responder>>, reqType: string, repType: string)
    ensures match FirstIn(addresses, reqType, repType)
            case Some(r) =>
              r.reqType == reqType && r.repType == repType && exists pubs :: pubs in addresses && r in pubs
            case None =>
              forall pubs, r :: pubs in addresses && r in pubs ==> r.reqType != reqType || r.repType != repType
  {
    if addresses != [] {
      FirstOfOffers(addresses[0], reqType, repType);
      FirstInOffers(addresses[1..], reqType, repType);
      assert addresses[0] in addresses;
    }
  }

  /** And it is the first one: no responder before it in the list, and none of
      a process before, offers the types. */
  lemma {:induction false} FirstOfIsFirst(pubs: seq<Responder>, reqType: string, repType: string) returns (i: nat)
    requires FirstOf(pubs, reqType, repType).Some?
    ensures i < |pubs| && FirstOf(pubs, reqType, repType) == Some(pubs[i])
    ensures forall j :: 0 <= j < i ==> !Offers(pubs[j], reqType, repType)
  {
    if Offers(pubs[0], reqType, repType) {
      i := 0;
    } else {
      i := FirstOfIsFirst(pubs[1..], reqType, repType);
      i := i + 1;
    }
  }

  lemma {:induction false} FirstInIsFirst(addresses: seq<seq<Responder>>, reqType: string, repType: string)
    returns (p: nat, i: nat)
    requires FirstIn(addresses, reqType, repType).Some?
    ensures p < |addresses| && i < |addresses[p]| && FirstIn(addresses, reqType, repType) == Some(addresses[p][i])
    ensures forall j :: 0 <= j < i ==> !Offers(addresses[p][j], reqType, repType)
    ensures forall q, j :: 0 <= q < p && 0 <= j < |addresses[q]| ==> !Offers(addresses[q][j], reqType, repType)
  {
    FirstOfOffers(addresses[0], reqType, repType);
    if FirstOf(addresses[0], reqType, repType).Some? {
      p := 0;
      i := FirstOfIsFirst(addresses[0], reqType, repType);
    } else {
      p, i := FirstInIsFirst(addresses[1..], reqType, repType);
      p := p + 1;
    }
  }

  // ---- What one pass over the pending requests does ----

  predicate Selected(reqs: map<Key, Request>, k: Key, topic: string, reqType: string, repType: string) {
    && k in reqs && k.topic == topic && !reqs[k].requested
    && reqs[k].reqType == reqType && reqs[k].repType == repType
  }

  /** One-way requests leave the storage, unless Serialize failed. */
  predicate Leaves(r: Request) {
    r.repType == EMPTY_TYPE && r.payload.Some?
  }

  ghost predicate Marked(before: map<Key, Request>, after: map<Key, Request>, done: set<Key>,
                         topic: string, reqType: string, repType: string) {
    && (forall k :: k in after <==>
          k in before && !(k in done && Selected(before, k, topic, reqType, repType) && Leaves(before[k])))
    && (forall k :: k in after ==>
          after[k] == if k in done && Selected(before, k, topic, reqType, repType)
                      then before[k].(requested := true) else before[k])
  }

  ghost predicate Transmitted(before: map<Key, Request>, out: seq<Wire>, done: set<Key>, to: Responder,
                              topic: string, reqType: string, repType: string) {
    && (forall i, j :: 0 <= i < j < |out| ==> out[i].key != out[j].key)
    && (forall i :: 0 <= i < |out| ==>
          && out[i].key in done && Selected(before, out[i].key, topic, reqType, repType)
          && before[out[i].key].payload == Some(out[i].data)
          && out[i].to == to && out[i].reqType == reqType && out[i].repType == repType)
    && (forall k :: k in done && Selected(before, k, topic, reqType, repType) && before[k].payload.Some? ==>
          exists i :: 0 <= i < |out| && out[i].key == k)
  }

  /** The storage after one turn of the loop, and what that turn sends. */
  function AfterOne(reqs: map<Key, Request>, k: Key, reqType: string, repType: string): map<Key, Request>
    requires k in reqs
  {
    if !Selected(reqs, k, k.topic, reqType, repType) then reqs
    else if Leaves(reqs[k]) then reqs - {k}
    else reqs[k := reqs[k].(requested := true)]
  }

  function OneWire(reqs: map<Key, Request>, k: Key, reqType: string, repType: string, to: Responder): seq<Wire>
    requires k in reqs
  {
    if Selected(reqs, k, k.topic, reqType, repType) && reqs[k].payload.Some?
    then [Wire(to, k, reqs[k].payload.value, reqType, repType)] else []
  }

  class Requester {
    var requests: map<Key, Request>
    var wire: seq<Wire>
    var notices: seq<Notice>
    var srvConnections: seq<string>

    constructor ()
      ensures requests == map[] && wire == [] && notices == [] && srvConnections == []
    {
      requests, wire, notices, srvConnections := map[], [], [], [];
    }

    method AddRequest(k: Key, r: Request)
      modifies this`requests
      ensures requests == if k in old(requests) then old(requests) else old(requests)[k := r]
    {
      if k !in requests {
        requests := requests[k := r];
      }
    }

    /** RecvSrvResponse when nothing interleaves with it: notify, then remove. */
    method RecvSrvResponse(k: Key, rep: string, ok: bool)
      modifies this`requests, this`notices
      ensures requests == old(requests) - {k}
      ensures notices == old(notices) + if k in old(requests) then [Notice(k, rep, ok)] else []
    {
      var hasHandler := k in requests;
      if hasHandler {
        notices := notices + [Notice(k, rep, ok)];
        requests := requests - {k};
      } else {
        assert requests == requests - {k};
      }
    }

    method FindResponder(addresses: seq<seq<Responder>>, reqType: string, repType: string)
      returns (r: Option<Responder>)
      ensures r == FirstIn(addresses, reqType, repType)
    {
      for i := 0 to |addresses|
        invariant FirstIn(addresses, reqType, repType) == FirstIn(addresses[i..], reqType, repType)
      {
        var v := addresses[i];
        for j := 0 to |v|
          invariant FirstOf(v, reqType, repType) == FirstOf(v[j..], reqType, repType)
        {
          if v[j].reqType == reqType && v[j].repType == repType {
            return Some(v[j]);
          }
          assert v[j..][1..] == v[j + 1..];
        }
        assert addresses[i..][1..] == addresses[i + 1..];
      }
      r := None;
    }

    method Connect(addr: string)
      modifies this`srvConnections
      ensures srvConnections == old(srvConnections) + if addr in old(srvConnections) then [] else [addr]
    {
      if addr !in srvConnections {
        srvConnections := srvConnections + [addr];
      }
    }

    /** One turn of the loop over the pending requests. */
    method SendOne(k: Key, reqType: string, repType: string, to: Responder)
      requires k in requests
      modifies this`requests, this`wire
      ensures requests == AfterOne(old(requests), k, reqType, repType)
      ensures wire == old(wire) + OneWire(old(requests), k, reqType, repType, to)
    {
      var req := requests[k];
      if req.requested {
        return;
      }
      if req.reqType != reqType || req.repType != repType {
        return;
      }
      requests := requests[k := req.(requested := true)];
      if req.payload.None? {
        return;
      }
      wire := wire + [Wire(to, k, req.payload.value, reqType, repType)];
      if repType == EMPTY_TYPE {
        requests := requests - {k};
      }
    }

    /** The loop over the pending requests of a topic. */
    method SendSelected(topic: string, reqType: string, repType: string, to: Responder)
      modifies this`requests, this`wire
      ensures Marked(old(requests), requests, old(requests).Keys, topic, reqType, repType)
      ensures old(wire) <= wire
      ensures Transmitted(old(requests), wire[|old(wire)|..], old(requests).Keys, to, topic, reqType, repType)
    {
      NothingDoneYet(requests, wire, to, topic, reqType, repType);
      hide Marked, Transmitted, AfterOne, OneWire;
      ghost var before := requests;
      ghost var done: set<Key> := set k | k in requests && k.topic != topic;
      var todo := set k | k in requests && k.topic == topic;
      ghost var out: seq<Wire> := [];
      while todo != {}
        invariant done + todo == before.Keys && done !! todo && forall k :: k in todo ==> k.topic == topic
        invariant Marked(before, requests, done, topic, reqType, repType)
        invariant wire == old(wire) + out
        invariant Transmitted(before, out, done, to, topic, reqType, repType)
        decreases |todo|
      {
        var k :| k in todo;
        MarkedMore(before, requests, done, topic, reqType, repType, k);
        TransmittedMore(before, requests, out, done, to, topic, reqType, repType, k);
        ghost var more := OneWire(requests, k, reqType, repType, to);
        SendOne(k, reqType, repType, to);
        Reassociate(old(wire), out, more);
        MoveOne(todo, done, k);
        out, todo, done := out + more, todo - {k}, done + {k};
      }
      assert done == before.Keys;
      Reassociate(old(wire), out, []);
    }

    method SendPendingRemoteReqs(topic: string, reqType: string, repType: string, addresses: seq<seq<Responder>>)
      modifies this`requests, this`wire, this`srvConnections
      ensures FirstIn(addresses, reqType, repType).None? ==> requests == old(requests) && wire == old(wire)
      ensures FirstIn(addresses, reqType, repType).Some? ==>
                && Marked(old(requests), requests, old(requests).Keys, topic, reqType, repType)
                && old(wire) <= wire
                && Transmitted(old(requests), wire[|old(wire)|..], old(requests).Keys,
                               FirstIn(addresses, reqType, repType).value, topic, reqType, repType)
    {
      if addresses == [] {
        return;
      }
      var responder := FindResponder(addresses, reqType, repType);
      if responder.None? {
        return;
      }
      Connect(responder.value.addr);
      SendSelected(topic, reqType, repType, responder.value);
    }
  }

  lemma NothingDoneYet(reqs: map<Key, Request>, wire: seq<Wire>, to: Responder,
                       topic: string, reqType: string, repType: string)
    ensures var done := set k | k in reqs && k.topic != topic;
            Marked(reqs, reqs, done, topic, reqType, repType)
            && Transmitted(reqs, [], done, to, topic, reqType, repType)
    ensures wire + [] == wire
  {
  }

  lemma MarkedMore(before: map<Key, Request>, reqs: map<Key, Request>, done: set<Key>,
                   topic: string, reqType: string, repType: string, k: Key)
    requires Marked(before, reqs, done, topic, reqType, repType)
    requires k in before && k !in done && k.topic == topic
    ensures k in reqs && reqs[k] == before[k]
    ensures Marked(before, AfterOne(reqs, k, reqType, repType), done + {k}, topic, reqType, repType)
  {
  }

  lemma TransmittedMore(before: map<Key, Request>, reqs: map<Key, Request>, out: seq<Wire>, done: set<Key>,
                        to: Responder, topic: string, reqType: string, repType: string, k: Key)
    requires Transmitted(before, out, done, to, topic, reqType, repType)
    requires k in before && k !in done && k.topic == topic && k in reqs && reqs[k] == before[k]
    ensures Transmitted(before, out + OneWire(reqs, k, reqType, repType, to), done + {k}, to, topic, reqType, repType)
  {
    var out' := out + OneWire(reqs, k, reqType, repType, to);
    forall j | j in done + {k} && Selected(before, j, topic, reqType, repType) && before[j].payload.Some?
      ensures exists i :: 0 <= i < |out'| && out'[i].key == j
    {
      if j == k {
        assert out'[|out|].key == j;
      } else {
        var i :| 0 <= i < |out| && out[i].key == j;
        assert out'[i].key == j;
      }
    }
  }

  lemma MoveOne(todo: set<Key>, done: set<Key>, k: Key)
    requires k in todo && done !! todo
    ensures (done + {k}) + (todo - {k}) == done + todo && (done + {k}) !! (todo - {k})
  {
  }

  lemma Reassociate(a: seq<Wire>, b: seq<Wire>, c: seq<Wire>)
    ensures (a + b) + c == a + (b + c)
    ensures (a + b)[|a|..] == b
  {
  }

  // ---- Whole runs ----

  /** The reception thread looks a handler up, notifies it without the lock,
      then removes it. */
  datatype Phase = Idle | Answering(key: Key, rep: string, ok: bool) | Answered(key: Key)

  /** `issued` is every request ever stored, as it was then. */
  datatype State = State(requests: map<Key, Request>, wire: seq<Wire>, notices: seq<Notice>, phase: Phase,
                         issued: map<Key, Request>)

  datatype Event =
    | New(key: Key, request: Request)
    | Send(topic: string, reqType: string, repType: string, addresses: seq<seq<Responder>>)
    | Response(key: Key, rep: string, ok: bool)
    | Notify
    | Drop
    | Cancel(key: Key)

  ghost predicate SendStep(s: State, s': State, topic: string, reqType: string, repType: string,
                           addresses: seq<seq<Responder>>) {
    match FirstIn(addresses, reqType, repType)
    case None => s' == s
    case Some(to) =>
      && s' == s.(requests := s'.requests, wire := s'.wire)
      && Marked(s.requests, s'.requests, s.requests.Keys, topic, reqType, repType)
      && s.wire <= s'.wire
      && Transmitted(s.requests, s'.wire[|s.wire|..], s.requests.Keys, to, topic, reqType, repType)
  }

  /** One critical section. Handler UUIDs are fresh. */
  ghost predicate Next(s: State, e: Event, s': State) {
    match e
    case New(k, r) =>
      && (forall j :: j in s.issued ==> j.handler != k.handler) && !r.requested
      && s' == s.(requests := s.requests[k := r], issued := s.issued[k := r])
    case Send(topic, reqType, repType, addresses) => SendStep(s, s', topic, reqType, repType, addresses)
    case Response(k, rep, ok) =>
      s.phase.Idle? && s' == if k in s.requests then s.(phase := Answering(k, rep, ok)) else s
    case Notify =>
      && s.phase.Answering?
      && s' == s.(notices := s.notices + [Notice(s.phase.key, s.phase.rep, s.phase.ok)], phase := Answered(s.phase.key))
    case Drop => s.phase.Answered? && s' == s.(requests := s.requests - {s.phase.key}, phase := Idle)
    case Cancel(k) => s' == s.(requests := s.requests - {k})
  }

  /** The pending requests of `todo`, handled one after the other. */
  lemma {:induction false} HandleRest(before: map<Key, Request>, reqs: map<Key, Request>, out: seq<Wire>,
                                      done: set<Key>, todo: set<Key>, to: Responder,
                                      topic: string, reqType: string, repType: string)
    returns (reqs': map<Key, Request>, out': seq<Wire>)
    requires done + todo == before.Keys && done !! todo && forall k :: k in todo ==> k.topic == topic
    requires Marked(before, reqs, done, topic, reqType, repType)
    requires Transmitted(before, out, done, to, topic, reqType, repType)
    ensures Marked(before, reqs', before.Keys, topic, reqType, repType)
    ensures Transmitted(before, out', before.Keys, to, topic, reqType, repType)
    decreases |todo|
  {
    hide Marked, Transmitted, AfterOne, OneWire, Selected;
    if todo == {} {
      reqs', out' := reqs, out;
    } else {
      var k :| k in todo;
      MarkedMore(before, reqs, done, topic, reqType, repType, k);
      TransmittedMore(before, reqs, out, done, to, topic, reqType, repType, k);
      MoveOne(todo, done, k);
      reqs', out' := HandleRest(before, AfterOne(reqs, k, reqType, repType),
                                out + OneWire(reqs, k, reqType, repType, to),
                                done + {k}, todo - {k}, to, topic, reqType, repType);
    }
  }

  /** A send pass is possible in every state: handling the pending requests in
      whatever order is a step. */
  lemma SendIsPossible(s: State, topic: string, reqType: string, repType: string, addresses: seq<seq<Responder>>)
    returns (s': State)
    ensures Next(s, Send(topic, reqType, repType, addresses), s')
  {
    s' := s;
    var found := FirstIn(addresses, reqType, repType);
    if found.Some? {
      hide Marked, Transmitted, FirstIn;
      var done := set k | k in s.requests && k.topic != topic;
      var todo := set k | k in s.requests && k.topic == topic;
      NothingDoneYet(s.requests, s.wire, found.value, topic, reqType, repType);
      var reqs, out := HandleRest(s.requests, s.requests, [], done, todo, found.value, topic, reqType, repType);
      s' := s.(requests := reqs, wire := s.wire + out);
      assert s'.wire[|s.wire|..] == out;
    }
  }

  const START := State(map[], [], [], Idle, map[])

  ghost predicate Run(states: seq<State>, events: seq<Event>) {
    && |states| == |events| + 1
    && states[0] == START
    && forall i :: 0 <= i < |events| ==> Next(states[i], events[i], states[i + 1])
  }

  /** Each transmitted request was sent once, to a responder with exactly its
      types, with its own data. */
  ghost predicate WireOk(s: State) {
    && (forall i, j :: 0 <= i < j < |s.wire| ==> s.wire[i].key != s.wire[j].key)
    && (forall i :: 0 <= i < |s.wire| ==>
          && s.wire[i].key in s.issued
          && var r := s.issued[s.wire[i].key];
             Offers(s.wire[i].to, r.reqType, r.repType) && r.payload == Some(s.wire[i].data)
             && s.wire[i].reqType == r.reqType && s.wire[i].repType == r.repType)
  }

  /** Each handler was notified at most once. */
  ghost predicate NoticesOk(s: State) {
    && (forall i, j :: 0 <= i < j < |s.notices| ==> s.notices[i].key != s.notices[j].key)
    && (forall i :: 0 <= i < |s.notices| ==> s.notices[i].key in s.issued)
  }

  ghost predicate Stored(s: State) {
    && (forall k :: k in s.requests ==>
          && k in s.issued
          && (s.requests[k] == s.issued[k] || s.requests[k] == s.issued[k].(requested := true)))
    && (forall k :: k in s.issued ==> !s.issued[k].requested)
    && (forall j, k :: j in s.issued && k in s.issued && j.handler == k.handler ==> j == k)
  }

  /** What is still in the storage agrees with what was sent and notified. */
  ghost predicate Agrees(s: State) {
    && (forall i :: 0 <= i < |s.wire| && s.wire[i].key in s.requests ==> s.requests[s.wire[i].key].requested)
    && (forall i :: 0 <= i < |s.notices| && s.notices[i].key in s.requests ==> s.phase == Answered(s.notices[i].key))
    && (s.phase.Answering? ==>
          s.phase.key in s.issued && forall i :: 0 <= i < |s.notices| ==> s.notices[i].key != s.phase.key)
    && (s.phase.Answered? ==> s.phase.key in s.issued)
    && (forall k :: k in s.requests && s.requests[k].requested && s.requests[k].repType == EMPTY_TYPE ==>
          s.requests[k].payload.None?)
  }

  ghost predicate Inv(s: State) {
    WireOk(s) && NoticesOk(s) && Stored(s) && Agrees(s)
  }

  /** A transmission that the invariant allows next to the earlier ones. */
  ghost predicate WireFits(s: State, w: Wire) {
    && w.key in s.issued
    && Offers(w.to, s.issued[w.key].reqType, s.issued[w.key].repType)
    && s.issued[w.key].payload == Some(w.data)
    && w.reqType == s.issued[w.key].reqType && w.repType == s.issued[w.key].repType
    && forall j :: 0 <= j < |s.wire| ==> s.wire[j].key != w.key
  }

  lemma OutFits(s: State, out: seq<Wire>, to: Responder, topic: string, reqType: string, repType: string, i: nat)
    requires Stored(s) && Agrees(s) && Offers(to, reqType, repType) && i < |out|
    requires Transmitted(s.requests, out, s.requests.Keys, to, topic, reqType, repType)
    ensures WireFits(s, out[i])
  {
    assert Selected(s.requests, out[i].key, topic, reqType, repType);
  }

  lemma NewWiresFit(s: State, s': State, topic: string, reqType: string, repType: string,
                    addresses: seq<seq<Responder>>)
    requires Inv(s) && SendStep(s, s', topic, reqType, repType, addresses)
    ensures s.wire <= s'.wire && s'.issued == s.issued
    ensures forall i, j :: |s.wire| <= i < j < |s'.wire| ==> s'.wire[i].key != s'.wire[j].key
    ensures forall i :: |s.wire| <= i < |s'.wire| ==> WireFits(s, s'.wire[i])
  {
    var found := FirstIn(addresses, reqType, repType);
    if found.Some? {
      FirstInOffers(addresses, reqType, repType);
      hide WireFits, Stored, Agrees, WireOk, NoticesOk, Marked, FirstIn, Offers, Selected;
      var n := |s.wire|;
      var out := s'.wire[n..];
      forall i | n <= i < |s'.wire|
        ensures s'.wire[i] == out[i - n] && WireFits(s, s'.wire[i])
      {
        OutFits(s, out, found.value, topic, reqType, repType, i - n);
      }
    }
  }

  lemma SendKeepsWireOk(s: State, s': State, topic: string, reqType: string, repType: string,
                        addresses: seq<seq<Responder>>)
    requires Inv(s) && SendStep(s, s', topic, reqType, repType, addresses)
    ensures WireOk(s')
  {
    NewWiresFit(s, s', topic, reqType, repType, addresses);
    assert WireOk(s);
    hide Inv, SendStep;
    assert forall i :: 0 <= i < |s.wire| ==> s'.wire[i] == s.wire[i];
  }

  lemma SendKeepsRest(s: State, s': State, topic: string, reqType: string, repType: string,
                      addresses: seq<seq<Responder>>)
    requires Inv(s) && SendStep(s, s', topic, reqType, repType, addresses)
    ensures Stored(s') && Agrees(s')
  {
    hide WireOk, NoticesOk, FirstIn, Offers;
    if FirstIn(addresses, reqType, repType).Some? {
      var n := |s.wire|;
      var out := s'.wire[n..];
      forall i | 0 <= i < |s'.wire| && s'.wire[i].key in s'.requests
        ensures s'.requests[s'.wire[i].key].requested
      {
        if i >= n {
          assert s'.wire[i] == out[i - n];
        }
      }
    }
  }

  lemma NewKeepsInv(s: State, k: Key, r: Request, s': State)
    requires Inv(s) && Next(s, New(k, r), s')
    ensures Inv(s')
  {
    assert k !in s.issued;
  }

  lemma NextKeepsInv(s: State, e: Event, s': State)
    requires Inv(s) && Next(s, e, s')
    ensures Inv(s')
  {
    match e
    case Send(topic, reqType, repType, addresses) =>
      SendKeepsWireOk(s, s', topic, reqType, repType, addresses);
      SendKeepsRest(s, s', topic, reqType, repType, addresses);
    case New(k, r) => NewKeepsInv(s, k, r, s');
    case _ =>
  }

  /** In every run, over any interleaving: at most one transmission per request
      and only to a matching responder, at most one notification per request,
      and no one-way request left behind by a successful send. */
  lemma {:induction false} RunsKeepInv(states: seq<State>, events: seq<Event>, i: nat)
    requires Run(states, events) && i < |states|
    ensures Inv(states[i])
  {
    if i > 0 {
      RunsKeepInv(states, events, i - 1);
      NextKeepsInv(states[i - 1], events[i - 1], states[i]);
    }
  }

  /** Event `m` is a response that finds the request of `k` stored. */
  ghost predicate Finds(states: seq<State>, events: seq<Event>, m: nat, k: Key) {
    m < |events| < |states| && events[m].Response? && events[m].key == k && k in states[m].requests
  }

  /** A handler that was found once is never found again. */
  lemma {:induction false} FoundOnce(states: seq<State>, events: seq<Event>, m: nat, n: nat, k: Key)
    requires Run(states, events) && Finds(states, events, m, k) && m < n < |states|
    ensures var s := states[n];
            k in s.issued && (k in s.requests ==> !s.phase.Idle? && s.phase.key == k)
    decreases n
  {
    hide Inv, Next;
    var s, e := states[n - 1], events[n - 1];
    RunsKeepInv(states, events, n - 1);
    if n - 1 > m {
      FoundOnce(states, events, m, n - 1, k);
      FoundStays(s, e, states[n], k);
    } else {
      NowFound(s, e, states[n], k);
    }
  }

  lemma NowFound(s: State, e: Event, s': State, k: Key)
    requires Inv(s) && Next(s, e, s') && e.Response? && e.key == k && k in s.requests
    ensures k in s'.issued && !s'.phase.Idle? && s'.phase.key == k
  {
    hide WireOk, NoticesOk, Agrees;
  }

  lemma FoundStays(s: State, e: Event, s': State, k: Key)
    requires Next(s, e, s') && k in s.issued && (k in s.requests ==> !s.phase.Idle? && s.phase.key == k)
    ensures k in s'.issued && (k in s'.requests ==> !s'.phase.Idle? && s'.phase.key == k)
  {
    hide Transmitted, Selected;
  }

  /** Before moment `n` exactly one response found the request stored, and the
      notice was made from it. */
  ghost predicate AnsweredBefore(states: seq<State>, events: seq<Event>, n: nat, notice: Notice) {
    exists m: nat ::
      && m < n && Finds(states, events, m, notice.key)
      && events[m] == Response(notice.key, notice.rep, notice.ok)
      && forall m': nat :: m' < n && Finds(states, events, m', notice.key) ==> m' == m
  }

  lemma StillAnswered(states: seq<State>, events: seq<Event>, n: nat, notice: Notice)
    requires Run(states, events) && 0 < n < |states| && AnsweredBefore(states, events, n - 1, notice)
    ensures AnsweredBefore(states, events, n, notice)
  {
    var m: nat :| m < n - 1 && Finds(states, events, m, notice.key)
                  && events[m] == Response(notice.key, notice.rep, notice.ok)
                  && forall m': nat :: m' < n - 1 && Finds(states, events, m', notice.key) ==> m' == m;
    FoundOnce(states, events, m, n - 1, notice.key);
    assert Next(states[n - 1], events[n - 1], states[n]);
    assert !Finds(states, events, n - 1, notice.key);
  }

  lemma NowAnswered(states: seq<State>, events: seq<Event>, n: nat, notice: Notice)
    requires Run(states, events) && 0 < n < |states| && Finds(states, events, n - 1, notice.key)
    requires events[n - 1] == Response(notice.key, notice.rep, notice.ok)
    ensures AnsweredBefore(states, events, n, notice)
  {
    assert Next(states[n - 1], events[n - 1], states[n]);
    forall m: nat | m < n - 1 && Finds(states, events, m, notice.key)
      ensures false
    {
      FoundOnce(states, events, m, n - 1, notice.key);
    }
  }

  /** Every notification was made from a response that arrived while its
      request was stored, and no other response of the request, earlier or
      later, found it stored. */
  lemma {:induction false} NoticesAreAnswers(states: seq<State>, events: seq<Event>, n: nat)
    requires Run(states, events) && n < |states|
    ensures forall j :: 0 <= j < |states[n].notices| ==> AnsweredBefore(states, events, n, states[n].notices[j])
    ensures states[n].phase.Answering? ==>
              AnsweredBefore(states, events, n, Notice(states[n].phase.key, states[n].phase.rep, states[n].phase.ok))
  {
    if n > 0 {
      NoticesAreAnswers(states, events, n - 1);
      var s, e, s' := states[n - 1], events[n - 1], states[n];
      assert Next(s, e, s');
      forall notice | AnsweredBefore(states, events, n - 1, notice)
        ensures AnsweredBefore(states, events, n, notice)
      {
        StillAnswered(states, events, n, notice);
      }
      if e.Response? && e.key in s.requests {
        NowAnswered(states, events, n, Notice(e.key, e.rep, e.ok));
      }
      hide Run, AnsweredBefore, Transmitted, Marked;
    }
  }

  function WithoutAt<T>(s: seq<T>, i: nat): seq<T>
    requires i < |s|
  {
    s[..i] + s[i + 1..]
  }

  /** A response for a request that is not stored (unknown, cancelled or
      already answered) leaves no trace in a run: taking it out gives a run
      with the same states but one. */
  lemma UnknownResponseChangesNothing(states: seq<State>, events: seq<Event>, i: nat)
    requires Run(states, events) && i < |events|
    requires events[i].Response? && events[i].key !in states[i].requests
    ensures Run(WithoutAt(states, i), WithoutAt(events, i))
    ensures WithoutAt(states, i)[|events| - 1] == states[|events|]
  {
    assert Next(states[i], events[i], states[i + 1]);
    var states', events' := WithoutAt(states, i), WithoutAt(events, i);
    assert states' == states[..i + 1] + states[i + 2..];
    hide Next;
    forall j | 0 <= j < |events'|
      ensures Next(states'[j], events'[j], states'[j + 1])
    {
      var k := if j < i then j else j + 1;
      assert Next(states[k], events[k], states[k + 1]);
    }
  }

  /** The life of a call: stored, sent once a responder is there, answered.
      The caller is notified with what the response carried, the request has
      gone out with its own data, and nothing of it stays behind. */
  lemma CallIsAnswered(s: State, k: Key, r: Request, topic: string, addresses: seq<seq<Responder>>,
                       rep: string, ok: bool, s1: State, s2: State, s3: State, s4: State, s5: State)
    requires Inv(s) && Next(s, New(k, r), s1) && k.topic == topic
    requires r.payload.Some? && r.repType != EMPTY_TYPE && FirstIn(addresses, r.reqType, r.repType).Some?
    requires Next(s1, Send(topic, r.reqType, r.repType, addresses), s2)
    requires Next(s2, Response(k, rep, ok), s3) && Next(s3, Notify, s4) && Next(s4, Drop, s5)
    ensures s1.requests == s.requests[k := r] && s1.issued == s.issued[k := r]
    ensures exists i :: |s.wire| <= i < |s5.wire| && s5.wire[i].key == k && Some(s5.wire[i].data) == r.payload
    ensures s5.notices == s.notices + [Notice(k, rep, ok)]
    ensures s5.phase == Idle && s5.requests == s2.requests - {k} && k in s2.requests
  {
    NextKeepsInv(s, New(k, r), s1);
    RequestIsNew(s, k, r, s1);
    hide Inv, FirstIn, Next;
    RequestGoesOut(s1, k, r, topic, addresses, s2);
    ResponseIsHandled(s2, k, rep, ok, s3, s4, s5);
  }

  lemma RequestIsNew(s: State, k: Key, r: Request, s1: State)
    requires Next(s, New(k, r), s1)
    ensures s1 == s.(requests := s.requests[k := r], issued := s.issued[k := r]) && !r.requested
  {
  }

  /** A response that finds its request stored, notified and dropped. */
  lemma ResponseIsHandled(s: State, k: Key, rep: string, ok: bool, s1: State, s2: State, s3: State)
    requires k in s.requests && Next(s, Response(k, rep, ok), s1) && Next(s1, Notify, s2) && Next(s2, Drop, s3)
    ensures s3 == s.(requests := s.requests - {k}, notices := s.notices + [Notice(k, rep, ok)], phase := Idle)
  {
  }

  lemma RequestGoesOut(s: State, k: Key, r: Request, topic: string, addresses: seq<seq<Responder>>, s': State)
    requires Inv(s) && k.topic == topic && k in s.requests && s.requests[k] == r && k in s.issued && s.issued[k] == r
    requires !r.requested && r.payload.Some? && r.repType != EMPTY_TYPE
    requires FirstIn(addresses, r.reqType, r.repType).Some?
    requires Next(s, Send(topic, r.reqType, r.repType, addresses), s')
    ensures k in s'.requests && s'.notices == s.notices && s'.phase == s.phase && s'.issued == s.issued
    ensures forall i :: |s.wire| <= i < |s'.wire| && s'.wire[i].key == k ==> Some(s'.wire[i].data) == r.payload
    ensures exists i :: |s.wire| <= i < |s'.wire| && s'.wire[i].key == k
  {
    var to := FirstIn(addresses, r.reqType, r.repType).value;
    FirstInOffers(addresses, r.reqType, r.repType);
    assert exists pubs, t :: pubs in addresses && t in pubs && Offers(t, r.reqType, r.repType) by {
      var pubs :| pubs in addresses && to in pubs;
      assert Offers(to, r.reqType, r.repType);
    }
    assert Selected(s.requests, k, topic, r.reqType, r.repType);
    SendLeavesNothingPending(s, topic, r.reqType, r.repType, addresses, s', k);
    NextKeepsInv(s, Send(topic, r.reqType, r.repType, addresses), s');
    assert WireOk(s');
    hide Inv, FirstIn, Marked, Transmitted, Selected;
  }

  /** A cancelled request is not stored any more and never sent later, and its
      caller is notified only of a response that had found it before. */
  lemma {:induction false} CancelledIsOver(states: seq<State>, events: seq<Event>, i: nat, j: nat, k: Key)
    requires Run(states, events) && i < j < |states| && events[i] == Cancel(k) && k in states[i].issued
    ensures k !in states[j].requests && k in states[j].issued
    ensures forall n :: |states[i].wire| <= n < |states[j].wire| ==> states[j].wire[n].key != k
    ensures forall n :: 0 <= n < |states[j].notices| && states[j].notices[n].key == k ==>
              n < |states[i].notices| || (states[i].phase.Answering? && states[i].phase.key == k)
    ensures states[j].phase.Answering? && states[j].phase.key == k ==>
              states[i].phase.Answering? && states[i].phase.key == k
    ensures |states[i].notices| <= |states[j].notices|
    decreases j
  {
    var s, e, s' := states[j - 1], events[j - 1], states[j];
    assert Next(s, e, s') && Next(states[i], events[i], states[i + 1]);
    MarkedAfterCancel(states, events, i, j, k);
    if i + 1 < j {
      CancelledIsOver(states, events, i, j - 1, k);
      hide Transmitted, Run;
    }
  }

  lemma MarkedAfterCancel(states: seq<State>, events: seq<Event>, i: nat, j: nat, k: Key)
    requires Run(states, events) && i < j < |states| && events[i] == Cancel(k) && k in states[i].issued
    ensures forall n :: |states[i].wire| <= n < |states[j].wire| ==> states[j].wire[n].key != k
  {
    assert Next(states[i], events[i], states[i + 1]);
    MarkedIsNeverSentLater(states, events, i + 1, j, k);
  }

  /** Once a responder with the right types is known, nothing of that kind
      stays pending; a one-way request is gone if and only if its message
      could be serialised. */
  lemma SendLeavesNothingPending(s: State, topic: string, reqType: string, repType: string,
                                 addresses: seq<seq<Responder>>, s': State, k: Key)
    requires Inv(s) && Next(s, Send(topic, reqType, repType, addresses), s')
    requires Selected(s.requests, k, topic, reqType, repType)
    requires exists pubs, r :: pubs in addresses && r in pubs && Offers(r, reqType, repType)
    ensures k in s'.requests ==> s'.requests[k].requested
    ensures (exists i :: |s.wire| <= i < |s'.wire| && s'.wire[i].key == k) <==> s.requests[k].payload.Some?
    ensures k !in s'.requests <==> repType == EMPTY_TYPE && s.requests[k].payload.Some?
  {
    FirstInOffers(addresses, reqType, repType);
    hide WireOk, NoticesOk, Stored, FirstIn;
    var n := |s.wire|;
    var out := s'.wire[n..];
    if s.requests[k].payload.Some? {
      var i :| 0 <= i < |out| && out[i].key == k;
      assert s'.wire[n + i].key == k;
    }
    if i :| n <= i < |s'.wire| && s'.wire[i].key == k {
      assert out[i - n].key == k;
    }
  }

  /** And a request that was marked is never transmitted later, even when
      serialising it failed: it only leaves by a response or a cancellation. */
  lemma {:induction false} MarkedIsNeverSentLater(states: seq<State>, events: seq<Event>, i: nat, j: nat, k: Key)
    requires Run(states, events) && i <= j < |states|
    requires k in states[i].issued && (k in states[i].requests ==> states[i].requests[k].requested)
    ensures states[i].wire <= states[j].wire
    ensures forall n :: |states[i].wire| <= n < |states[j].wire| ==> states[j].wire[n].key != k
    ensures k in states[j].issued && (k in states[j].requests ==> states[j].requests[k].requested)
    decreases j
  {
    if i < j {
      MarkedIsNeverSentLater(states, events, i, j - 1, k);
      var s, s' := states[j - 1], states[j];
      assert Next(s, events[j - 1], s');
      if events[j - 1].Send? {
        forall n | |s.wire| <= n < |s'.wire|
          ensures s'.wire[n].key != k
        {
          assert s'.wire[n] == s'.wire[|s.wire|..][n - |s.wire|];
        }
      }
    }
  }
}
