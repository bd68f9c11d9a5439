// What process B knows about process A when A's messages reach B in order:
// before a full heartbeat cycle the fold of a suffix of A's history, after it
// exactly A's own publishers that B may see. A's user calls interleave with
// the one-by-one sends of its reception thread (src/Discovery.hh).
module DiscoveryAgreement {
  import opened Options
  import opened TopicStore
  import opened DiscoveryProtocol

  /** The two processes, and the address A's datagrams come from. */
  datatype Setup = Setup(a: Config, b: Config, ip: string)

  predicate Proper(s: Setup) {
    s.a.pUuid != s.b.pUuid && s.a.version == s.b.version
  }

  predicate VisibleToB(s: Setup, x: Pub) {
    !Hidden(x.scope, IsSenderLocal(s.b, s.ip))
  }

  /** `pending` is what A's reception thread still has to advertise; `hist` is
      every message of A so far, of which B reads from `joinAt` and has read
      up to `read`; `cycle` says that a heartbeat began after B joined. */
  datatype World = World(a: Disc, b: Disc, pending: seq<Pub>, hist: seq<Msg>,
                         joined: bool, joinAt: nat, read: nat, cycle: bool)

  datatype Step =
    | Advertise(pub: Pub)
    | Unadvertise(topic: string, nUuid: string)
    | Heartbeat(order: seq<Pub>)
    | AnswerSubscribe(topic: string, subscriberLocal: bool)
    | SendPending
    | ReceiveAtA(m: Msg, fromIp: string, now: int)
    | SweepAtA(now: int)
    | OtherMessage(typ: MsgType, pub: Pub)
    | Join(b: Disc)
    | Deliver(now: int)
    | ReceiveAtB(m: Msg, fromIp: string, now: int)
    | LocalAtB(e: Event)

  /** The multicasts of A among what it sends: no relays between A and B. */
  function Casts(s: Setup, out: seq<Outgoing>): seq<Msg> {
    if out == [] then []
    else
      var k := |out| - 1;
      Casts(s, out[..k]) + if out[k].Multicast? && out[k].msg.sender == s.a.pUuid then [out[k].msg] else []
  }

  ghost predicate Enabled(s: Setup, w: World, step: Step) {
    match step
    case Advertise(pub) => pub.pUuid == s.a.pUuid && pub.addr == s.a.address
    case Heartbeat(order) => w.pending == [] && Lists(order, w.a.info, s.a.pUuid)
    case AnswerSubscribe(_, _) => w.pending == []
    case SendPending => w.pending != []
    case ReceiveAtA(m, _, _) => w.pending == [] && Honest(m) && m.sender != s.a.pUuid && m.typ != SUBSCRIBE
    case SweepAtA(_) => w.pending == []
    case OtherMessage(typ, pub) => pub.pUuid == s.a.pUuid && typ !in {ADVERTISE, UNADVERTISE, BYE}
    case Join(b) => !w.joined && Tables(b) && forall x :: Has(b.info, x) ==> x.pUuid != s.a.pUuid
    case Deliver(_) => w.joined && w.read < |w.hist|
    case ReceiveAtB(m, _, _) => w.joined && Honest(m) && m.sender != s.a.pUuid
    case LocalAtB(e) => w.joined && (e.UserAdvertise? || e.UserUnadvertise?) && Legal(s.b, e)
    case _ => true
  }

  function Next(s: Setup, w: World, step: Step): World {
    match step
    case Advertise(pub) =>
      var (a, out) := Advertised(s.a, w.a, pub);
      w.(a := a, hist := w.hist + Casts(s, out))
    case Unadvertise(t, n) =>
      var (a, out) := Unadvertised(s.a, w.a, t, n);
      w.(a := a, hist := w.hist + Casts(s, out))
    case Heartbeat(order) =>
      w.(hist := w.hist + Casts(s, Sent(s.a, w.a.relays, HEARTBEAT, Self(s.a))), pending := order,
         cycle := w.cycle || w.joined)
    case AnswerSubscribe(t, subscriberLocal) =>
      w.(pending := VisibleOnly(ListAt(w.a.info, t, s.a.pUuid), subscriberLocal))
    case SendPending =>
      if w.pending == [] then w
      else w.(hist := w.hist + Casts(s, Sent(s.a, w.a.relays, ADVERTISE, w.pending[0])), pending := w.pending[1..])
    case ReceiveAtA(m, fromIp, now) =>
      var (a, out) := Dispatched(s.a, w.a, m, fromIp, now);
      w.(a := a, hist := w.hist + Casts(s, out))
    case SweepAtA(now) => w.(a := Swept(s.a, w.a, now))
    case OtherMessage(typ, pub) => w.(hist := w.hist + Casts(s, Sent(s.a, w.a.relays, typ, pub)))
    case Join(b) => w.(b := b, joined := true, joinAt := |w.hist|, read := |w.hist|)
    case Deliver(now) =>
      if w.read < |w.hist| then ReadOne(s, w, now) else w
    case ReceiveAtB(m, fromIp, now) => w.(b := Dispatched(s.b, w.b, m, fromIp, now).0)
    case LocalAtB(e) => w.(b := After(s.b, w.b, e))
  }

  /** B takes the next message of A. */
  function ReadOne(s: Setup, w: World, now: int): World
    requires w.read < |w.hist|
  {
    w.(b := Dispatched(s.b, w.b, w.hist[w.read], s.ip, now).0, read := w.read + 1)
  }

  // ---- B's knowledge of A as a set ----

  /** What one message of A does to the set of A's publishers known to B. */
  ghost function Effect(s: Setup, known: set<Pub>, m: Msg): set<Pub> {
    var x := Received(m);
    if m.typ == ADVERTISE then
      if !VisibleToB(s, x) || exists y :: y in known && SameEntry(y, x) then known else known + {x}
    else if m.typ == UNADVERTISE && VisibleToB(s, x) then
      set y | y in known && !(y.topic == x.topic && y.nUuid == x.nUuid)
    else known
  }

  ghost function Fold(s: Setup, msgs: seq<Msg>): set<Pub> {
    if msgs == [] then {} else Effect(s, Fold(s, msgs[..|msgs| - 1]), msgs[|msgs| - 1])
  }

  lemma FoldSnoc(s: Setup, msgs: seq<Msg>, m: Msg)
    ensures Fold(s, msgs + [m]) == Effect(s, Fold(s, msgs), m)
  {
    assert (msgs + [m])[..|msgs|] == msgs;
  }

  /** B's table, restricted to A, is this set. */
  ghost predicate Knows(s: Setup, b: Disc, known: set<Pub>) {
    forall x :: x in known <==> Has(b.info, x) && x.pUuid == s.a.pUuid
  }

  predicate FromA(s: Setup, m: Msg) {
    Honest(m) && m.sender == s.a.pUuid && m.version == s.a.version && m.flags == NoFlags && m.typ != BYE
  }

  lemma AddRefines(s: Setup, info: Store, known: set<Pub>, x: Pub)
    requires WellFormed(info) && x.pUuid == s.a.pUuid
    requires forall y :: y in known <==> Has(info, y) && y.pUuid == s.a.pUuid
    ensures WellFormed(Added(info, x))
    ensures forall y :: y in (if exists z :: z in known && SameEntry(z, x) then known else known + {x})
                   <==> Has(Added(info, x), y) && y.pUuid == s.a.pUuid
  {
    AddedHas(info, x);
    assert (exists z :: z in known && SameEntry(z, x)) <==> (exists z :: Has(info, z) && SameEntry(z, x));
  }

  /** B's dispatch of a message of A refines the effect on the set. */
  lemma DeliverRefines(s: Setup, b: Disc, known: set<Pub>, m: Msg, now: int)
    requires Proper(s) && Tables(b) && Knows(s, b, known) && FromA(s, m)
    ensures Tables(Dispatched(s.b, b, m, s.ip, now).0)
    ensures Knows(s, Dispatched(s.b, b, m, s.ip, now).0, Effect(s, known, m))
  {
    var b1 := b.(activity := b.activity[m.sender := now]);
    assert Dispatched(s.b, b, m, s.ip, now).0 == Handled(s.b, b1, m, IsSenderLocal(s.b, s.ip)).0;
    SwitchRefines(s, b1, known, m);
  }

  lemma RemoveRefines(s: Setup, info: Store, known: set<Pub>, x: Pub)
    requires WellFormed(info) && x.pUuid == s.a.pUuid
    requires forall y :: y in known <==> Has(info, y) && y.pUuid == s.a.pUuid
    ensures WellFormed(WithoutNode(info, x.topic, x.pUuid, x.nUuid))
    ensures forall y :: y in known && !(y.topic == x.topic && y.nUuid == x.nUuid)
                   <==> Has(WithoutNode(info, x.topic, x.pUuid, x.nUuid), y) && y.pUuid == s.a.pUuid
  {
    WithoutNodeHas(info, x.topic, x.pUuid, x.nUuid);
  }

  lemma SwitchRefines(s: Setup, b: Disc, known: set<Pub>, m: Msg)
    requires Proper(s) && Tables(b) && Knows(s, b, known) && FromA(s, m)
    ensures var b' := Handled(s.b, b, m, IsSenderLocal(s.b, s.ip)).0;
            Tables(b') && Knows(s, b', Effect(s, known, m))
  {
    hide WellFormed, HasEntry, Has, Added, WithoutNode, WithoutProc, SentAll, Registrations, VisibleOnly, Converted;
    var x := Received(m);
    if m.typ == ADVERTISE {
      AddRefines(s, b.info, known, x);
    } else if m.typ == UNADVERTISE {
      RemoveRefines(s, b.info, known, x);
    } else {
      QuietRefines(s, b, known, m);
    }
  }

  lemma QuietRefines(s: Setup, b: Disc, known: set<Pub>, m: Msg)
    requires Tables(b) && FromA(s, m) && m.typ != ADVERTISE && m.typ != UNADVERTISE
    ensures var b' := Handled(s.b, b, m, IsSenderLocal(s.b, s.ip)).0;
            Tables(b') && b'.info == b.info
  {
    var x := Received(m);
    AddedHas(b.remoteSubscribers, x);
    WithoutNodeHas(b.remoteSubscribers, x.topic, x.pUuid, x.nUuid);
  }

  /** Nobody else's message touches what B knows of A. */
  lemma OthersLeaveKnown(s: Setup, b: Disc, known: set<Pub>, m: Msg, fromIp: string, now: int)
    requires Proper(s) && Tables(b) && Knows(s, b, known) && Honest(m) && m.sender != s.a.pUuid
    ensures Tables(Dispatched(s.b, b, m, fromIp, now).0)
    ensures Knows(s, Dispatched(s.b, b, m, fromIp, now).0, known)
  {
    if !Ignored(s.b, m) && !IsRelayed(m) {
      var x := Received(m);
      match m.typ
      case ADVERTISE => AddedHas(b.info, x);
      case UNADVERTISE => WithoutNodeHas(b.info, x.topic, x.pUuid, x.nUuid);
      case SUBSCRIBERS_REP => AddedHas(b.remoteSubscribers, x);
      case END_CONNECTION => WithoutNodeHas(b.remoteSubscribers, x.topic, x.pUuid, x.nUuid);
      case BYE =>
        WithoutProcHas(b.info, m.sender);
        WithoutProcHas(b.remoteSubscribers, m.sender);
      case _ =>
    }
  }

  // ---- Invariants ----

  /** The publishers of A in A's own table. */
  ghost function OwnSet(s: Setup, a: Disc): set<Pub> {
    set t, x | t in a.info && x in ListAt(a.info, t, s.a.pUuid) :: x
  }

  lemma OwnSetIs(s: Setup, a: Disc)
    requires Tables(a)
    ensures forall x :: x in OwnSet(s, a) <==> Has(a.info, x) && x.pUuid == s.a.pUuid
  {
    forall x | x in OwnSet(s, a)
      ensures Has(a.info, x) && x.pUuid == s.a.pUuid
    {
      var t :| t in a.info && x in ListAt(a.info, t, s.a.pUuid);
      ListIsGood(a.info, t, s.a.pUuid);
    }
    forall x | Has(a.info, x) && x.pUuid == s.a.pUuid
      ensures x in OwnSet(s, a)
    {
      assert x.topic in a.info;
    }
  }

  /** B's knowledge once it has read everything sent so far. */
  ghost function Eventually(s: Setup, w: World): set<Pub>
    requires w.joinAt <= |w.hist|
  {
    Fold(s, w.hist[w.joinAt..])
  }

  /** Publishers of one process: one address, so one per topic and node. */
  ghost predicate OneAddress(s: Setup, own: set<Pub>) {
    && (forall x :: x in own ==> x.pUuid == s.a.pUuid && x.addr == s.a.address)
    && (forall x, y :: x in own && y in own && x.topic == y.topic && x.nUuid == y.nUuid ==> x == y)
  }

  ghost predicate GoodA(s: Setup, a: Disc) {
    Tables(a) && s.a.pUuid !in a.activity && OneAddress(s, OwnSet(s, a))
  }

  ghost predicate GoodHistory(s: Setup, hist: seq<Msg>) {
    forall i :: 0 <= i < |hist| ==> FromA(s, hist[i])
  }

  ghost predicate GoodB(s: Setup, b: Disc, seen: seq<Msg>) {
    Tables(b) && Knows(s, b, Fold(s, seen))
  }

  ghost predicate Inv(s: Setup, w: World) {
    && Proper(s)
    && GoodA(s, w.a)
    && GoodHistory(s, w.hist)
    && w.joinAt <= w.read <= |w.hist|
    && (w.cycle ==> w.joined)
    && (w.joined ==> GoodB(s, w.b, w.hist[w.joinAt..w.read]))
  }

  /** As long as no publisher is unadvertised while the reception thread still
      has it on its list: B never keeps what A no longer has, and after a
      heartbeat has begun everything of A is known or still on the list. */
  ghost predicate TightSets(s: Setup, own: set<Pub>, known: set<Pub>, pending: seq<Pub>, joined: bool, cycle: bool) {
    && (forall x :: x in pending ==> x in own)
    && (joined ==> forall x :: x in known ==> x in own && VisibleToB(s, x))
    && (cycle ==> forall x :: x in own && VisibleToB(s, x) ==> x in known || x in pending)
  }

  ghost predicate Tight(s: Setup, w: World)
    requires w.joinAt <= |w.hist|
  {
    TightSets(s, OwnSet(s, w.a), Eventually(s, w), w.pending, w.joined, w.cycle)
  }

  predicate OnList(pending: seq<Pub>, t: string, n: string) {
    exists i :: 0 <= i < |pending| && pending[i].topic == t && pending[i].nUuid == n
  }

  /** The condition a caller can check before Unadvertise. */
  predicate Guarded(w: World, step: Step) {
    step.Unadvertise? ==> !OnList(w.pending, step.topic, step.nUuid)
  }

  lemma {:induction false} CastsAdd(s: Setup, u: seq<Outgoing>, v: seq<Outgoing>)
    ensures Casts(s, u + v) == Casts(s, u) + Casts(s, v)
  {
    if v == [] {
      assert u + v == u;
    } else {
      var k := |v| - 1;
      assert (u + v)[..|u| + k] == u + v[..k];
      CastsAdd(s, u, v[..k]);
    }
  }

  lemma {:induction false} NoCasts(s: Setup, out: seq<Outgoing>)
    requires forall i :: 0 <= i < |out| ==> out[i].Unicast? || out[i].msg.sender != s.a.pUuid
    ensures Casts(s, out) == []
  {
    if out != [] {
      NoCasts(s, out[..|out| - 1]);
    }
  }

  lemma CastsOfSent(s: Setup, relays: seq<string>, typ: MsgType, pub: Pub)
    ensures Casts(s, Sent(s.a, relays, typ, pub)) == [Built(s.a, typ, pub)]
  {
    var m := Built(s.a, typ, pub);
    CastsAdd(s, [Multicast(m)], ToRelays(relays, WithRelayFlag(m)));
    NoCasts(s, ToRelays(relays, WithRelayFlag(m)));
    assert [Multicast(m)][..0] == [];
    assert Casts(s, [Multicast(m)]) == [m];
  }

  /** A batch of messages that say nothing about publishers. */
  lemma {:induction false} CastsOfSentAll(s: Setup, relays: seq<string>, typ: MsgType, pubs: seq<Pub>)
    requires forall i :: 0 <= i < |pubs| ==> pubs[i].pUuid == s.a.pUuid
    ensures var ms := Casts(s, SentAll(s.a, relays, typ, pubs));
            |ms| == |pubs| && forall i :: 0 <= i < |ms| ==> ms[i] == Built(s.a, typ, pubs[i])
  {
    hide Sent, Built;
    if pubs != [] {
      var k := |pubs| - 1;
      CastsOfSentAll(s, relays, typ, pubs[..k]);
      CastsAdd(s, SentAll(s.a, relays, typ, pubs[..k]), Sent(s.a, relays, typ, pubs[k]));
      CastsOfSent(s, relays, typ, pubs[k]);
      assert Casts(s, SentAll(s.a, relays, typ, pubs))
          == Casts(s, SentAll(s.a, relays, typ, pubs[..k])) + [Built(s.a, typ, pubs[k])];
    }
  }

  predicate Quiet(m: Msg) {
    m.typ != ADVERTISE && m.typ != UNADVERTISE
  }

  lemma {:induction false} QuietLeavesFold(s: Setup, msgs: seq<Msg>, more: seq<Msg>)
    requires forall i :: 0 <= i < |more| ==> Quiet(more[i])
    ensures Fold(s, msgs + more) == Fold(s, msgs)
  {
    if more == [] {
      assert msgs + more == msgs;
    } else {
      var k := |more| - 1;
      QuietLeavesFold(s, msgs, more[..k]);
      assert msgs + more == (msgs + more[..k]) + [more[k]];
      FoldSnoc(s, msgs + more[..k], more[k]);
    }
  }

  /** Appending messages of A to the history keeps the basic invariant. */
  lemma AppendKeepsInv(s: Setup, w: World, a: Disc, more: seq<Msg>, pending: seq<Pub>, cycle: bool)
    requires Inv(s, w) && GoodA(s, a) && GoodHistory(s, more) && (cycle ==> w.joined)
    ensures Inv(s, w.(a := a, hist := w.hist + more, pending := pending, cycle := cycle))
    ensures (w.hist + more)[w.joinAt..] == w.hist[w.joinAt..] + more
  {
    assert (w.hist + more)[w.joinAt..w.read] == w.hist[w.joinAt..w.read];
  }

  /** Tables with the same own publishers are equally good. */
  lemma SameOwn(s: Setup, a: Disc, a': Disc)
    requires GoodA(s, a) && Tables(a') && s.a.pUuid !in a'.activity
    requires forall x: Pub :: x.pUuid == s.a.pUuid ==> (Has(a'.info, x) <==> Has(a.info, x))
    ensures GoodA(s, a') && OwnSet(s, a') == OwnSet(s, a)
  {
    OwnSetIs(s, a);
    OwnSetIs(s, a');
    assert OwnSet(s, a') == OwnSet(s, a);
  }

  ghost predicate AllQuiet(s: Setup, msgs: seq<Msg>) {
    GoodHistory(s, msgs) && forall i :: 0 <= i < |msgs| ==> Quiet(msgs[i])
  }

  /** A message of another process changes nothing of A's own and makes A
      broadcast nothing about publishers. */
  lemma ReceiveAtAKeepsOwn(s: Setup, a: Disc, m: Msg, fromIp: string, now: int)
    requires Proper(s) && GoodA(s, a) && Honest(m) && m.sender != s.a.pUuid && m.typ != SUBSCRIBE
    ensures var (a', out) := Dispatched(s.a, a, m, fromIp, now);
            GoodA(s, a') && OwnSet(s, a') == OwnSet(s, a) && AllQuiet(s, Casts(s, out))
  {
    hide WellFormed, Handled, OwnSet, Has, WithRelay;
    if !Ignored(s.a, m) {
      if IsRelayed(m) {
        NoCasts(s, Dispatched(s.a, a, m, fromIp, now).1);
        SameOwn(s, a, Dispatched(s.a, a, m, fromIp, now).0);
      } else {
        var d1 := a.(activity := a.activity[m.sender := now]);
        SwitchAtA(s, d1, m, IsSenderLocal(s.a, fromIp));
        SameOwn(s, a, Handled(s.a, d1, m, IsSenderLocal(s.a, fromIp)).0);
        var forwarded := if IsFinal(m) then [] else ToRelays(a.relays, WithRelayFlag(m));
        NoCasts(s, forwarded);
        CastsAdd(s, forwarded, Handled(s.a, d1, m, IsSenderLocal(s.a, fromIp)).1);
      }
    }
  }

  lemma SwitchAtA(s: Setup, d: Disc, m: Msg, local: bool)
    requires Proper(s) && Tables(d) && Honest(m) && m.sender != s.a.pUuid && m.typ != SUBSCRIBE
    requires s.a.pUuid !in d.activity
    ensures var (d', out) := Handled(s.a, d, m, local);
            && Tables(d') && s.a.pUuid !in d'.activity
            && (forall x: Pub :: x.pUuid == s.a.pUuid ==> (Has(d'.info, x) <==> Has(d.info, x)))
            && AllQuiet(s, Casts(s, out))
  {
    if m.typ == ADVERTISE {
      AdvertiseAtA(s, d, m, local);
      AnswersAreQuiet(s, d, m, local);
    } else if m.typ == UNADVERTISE || m.typ == SUBSCRIBERS_REQ {
      WithoutNodeHas(d.info, Received(m).topic, Received(m).pUuid, Received(m).nUuid);
      AnswersAreQuiet(s, d, m, local);
    } else {
      QuietSwitchAtA(s, d, m, local);
    }
  }

  lemma AdvertiseAtA(s: Setup, d: Disc, m: Msg, local: bool)
    requires Tables(d) && Honest(m) && m.sender != s.a.pUuid && m.typ == ADVERTISE
    ensures var (d', out) := Handled(s.a, d, m, local);
            && Tables(d') && d'.activity == d.activity
            && (forall x: Pub :: x.pUuid == s.a.pUuid ==> (Has(d'.info, x) <==> Has(d.info, x)))
  {
    AddedHas(d.info, Received(m));
  }

  lemma BatchIsQuiet(s: Setup, relays: seq<string>, typ: MsgType, pubs: seq<Pub>)
    requires typ == NEW_CONNECTION || typ == SUBSCRIBERS_REP
    requires forall i :: 0 <= i < |pubs| ==> pubs[i].pUuid == s.a.pUuid
    ensures AllQuiet(s, Casts(s, SentAll(s.a, relays, typ, pubs)))
  {
    CastsOfSentAll(s, relays, typ, pubs);
  }

  lemma AnswersAreQuiet(s: Setup, d: Disc, m: Msg, local: bool)
    requires m.typ == ADVERTISE || m.typ == UNADVERTISE || m.typ == SUBSCRIBERS_REQ
    ensures AllQuiet(s, Casts(s, Handled(s.a, d, m, local).1))
  {
    hide SentAll;
    if m.typ == ADVERTISE {
      BatchIsQuiet(s, d.relays, NEW_CONNECTION, Registrations(s.a, d.handlers, Received(m)));
    } else if m.typ == SUBSCRIBERS_REQ {
      BatchIsQuiet(s, d.relays, SUBSCRIBERS_REP, Converted(s.a, d.handlers));
    }
  }

  lemma QuietSwitchAtA(s: Setup, d: Disc, m: Msg, local: bool)
    requires Tables(d) && Honest(m) && m.sender != s.a.pUuid && s.a.pUuid !in d.activity
    requires m.typ !in {ADVERTISE, UNADVERTISE, SUBSCRIBE, SUBSCRIBERS_REQ}
    ensures var (d', out) := Handled(s.a, d, m, local);
            && Tables(d') && s.a.pUuid !in d'.activity
            && (forall x: Pub :: x.pUuid == s.a.pUuid ==> (Has(d'.info, x) <==> Has(d.info, x)))
            && out == []
  {
    var x := Received(m);
    match m.typ
    case SUBSCRIBERS_REP => AddedHas(d.remoteSubscribers, x);
    case END_CONNECTION => WithoutNodeHas(d.remoteSubscribers, x.topic, x.pUuid, x.nUuid);
    case BYE =>
      WithoutProcHas(d.info, m.sender);
      WithoutProcHas(d.remoteSubscribers, m.sender);
    case _ =>
  }

  // ---- Effects on the sets ----

  lemma AdvertiseOwn(s: Setup, a: Disc, pub: Pub)
    requires GoodA(s, a) && pub.pUuid == s.a.pUuid && pub.addr == s.a.address
    requires !HasEntry(ListAt(a.info, pub.topic, pub.pUuid), pub)
    ensures var a' := a.(info := Added(a.info, pub));
            GoodA(s, a') && OwnSet(s, a') == OwnSet(s, a) + {pub}
  {
    var a' := a.(info := Added(a.info, pub));
    AddedHas(a.info, pub);
    EntryIff(a.info, pub);
    OwnSetIs(s, a);
    OwnSetIs(s, a');
    assert OwnSet(s, a') == OwnSet(s, a) + {pub};
    assert forall x :: x in OwnSet(s, a) ==> !SameEntry(x, pub);
  }

  ghost function Without(own: set<Pub>, t: string, n: string): set<Pub> {
    set x | x in own && !(x.topic == t && x.nUuid == n)
  }

  lemma UnadvertiseOwn(s: Setup, a: Disc, t: string, n: string)
    requires GoodA(s, a)
    ensures var a' := a.(info := WithoutNode(a.info, t, s.a.pUuid, n));
            GoodA(s, a') && OwnSet(s, a') == Without(OwnSet(s, a), t, n)
  {
    hide WellFormed, WithoutNode, Has;
    var a' := a.(info := WithoutNode(a.info, t, s.a.pUuid, n));
    WithoutNodeHas(a.info, t, s.a.pUuid, n);
    OwnSetIs(s, a);
    OwnSetIs(s, a');
    assert OwnSet(s, a') == Without(OwnSet(s, a), t, n);
  }

  lemma FirstOwn(s: Setup, a: Disc, t: string, n: string)
    requires GoodA(s, a)
    ensures var first := FirstOfNode(ListAt(a.info, t, s.a.pUuid), n);
            if first.Some? then first.value in OwnSet(s, a) && first.value.topic == t && first.value.nUuid == n
            else forall x :: x in OwnSet(s, a) ==> !(x.topic == t && x.nUuid == n)
  {
    OwnSetIs(s, a);
    ListIsGood(a.info, t, s.a.pUuid);
    assert forall x :: x in OwnSet(s, a) && x.topic == t ==> x in ListAt(a.info, t, s.a.pUuid);
  }

  /** Advertising one of the own publishers, new or not. */
  lemma TightAdd(s: Setup, own: set<Pub>, known: set<Pub>, pending: seq<Pub>, joined: bool, cycle: bool, x: Pub)
    requires OneAddress(s, own + {x}) && TightSets(s, own, known, pending, joined, cycle) && (cycle ==> joined)
    ensures TightSets(s, own + {x}, Effect(s, known, Built(s.a, ADVERTISE, x)), pending, joined, cycle)
    ensures !VisibleToB(s, x) ==> TightSets(s, own + {x}, known, pending, joined, cycle)
  {
    forall y | joined && y in known && SameEntry(y, x)
      ensures y == x
    {
    }
  }

  lemma TightSend(s: Setup, own: set<Pub>, known: set<Pub>, pending: seq<Pub>, joined: bool, cycle: bool)
    requires OneAddress(s, own) && TightSets(s, own, known, pending, joined, cycle)
    requires pending != [] && (cycle ==> joined)
    ensures TightSets(s, own, Effect(s, known, Built(s.a, ADVERTISE, pending[0])), pending[1..], joined, cycle)
  {
    var x := pending[0];
    assert x in own && own + {x} == own;
    TightAdd(s, own, known, pending, joined, cycle, x);
    assert pending == [x] + pending[1..];
    forall y | joined && y in known && SameEntry(y, x)
      ensures y == x
    {
    }
  }

  /** Unadvertising: B forgets exactly what A removed, when what B knows is
      A's and A has one publisher per topic and node. */
  lemma TightRemove(s: Setup, own: set<Pub>, known: set<Pub>, pub: Pub)
    requires OneAddress(s, own) && pub in own && forall x :: x in known ==> x in own && VisibleToB(s, x)
    ensures (if pub.scope != PROCESS then Effect(s, known, Built(s.a, UNADVERTISE, pub)) else known)
         == Without(known, pub.topic, pub.nUuid)
  {
    if !VisibleToB(s, pub) {
      assert Without(known, pub.topic, pub.nUuid) == known;
    }
  }

  // ---- Steps ----

  lemma AdvertiseStep(s: Setup, w: World, pub: Pub)
    requires Inv(s, w) && Enabled(s, w, Advertise(pub))
    ensures var w' := Next(s, w, Advertise(pub)); Inv(s, w') && (Tight(s, w) ==> Tight(s, w'))
  {
    if HasEntry(ListAt(w.a.info, pub.topic, pub.pUuid), pub) {
      assert w.hist + [] == w.hist;
    } else {
      NewPublisherStep(s, w, pub);
      var out := if pub.scope != PROCESS then Sent(s.a, w.a.relays, ADVERTISE, pub) else [];
      assert Registrations(s.a, w.a.handlers, pub) == [];
      assert Advertised(s.a, w.a, pub).1 == [] + out == out;
      CastsOfSent(s, w.a.relays, ADVERTISE, pub);
    }
  }

  lemma NewPublisherKeepsInv(s: Setup, w: World, pub: Pub)
    requires Inv(s, w) && Enabled(s, w, Advertise(pub))
    requires !HasEntry(ListAt(w.a.info, pub.topic, pub.pUuid), pub)
    ensures var more := if pub.scope != PROCESS then [Built(s.a, ADVERTISE, pub)] else [];
            Inv(s, w.(a := w.a.(info := Added(w.a.info, pub)), hist := w.hist + more))
  {
    var more := if pub.scope != PROCESS then [Built(s.a, ADVERTISE, pub)] else [];
    AdvertiseOwn(s, w.a, pub);
    AppendKeepsInv(s, w, w.a.(info := Added(w.a.info, pub)), more, w.pending, w.cycle);
  }

  lemma AppendSlice(h: seq<Msg>, k: nat, more: seq<Msg>)
    requires k <= |h|
    ensures (h + more)[k..] == h[k..] + more
    ensures more == [] ==> h[k..] + more == h[k..]
  {
  }

  /** What B will know once it has read one more advertisement, if any. */
  lemma NewPublisherKnown(s: Setup, hist: seq<Msg>, joinAt: nat, pub: Pub)
    requires joinAt <= |hist|
    ensures var more := if pub.scope != PROCESS then [Built(s.a, ADVERTISE, pub)] else [];
            var known := Fold(s, hist[joinAt..]);
            Fold(s, (hist + more)[joinAt..])
              == if pub.scope != PROCESS then Effect(s, known, Built(s.a, ADVERTISE, pub)) else known
  {
    hide Fold, Effect, Built;
    AppendSlice(hist, joinAt, if pub.scope != PROCESS then [Built(s.a, ADVERTISE, pub)] else []);
    FoldSnoc(s, hist[joinAt..], Built(s.a, ADVERTISE, pub));
  }

  lemma NewPublisherKeepsTight(s: Setup, w: World, pub: Pub)
    requires Inv(s, w) && Enabled(s, w, Advertise(pub)) && Tight(s, w)
    requires !HasEntry(ListAt(w.a.info, pub.topic, pub.pUuid), pub)
    ensures var more := if pub.scope != PROCESS then [Built(s.a, ADVERTISE, pub)] else [];
            Tight(s, w.(a := w.a.(info := Added(w.a.info, pub)), hist := w.hist + more))
  {
    assert !VisibleToB(s, pub) || pub.scope != PROCESS;
    hide Tables, OneAddress, OwnSet, TightSets, Fold, Effect, ListAt, HasEntry, Added, Built, VisibleToB, GoodB;
    AdvertiseOwn(s, w.a, pub);
    NewPublisherKnown(s, w.hist, w.joinAt, pub);
    TightAdd(s, OwnSet(s, w.a), Eventually(s, w), w.pending, w.joined, w.cycle, pub);
  }

  lemma NewPublisherStep(s: Setup, w: World, pub: Pub)
    requires Inv(s, w) && Enabled(s, w, Advertise(pub))
    requires !HasEntry(ListAt(w.a.info, pub.topic, pub.pUuid), pub)
    ensures var more := if pub.scope != PROCESS then [Built(s.a, ADVERTISE, pub)] else [];
            var w' := w.(a := w.a.(info := Added(w.a.info, pub)), hist := w.hist + more);
            Inv(s, w') && (Tight(s, w) ==> Tight(s, w'))
  {
    NewPublisherKeepsInv(s, w, pub);
    assert w.joinAt <= |w.hist|;
    hide Inv, HasEntry, ListAt, Added, Built, TightSets, OwnSet, Fold;
    if Tight(s, w) {
      NewPublisherKeepsTight(s, w, pub);
    }
  }

  lemma UnadvertiseStep(s: Setup, w: World, t: string, n: string)
    requires Inv(s, w)
    ensures var w' := Next(s, w, Unadvertise(t, n));
            && Inv(s, w')
            && w'.pending == w.pending && w'.joined == w.joined && w'.cycle == w.cycle && w'.joinAt == w.joinAt
            && OwnSet(s, w'.a) == Without(OwnSet(s, w.a), t, n)
            && (Tight(s, w) && w.joined ==> Eventually(s, w') == Without(Eventually(s, w), t, n))
  {
    FirstOwn(s, w.a, t, n);
    match FirstOfNode(ListAt(w.a.info, t, s.a.pUuid), n)
    case None =>
      assert w.hist + [] == w.hist;
      assert Without(OwnSet(s, w.a), t, n) == OwnSet(s, w.a);
      if Tight(s, w) && w.joined {
        assert Without(Eventually(s, w), t, n) == Eventually(s, w);
      }
    case Some(pub) =>
      CastsOfSent(s, w.a.relays, UNADVERTISE, pub);
      RemovedPublisherStep(s, w, pub);
  }

  lemma RemovedPublisherStep(s: Setup, w: World, pub: Pub)
    requires Inv(s, w) && pub in OwnSet(s, w.a)
    ensures var more := if pub.scope != PROCESS then [Built(s.a, UNADVERTISE, pub)] else [];
            var w' := w.(a := w.a.(info := WithoutNode(w.a.info, pub.topic, s.a.pUuid, pub.nUuid)),
                         hist := w.hist + more);
            && Inv(s, w')
            && OwnSet(s, w'.a) == Without(OwnSet(s, w.a), pub.topic, pub.nUuid)
            && (Tight(s, w) && w.joined ==> Eventually(s, w') == Without(Eventually(s, w), pub.topic, pub.nUuid))
  {
    var more := if pub.scope != PROCESS then [Built(s.a, UNADVERTISE, pub)] else [];
    hide Fold, Effect, WithoutNode;
    UnadvertiseOwn(s, w.a, pub.topic, pub.nUuid);
    AppendKeepsInv(s, w, w.a.(info := WithoutNode(w.a.info, pub.topic, s.a.pUuid, pub.nUuid)), more,
                   w.pending, w.cycle);
    FoldSnoc(s, w.hist[w.joinAt..], Built(s.a, UNADVERTISE, pub));
    assert w.hist[w.joinAt..] + [] == w.hist[w.joinAt..];
    if Tight(s, w) && w.joined {
      TightRemove(s, OwnSet(s, w.a), Eventually(s, w), pub);
    }
  }

  lemma GuardedUnadvertiseStep(s: Setup, w: World, t: string, n: string)
    requires Inv(s, w) && Tight(s, w) && !OnList(w.pending, t, n)
    ensures Tight(s, Next(s, w, Unadvertise(t, n)))
  {
    UnadvertiseStep(s, w, t, n);
  }

  lemma SendStep(s: Setup, w: World)
    requires Inv(s, w) && w.pending != [] && w.pending[0].pUuid == s.a.pUuid
    ensures var w' := Next(s, w, SendPending);
            && Inv(s, w')
            && Eventually(s, w') == Effect(s, Eventually(s, w), Built(s.a, ADVERTISE, w.pending[0]))
            && w'.a == w.a && w'.pending == w.pending[1..] && w'.joined == w.joined && w'.cycle == w.cycle
  {
    var x := w.pending[0];
    CastsOfSent(s, w.a.relays, ADVERTISE, x);
    AppendKeepsInv(s, w, w.a, [Built(s.a, ADVERTISE, x)], w.pending[1..], w.cycle);
    FoldSnoc(s, w.hist[w.joinAt..], Built(s.a, ADVERTISE, x));
  }

  lemma TightSendStep(s: Setup, w: World)
    requires Inv(s, w) && w.pending != [] && Tight(s, w)
    ensures Inv(s, Next(s, w, SendPending)) && Tight(s, Next(s, w, SendPending))
  {
    assert w.pending[0] in OwnSet(s, w.a);
    SendStep(s, w);
    TightSend(s, OwnSet(s, w.a), Eventually(s, w), w.pending, w.joined, w.cycle);
  }

  lemma HeartbeatStep(s: Setup, w: World, order: seq<Pub>)
    requires Inv(s, w) && Enabled(s, w, Heartbeat(order))
    ensures var w' := Next(s, w, Heartbeat(order)); Inv(s, w') && (Tight(s, w) ==> Tight(s, w'))
  {
    CastsOfSent(s, w.a.relays, HEARTBEAT, Self(s.a));
    AppendKeepsInv(s, w, w.a, [Built(s.a, HEARTBEAT, Self(s.a))], order, w.cycle || w.joined);
    FoldSnoc(s, w.hist[w.joinAt..], Built(s.a, HEARTBEAT, Self(s.a)));
    OwnSetIs(s, w.a);
  }

  lemma QuietStep(s: Setup, w: World, a: Disc, more: seq<Msg>)
    requires Inv(s, w) && GoodA(s, a) && OwnSet(s, a) == OwnSet(s, w.a) && AllQuiet(s, more)
    ensures var w' := w.(a := a, hist := w.hist + more); Inv(s, w') && (Tight(s, w) ==> Tight(s, w'))
  {
    AppendKeepsInv(s, w, a, more, w.pending, w.cycle);
    QuietLeavesFold(s, w.hist[w.joinAt..], more);
  }

  lemma AnswerStep(s: Setup, w: World, t: string, subscriberLocal: bool)
    requires Inv(s, w) && w.pending == []
    ensures var w' := Next(s, w, AnswerSubscribe(t, subscriberLocal)); Inv(s, w') && (Tight(s, w) ==> Tight(s, w'))
  {
    hide Fold, Effect, Knows, OneAddress, WellFormed;
    var w' := Next(s, w, AnswerSubscribe(t, subscriberLocal));
    VisibleOnlyIs(ListAt(w.a.info, t, s.a.pUuid), subscriberLocal);
    forall x | x in w'.pending
      ensures x in OwnSet(s, w.a)
    {
      assert t in w.a.info;
    }
    assert Eventually(s, w') == Eventually(s, w);
  }

  lemma SweepStep(s: Setup, w: World, now: int)
    requires Inv(s, w)
    ensures var w' := Next(s, w, SweepAtA(now)); Inv(s, w') && (Tight(s, w) ==> Tight(s, w'))
  {
    var gone := ExpiredProcs(s.a, w.a.activity, now);
    WithoutProcsHas(w.a.info, gone);
    WithoutProcsHas(w.a.remoteSubscribers, gone);
    SameOwn(s, w.a, Swept(s.a, w.a, now));
    assert w.hist + [] == w.hist;
    QuietStep(s, w, Swept(s.a, w.a, now), []);
  }

  lemma ReceiveStep(s: Setup, w: World, m: Msg, fromIp: string, now: int)
    requires Inv(s, w) && Enabled(s, w, ReceiveAtA(m, fromIp, now))
    ensures var w' := Next(s, w, ReceiveAtA(m, fromIp, now)); Inv(s, w') && (Tight(s, w) ==> Tight(s, w'))
  {
    ReceiveAtAKeepsOwn(s, w.a, m, fromIp, now);
    var (a, out) := Dispatched(s.a, w.a, m, fromIp, now);
    QuietStep(s, w, a, Casts(s, out));
  }

  lemma OtherStep(s: Setup, w: World, typ: MsgType, pub: Pub)
    requires Inv(s, w) && Enabled(s, w, OtherMessage(typ, pub))
    ensures var w' := Next(s, w, OtherMessage(typ, pub)); Inv(s, w') && (Tight(s, w) ==> Tight(s, w'))
  {
    CastsOfSent(s, w.a.relays, typ, pub);
    QuietStep(s, w, w.a, [Built(s.a, typ, pub)]);
  }

  lemma JoinStep(s: Setup, w: World, b: Disc)
    requires Inv(s, w) && Enabled(s, w, Join(b))
    ensures var w' := Next(s, w, Join(b)); Inv(s, w') && (Tight(s, w) ==> Tight(s, w'))
  {
    assert w.hist[|w.hist|..|w.hist|] == [] && w.hist[|w.hist|..] == [];
  }

  lemma DeliverStep(s: Setup, w: World, now: int)
    requires Inv(s, w) && w.joined && w.read < |w.hist|
    ensures var w' := ReadOne(s, w, now); Inv(s, w') && (Tight(s, w) ==> Tight(s, w'))
  {
    hide Inv, Tight, GoodB, Dispatched;
    ReadOneGood(s, w, now);
    AdvanceB(s, w, ReadOne(s, w, now).b);
  }

  lemma ReadOneGood(s: Setup, w: World, now: int)
    requires Inv(s, w) && w.joined && w.read < |w.hist|
    ensures GoodB(s, ReadOne(s, w, now).b, w.hist[w.joinAt..w.read + 1])
  {
    var seen := w.hist[w.joinAt..w.read];
    SeesOneMore(s, w.b, seen, w.hist[w.read], now);
    assert w.hist[w.joinAt..w.read + 1] == seen + [w.hist[w.read]];
  }

  lemma AdvanceB(s: Setup, w: World, b: Disc)
    requires Inv(s, w) && w.joined && w.read < |w.hist| && GoodB(s, b, w.hist[w.joinAt..w.read + 1])
    ensures var w' := w.(b := b, read := w.read + 1); Inv(s, w') && (Tight(s, w) ==> Tight(s, w'))
  {
  }

  lemma SeesOneMore(s: Setup, b: Disc, seen: seq<Msg>, m: Msg, now: int)
    requires Proper(s) && GoodB(s, b, seen) && FromA(s, m)
    ensures GoodB(s, Dispatched(s.b, b, m, s.ip, now).0, seen + [m])
  {
    DeliverRefines(s, b, Fold(s, seen), m, now);
    FoldSnoc(s, seen, m);
  }

  lemma AtBStep(s: Setup, w: World, m: Msg, fromIp: string, now: int)
    requires Inv(s, w) && Enabled(s, w, ReceiveAtB(m, fromIp, now))
    ensures var w' := Next(s, w, ReceiveAtB(m, fromIp, now)); Inv(s, w') && (Tight(s, w) ==> Tight(s, w'))
  {
    OthersLeaveKnown(s, w.b, Fold(s, w.hist[w.joinAt..w.read]), m, fromIp, now);
  }

  lemma LocalAtBStep(s: Setup, w: World, e: Event)
    requires Inv(s, w) && Enabled(s, w, LocalAtB(e))
    ensures var w' := Next(s, w, LocalAtB(e)); Inv(s, w') && (Tight(s, w) ==> Tight(s, w'))
  {
    match e
    case UserAdvertise(pub) => AddedHas(w.b.info, pub);
    case UserUnadvertise(t, n) => WithoutNodeHas(w.b.info, t, s.b.pUuid, n);
  }

  predicate AtB(step: Step) {
    step.Deliver? || step.ReceiveAtB? || step.LocalAtB?
  }

  lemma StepAtB(s: Setup, w: World, step: Step)
    requires Inv(s, w) && Enabled(s, w, step) && AtB(step)
    ensures var w' := Next(s, w, step); Inv(s, w') && (Tight(s, w) ==> Tight(s, w'))
  {
    if step.Deliver? {
      DeliverStep(s, w, step.now);
      assert Next(s, w, step) == ReadOne(s, w, step.now);
    } else if step.ReceiveAtB? {
      AtBStep(s, w, step.m, step.fromIp, step.now);
      assert step == ReceiveAtB(step.m, step.fromIp, step.now);
    } else {
      LocalAtBStep(s, w, step.e);
      assert step == LocalAtB(step.e);
    }
  }

  lemma StepAtA(s: Setup, w: World, step: Step)
    requires Inv(s, w) && Tight(s, w) && Enabled(s, w, step) && Guarded(w, step) && !AtB(step)
    ensures Inv(s, Next(s, w, step)) && Tight(s, Next(s, w, step))
  {
    match step
    case Advertise(pub) => AdvertiseStep(s, w, pub);
    case Unadvertise(t, n) => UnadvertiseStep(s, w, t, n); GuardedUnadvertiseStep(s, w, t, n);
    case Heartbeat(order) => HeartbeatStep(s, w, order);
    case AnswerSubscribe(t, local) => AnswerStep(s, w, t, local);
    case SendPending => TightSendStep(s, w);
    case ReceiveAtA(m, fromIp, now) => ReceiveStep(s, w, m, fromIp, now);
    case SweepAtA(now) => SweepStep(s, w, now);
    case OtherMessage(typ, pub) => OtherStep(s, w, typ, pub);
    case Join(b) => JoinStep(s, w, b);
  }

  /** Every step keeps the invariants, as long as Unadvertise is guarded. */
  lemma StepKeepsInv(s: Setup, w: World, step: Step)
    requires Inv(s, w) && Tight(s, w) && Enabled(s, w, step) && Guarded(w, step)
    ensures Inv(s, Next(s, w, step)) && Tight(s, Next(s, w, step))
  {
    if AtB(step) {
      StepAtB(s, w, step);
    } else {
      StepAtA(s, w, step);
    }
  }

  // ---- Runs ----

  /** Both processes just started, B not yet listening. */
  ghost predicate Initial(s: Setup, w: World) {
    && Proper(s)
    && w.a.info == map[] && w.a.remoteSubscribers == map[] && w.a.activity == map[]
    && w.pending == [] && w.hist == [] && !w.joined && w.joinAt == 0 && w.read == 0 && !w.cycle
  }

  ghost predicate Run(s: Setup, w: World, steps: seq<Step>)
    decreases |steps|
  {
    steps == [] || (Enabled(s, w, steps[0]) && Run(s, Next(s, w, steps[0]), steps[1..]))
  }

  function End(s: Setup, w: World, steps: seq<Step>): World
    decreases |steps|
  {
    if steps == [] then w else End(s, Next(s, w, steps[0]), steps[1..])
  }

  /** No Unadvertise of something the reception thread still lists. */
  predicate GuardedRun(s: Setup, w: World, steps: seq<Step>)
    decreases |steps|
  {
    steps == [] || (Guarded(w, steps[0]) && GuardedRun(s, Next(s, w, steps[0]), steps[1..]))
  }

  lemma InitialInv(s: Setup, w: World)
    requires Initial(s, w)
    ensures Inv(s, w) && Tight(s, w)
  {
    assert w.hist[w.joinAt..] == [] && w.hist[w.joinAt..w.read] == [];
  }

  lemma {:induction false} RunKeepsInv(s: Setup, w: World, steps: seq<Step>)
    requires Inv(s, w) && Tight(s, w) && Run(s, w, steps) && GuardedRun(s, w, steps)
    ensures Inv(s, End(s, w, steps)) && Tight(s, End(s, w, steps))
    decreases |steps|
  {
    if steps != [] {
      StepKeepsInv(s, w, steps[0]);
      RunKeepsInv(s, Next(s, w, steps[0]), steps[1..]);
    }
  }

  /** B holds exactly A's own publishers that it may see. */
  ghost predicate Agrees(s: Setup, w: World) {
    forall x: Pub :: x.pUuid == s.a.pUuid ==> (Has(w.b.info, x) <==> Has(w.a.info, x) && VisibleToB(s, x))
  }

  ghost predicate Drained(w: World) {
    w.joined && w.cycle && w.pending == [] && w.read == |w.hist|
  }

  /** Agreement: in every guarded run of two processes, once A's list and the
      messages under way have drained after a heartbeat that began since B
      joined, B's table for A is exactly A's own publishers visible to B. */
  lemma Agreement(s: Setup, w: World, steps: seq<Step>)
    requires Initial(s, w) && Run(s, w, steps) && GuardedRun(s, w, steps)
    ensures Drained(End(s, w, steps)) ==> Agrees(s, End(s, w, steps))
  {
    InitialInv(s, w);
    RunKeepsInv(s, w, steps);
    DrainedAgrees(s, End(s, w, steps));
  }

  lemma DrainedAgrees(s: Setup, w: World)
    requires Inv(s, w) && Tight(s, w)
    ensures Drained(w) ==> Agrees(s, w)
  {
    OwnSetIs(s, w.a);
    if Drained(w) {
      assert w.hist[w.joinAt..w.read] == w.hist[w.joinAt..];
    }
  }

  // ---- Every run, guarded or not ----

  /** Whatever the reception thread still has to advertise is A's own. */
  predicate PendingOwn(s: Setup, w: World) {
    forall x :: x in w.pending ==> x.pUuid == s.a.pUuid
  }

  lemma StepKeepsPendingOwn(s: Setup, w: World, step: Step)
    requires Inv(s, w) && PendingOwn(s, w) && Enabled(s, w, step)
    ensures PendingOwn(s, Next(s, w, step))
  {
    hide Fold, Effect, Knows, OneAddress, WellFormed, Casts, Sent, SentAll, Dispatched, Advertised, Unadvertised, Swept;
    match step
    case AnswerSubscribe(t, subscriberLocal) =>
      ListIsGood(w.a.info, t, s.a.pUuid);
      VisibleOnlyIs(ListAt(w.a.info, t, s.a.pUuid), subscriberLocal);
    case _ =>
  }

  /** The link between A's history and B's table needs no guard. */
  lemma StepKeepsLink(s: Setup, w: World, step: Step)
    requires Inv(s, w) && PendingOwn(s, w) && Enabled(s, w, step)
    ensures Inv(s, Next(s, w, step)) && PendingOwn(s, Next(s, w, step))
  {
    StepKeepsPendingOwn(s, w, step);
    hide Inv, PendingOwn, Next;
    match step
    case Advertise(pub) => AdvertiseStep(s, w, pub);
    case Unadvertise(t, n) => UnadvertiseStep(s, w, t, n);
    case Heartbeat(order) => HeartbeatStep(s, w, order);
    case AnswerSubscribe(t, local) => AnswerStep(s, w, t, local);
    case SendPending => SendOwnStep(s, w);
    case ReceiveAtA(m, fromIp, now) => ReceiveStep(s, w, m, fromIp, now);
    case SweepAtA(now) => SweepStep(s, w, now);
    case OtherMessage(typ, pub) => OtherStep(s, w, typ, pub);
    case Join(b) => JoinStep(s, w, b);
    case _ => StepAtB(s, w, step);
  }

  lemma SendOwnStep(s: Setup, w: World)
    requires Inv(s, w) && PendingOwn(s, w) && w.pending != []
    ensures Inv(s, Next(s, w, SendPending))
  {
    assert w.pending[0] in w.pending;
    SendStep(s, w);
  }

  lemma {:induction false} RunKeepsLink(s: Setup, w: World, steps: seq<Step>)
    requires Inv(s, w) && PendingOwn(s, w) && Run(s, w, steps)
    ensures Inv(s, End(s, w, steps))
    decreases |steps|
  {
    if steps != [] {
      StepKeepsLink(s, w, steps[0]);
      RunKeepsLink(s, Next(s, w, steps[0]), steps[1..]);
    }
  }

  /** At any moment of any run, drained or not, racing or not, what B knows of
      A is the fold of the part of A's history that B has read, starting where
      it joined. */
  lemma KnowledgeIsFoldOfSuffix(s: Setup, w: World, steps: seq<Step>)
    requires Initial(s, w) && Run(s, w, steps)
    ensures var e := End(s, w, steps);
            e.joined ==> e.joinAt <= e.read <= |e.hist| && Knows(s, e.b, Fold(s, e.hist[e.joinAt..e.read]))
  {
    InitialInv(s, w);
    RunKeepsLink(s, w, steps);
  }

  // ---- The two processes run the protocol ----

  /** What a step is to A's tables. */
  function EventAtA(step: Step): seq<Event> {
    match step
    case Advertise(pub) => [UserAdvertise(pub)]
    case Unadvertise(t, n) => [UserUnadvertise(t, n)]
    case ReceiveAtA(m, fromIp, now) => [Receive(m, fromIp, now)]
    case SweepAtA(now) => [Sweep(now)]
    case _ => []
  }

  function EventsAtA(steps: seq<Step>): seq<Event> {
    if steps == [] then [] else EventAtA(steps[0]) + EventsAtA(steps[1..])
  }

  /** What a step is to B's: A's messages in their order, and its own. */
  function EventAtB(s: Setup, w: World, step: Step): seq<Event> {
    match step
    case Deliver(now) => if w.read < |w.hist| then [Receive(w.hist[w.read], s.ip, now)] else []
    case ReceiveAtB(m, fromIp, now) => [Receive(m, fromIp, now)]
    case LocalAtB(e) => [e]
    case _ => []
  }

  function EventsAtB(s: Setup, w: World, steps: seq<Step>): seq<Event>
    decreases |steps|
  {
    if steps == [] then [] else EventAtB(s, w, steps[0]) + EventsAtB(s, Next(s, w, steps[0]), steps[1..])
  }

  lemma {:induction false} AfterAllConcat(cfg: Config, d: Disc, before: seq<Event>, later: seq<Event>)
    ensures AfterAll(cfg, d, before + later) == AfterAll(cfg, AfterAll(cfg, d, before), later)
  {
    if later == [] {
      assert before + later == before;
    } else {
      var k := |later| - 1;
      assert (before + later)[..|before| + k] == before + later[..k];
      AfterAllConcat(cfg, d, before, later[..k]);
    }
  }

  lemma AfterOne(cfg: Config, d: Disc, e: Event)
    ensures AfterAll(cfg, d, [e]) == After(cfg, d, e) && AfterAll(cfg, d, []) == d
  {
    assert [e][..0] == [];
  }

  lemma StepIsEventAtA(s: Setup, w: World, step: Step)
    ensures Next(s, w, step).a == AfterAll(s.a, w.a, EventAtA(step))
  {
    hide Casts, Dispatched, Advertised, Unadvertised, Swept, AfterAll;
    AfterOne(s.a, w.a, if EventAtA(step) == [] then Sweep(0) else EventAtA(step)[0]);
  }

  lemma StepIsEventAtB(s: Setup, w: World, step: Step)
    requires !step.Join?
    ensures Next(s, w, step).b == AfterAll(s.b, w.b, EventAtB(s, w, step))
  {
    hide Casts, Dispatched, Advertised, Unadvertised, Swept, AfterAll;
    AfterOne(s.b, w.b, if EventAtB(s, w, step) == [] then Sweep(0) else EventAtB(s, w, step)[0]);
  }

  /** Seen from A alone, every run is a run of the protocol of one process on
      A's own events, ... */
  lemma {:induction false} RunProjectsToA(s: Setup, w: World, steps: seq<Step>)
    ensures End(s, w, steps).a == AfterAll(s.a, w.a, EventsAtA(steps))
    decreases |steps|
  {
    hide Next, EventAtA, AfterAll;
    if steps != [] {
      StepIsEventAtA(s, w, steps[0]);
      RunProjectsToA(s, Next(s, w, steps[0]), steps[1..]);
      AfterAllConcat(s.a, w.a, EventAtA(steps[0]), EventsAtA(steps[1..]));
    } else {
      AfterOne(s.a, w.a, Sweep(0));
    }
  }

  /** ... and from B alone, from when it joined, one on A's messages in order
      and on what else it hears and does. */
  lemma {:induction false} RunProjectsToB(s: Setup, w: World, steps: seq<Step>)
    requires forall i :: 0 <= i < |steps| ==> !steps[i].Join?
    ensures End(s, w, steps).b == AfterAll(s.b, w.b, EventsAtB(s, w, steps))
    decreases |steps|
  {
    hide Next, EventAtB, AfterAll;
    if steps != [] {
      var w' := Next(s, w, steps[0]);
      StepIsEventAtB(s, w, steps[0]);
      RunProjectsToB(s, w', steps[1..]);
      AfterAllConcat(s.b, w.b, EventAtB(s, w, steps[0]), EventsAtB(s, w', steps[1..]));
    } else {
      AfterOne(s.b, w.b, Sweep(0));
    }
  }

  /** Answering a SUBSCRIBE one publisher at a time sends what dispatching it
      in one go would. */
  lemma AnswerAmountsToDispatch(s: Setup, w: World, m: Msg, fromIp: string, now: int)
    requires m.version == s.a.version && m.sender != s.a.pUuid && !IsRelayed(m) && m.typ == SUBSCRIBE && m.sub.Some?
    ensures var e := SendAll(s, Next(s, w, AnswerSubscribe(m.sub.value, IsSenderLocal(s.a, fromIp))));
            && e.pending == [] && e.a == w.a
            && e.hist == w.hist + Casts(s, Dispatched(s.a, w.a, m, fromIp, now).1)
  {
    var own := VisibleOnly(ListAt(w.a.info, m.sub.value, s.a.pUuid), IsSenderLocal(s.a, fromIp));
    var forwarded := if IsFinal(m) then [] else ToRelays(w.a.relays, WithRelayFlag(m));
    var answers := SentAll(s.a, w.a.relays, ADVERTISE, own);
    assert Dispatched(s.a, w.a, m, fromIp, now).1 == forwarded + answers;
    NoCasts(s, forwarded);
    CastsAdd(s, forwarded, answers);
    assert [] + Casts(s, answers) == Casts(s, answers);
    SendAllSends(s, w.(pending := own));
  }

  lemma {:induction false} SendAllSends(s: Setup, w: World)
    ensures var e := SendAll(s, w);
            && e.pending == [] && e.a == w.a
            && e.hist == w.hist + Casts(s, SentAll(s.a, w.a.relays, ADVERTISE, w.pending))
    decreases |w.pending|
  {
    if w.pending != [] {
      var first, rest := w.pending[0], w.pending[1..];
      SendAllSends(s, Next(s, w, SendPending));
      SentAllCons(s.a, w.a.relays, ADVERTISE, first, rest);
      assert w.pending == [first] + rest;
      hide Sent, SentAll, Casts;
      CastsAdd(s, Sent(s.a, w.a.relays, ADVERTISE, first), SentAll(s.a, w.a.relays, ADVERTISE, rest));
      JoinHistory(w.hist, Casts(s, Sent(s.a, w.a.relays, ADVERTISE, first)),
                  Casts(s, SentAll(s.a, w.a.relays, ADVERTISE, rest)));
    } else {
      assert w.hist + [] == w.hist;
    }
  }

  lemma JoinHistory(a: seq<Msg>, b: seq<Msg>, c: seq<Msg>)
    ensures (a + b) + c == a + (b + c)
  {
  }

  lemma {:induction false} SentAllCons(cfg: Config, relays: seq<string>, typ: MsgType, first: Pub, rest: seq<Pub>)
    ensures SentAll(cfg, relays, typ, [first] + rest) == Sent(cfg, relays, typ, first) + SentAll(cfg, relays, typ, rest)
  {
    hide Sent;
    if rest == [] {
      assert [first] + rest == [first] && [first][..0] == [];
    } else {
      var k := |rest| - 1;
      assert ([first] + rest)[..k + 1] == [first] + rest[..k];
      SentAllCons(cfg, relays, typ, first, rest[..k]);
      RegroupOut(Sent(cfg, relays, typ, first), SentAll(cfg, relays, typ, rest[..k]), Sent(cfg, relays, typ, rest[k]));
    }
  }

  // ---- The race the guard excludes ----

  function SendAll(s: Setup, w: World): World
    decreases |w.pending|
  {
    if w.pending == [] then w else SendAll(s, Next(s, w, SendPending))
  }

  predicate NamesNode(x: Pub, t: string, n: string) {
    x.topic == t && x.nUuid == n
  }

  /** Sending the rest of the list adds to what B will know and removes
      nothing; entries other than A's remaining own ones stay known. */
  lemma {:induction false} SendAllAdds(s: Setup, w: World, stale: Pub)
    requires Inv(s, w) && w.joined && VisibleToB(s, stale) && stale.pUuid == s.a.pUuid
    requires forall x :: x in w.pending ==>
               x.pUuid == s.a.pUuid && (NamesNode(x, stale.topic, stale.nUuid) ==> x == stale)
    requires forall x :: x in Eventually(s, w) && NamesNode(x, stale.topic, stale.nUuid) ==> x == stale
    ensures var e := SendAll(s, w);
            && Inv(s, e) && e.a == w.a && e.joined && e.pending == [] && e.cycle == w.cycle
            && (stale in Eventually(s, e) <==> stale in Eventually(s, w) || stale in w.pending)
    decreases |w.pending|
  {
    if w.pending != [] {
      var x := w.pending[0];
      assert w.pending == [x] + w.pending[1..];
      SendStep(s, w);
      var w' := Next(s, w, SendPending);
      SendAllAdds(s, w', stale);
    }
  }

  /** From any reachable state after a heartbeat began: unadvertise a shown
      publisher, then let the list and the wire drain. B ends up agreeing with
      A if and only if the reception thread did not have that publisher on its
      list when it was unadvertised. */
  lemma UnadvertiseRaceIff(s: Setup, w: World, x: Pub)
    requires Inv(s, w) && Tight(s, w) && w.joined && w.cycle
    requires x in OwnSet(s, w.a) && VisibleToB(s, x)
    ensures var e := SendAll(s, Next(s, w, Unadvertise(x.topic, x.nUuid)));
            Inv(s, e) && (Eventually(s, e) == (set y | y in OwnSet(s, e.a) && VisibleToB(s, y))
                     <==> !OnList(w.pending, x.topic, x.nUuid))
  {
    var t, n := x.topic, x.nUuid;
    UnadvertiseStep(s, w, t, n);
    var w1 := Next(s, w, Unadvertise(t, n));
    SendAllAdds(s, w1, x);
    var e := SendAll(s, w1);
    assert x !in OwnSet(s, e.a);
    if OnList(w.pending, t, n) {
      var i :| 0 <= i < |w.pending| && w.pending[i].topic == t && w.pending[i].nUuid == n;
      assert w.pending[i] in w.pending && w.pending[i] == x;
      assert x in Eventually(s, e);
    } else {
      GuardedUnadvertiseStep(s, w, t, n);
      SendAllKeepsTight(s, w1);
    }
  }

  lemma {:induction false} SendAllKeepsTight(s: Setup, w: World)
    requires Inv(s, w) && Tight(s, w)
    ensures Inv(s, SendAll(s, w)) && Tight(s, SendAll(s, w)) && SendAll(s, w).pending == []
    ensures SendAll(s, w).joined == w.joined && SendAll(s, w).cycle == w.cycle && SendAll(s, w).a == w.a
    decreases |w.pending|
  {
    if w.pending != [] {
      TightSendStep(s, w);
      SendAllKeepsTight(s, Next(s, w, SendPending));
    }
  }

  /** The race is real for every publisher that B may see: B joins, A
      advertises and starts a heartbeat, and the publisher goes away before
      its turn on the list. B keeps a publisher A no longer has. */
  lemma RaceHappens(s: Setup, w: World, x: Pub)
    requires Initial(s, w) && x.pUuid == s.a.pUuid && x.addr == s.a.address && VisibleToB(s, x)
    ensures var steps := [Join(Disc(map[], map[], map[], [], [])), Advertise(x), Heartbeat([x]),
                          Unadvertise(x.topic, x.nUuid)];
            var e := SendAll(s, End(s, w, steps));
            Run(s, w, steps) && Inv(s, e) && x in Eventually(s, e) && x !in OwnSet(s, e.a)
  {
    var empty := Disc(map[], map[], map[], [], []);
    InitialInv(s, w);
    StepKeepsInv(s, w, Join(empty));
    var w1 := Next(s, w, Join(empty));
    StepKeepsInv(s, w1, Advertise(x));
    var w2 := Next(s, w1, Advertise(x));
    AddedHas(w1.a.info, x);
    assert w2.a.info == Added(map[], x);
    OwnSetIs(s, w2.a);
    assert Lists([x], w2.a.info, s.a.pUuid);
    StepKeepsInv(s, w2, Heartbeat([x]));
    var w3 := Next(s, w2, Heartbeat([x]));
    var leave := Unadvertise(x.topic, x.nUuid);
    var w4 := Next(s, w3, leave);
    FourSteps(s, w, Join(empty), Advertise(x), Heartbeat([x]), leave);
    assert OnList(w3.pending, x.topic, x.nUuid);
    UnadvertiseStep(s, w3, x.topic, x.nUuid);
    SendAllAdds(s, w4, x);
  }

  lemma FourSteps(s: Setup, w: World, a: Step, b: Step, c: Step, d: Step)
    requires Enabled(s, w, a) && Enabled(s, Next(s, w, a), b)
    requires Enabled(s, Next(s, Next(s, w, a), b), c)
    requires Enabled(s, Next(s, Next(s, Next(s, w, a), b), c), d)
    ensures Run(s, w, [a, b, c, d])
    ensures End(s, w, [a, b, c, d]) == Next(s, Next(s, Next(s, Next(s, w, a), b), c), d)
  {
    var w1 := Next(s, w, a);
    var w2 := Next(s, w1, b);
    var w3 := Next(s, w2, c);
    assert [a, b, c, d][1..] == [b, c, d] && [b, c, d][1..] == [c, d] && [c, d][1..] == [d] && [d][1..] == [];
    assert Run(s, w3, [d]) && End(s, w3, [d]) == Next(s, w3, d);
    assert Run(s, w2, [c, d]) && End(s, w2, [c, d]) == End(s, w3, [d]);
    assert Run(s, w1, [b, c, d]) && End(s, w1, [b, c, d]) == End(s, w2, [c, d]);
  }
}
