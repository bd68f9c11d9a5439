// One process's view of the UDP discovery protocol, as functions on values:
// what a received message, a user call, a heartbeat or a sweep does to the
// tables and which messages it sends (src/Discovery.hh, with the callbacks of
// src/NodeShared.cc).
module DiscoveryProtocol {
  import opened MessageTypes
  import opened Options
  import opened TopicStore

  datatype MsgType =
    | ADVERTISE | SUBSCRIBE | SUBSCRIBERS_REQ | SUBSCRIBERS_REP
    | NEW_CONNECTION | END_CONNECTION | HEARTBEAT | BYE | UNADVERTISE | UNKNOWN

  datatype Flags = NoFlags | Flags(relay: bool, noRelay: bool)

  datatype Msg = Msg(version: nat, typ: MsgType, sender: string, flags: Flags, pub: Option<Pub>, sub: Option<string>)

  datatype Outgoing = Multicast(msg: Msg) | Unicast(addr: string, msg: Msg)

  /** What a process never changes while it runs. */
  datatype Config = Config(pUuid: string, address: string, version: nat, hostInterfaces: seq<string>,
                           silenceMs: nat, activityMs: nat, heartbeatMs: nat)

  /** A local subscription: its topic, node and message type. */
  datatype LocalHandler = LocalHandler(topic: string, nUuid: string, typeName: string)

  datatype Disc = Disc(info: Store, remoteSubscribers: Store, activity: map<string, int>, relays: seq<string>,
                       handlers: seq<LocalHandler>)

  const NS_PER_MS := 1_000_000
  const POLL_TIMEOUT_MS := 250

  // ---- Sending ----

  function WithRelayFlag(m: Msg): Msg {
    m.(flags := Flags(true, m.flags.Flags? && m.flags.noRelay))
  }

  function ToRelays(relays: seq<string>, m: Msg): (out: seq<Outgoing>)
    ensures |out| == |relays|
    ensures forall i :: 0 <= i < |out| ==> out[i] == Unicast(relays[i], m)
  {
    seq(|relays|, i requires 0 <= i < |relays| => Unicast(relays[i], m))
  }

  /** The message SendMsg builds: the header carries the own process UUID. */
  function Built(cfg: Config, typ: MsgType, pub: Pub): Msg {
    Msg(cfg.version, typ, cfg.pUuid, NoFlags, Some(pub), if typ == SUBSCRIBE then Some(pub.topic) else None)
  }

  /** SendMsg to DestinationType::ALL. */
  function Sent(cfg: Config, relays: seq<string>, typ: MsgType, pub: Pub): seq<Outgoing> {
    [Multicast(Built(cfg, typ, pub))] + ToRelays(relays, WithRelayFlag(Built(cfg, typ, pub)))
  }

  function SentAll(cfg: Config, relays: seq<string>, typ: MsgType, pubs: seq<Pub>): seq<Outgoing> {
    if pubs == [] then []
    else SentAll(cfg, relays, typ, pubs[..|pubs| - 1]) + Sent(cfg, relays, typ, pubs[|pubs| - 1])
  }

  lemma SentAllSnoc(cfg: Config, relays: seq<string>, typ: MsgType, pubs: seq<Pub>, last: Pub)
    ensures SentAll(cfg, relays, typ, pubs + [last]) == SentAll(cfg, relays, typ, pubs) + Sent(cfg, relays, typ, last)
  {
    assert (pubs + [last])[..|pubs|] == pubs;
  }

  lemma SentAllPrefix(cfg: Config, relays: seq<string>, typ: MsgType, pubs: seq<Pub>, i: nat)
    requires i < |pubs|
    ensures SentAll(cfg, relays, typ, pubs[..i + 1])
         == SentAll(cfg, relays, typ, pubs[..i]) + Sent(cfg, relays, typ, pubs[i])
  {
    assert pubs[..i + 1] == pubs[..i] + [pubs[i]];
    SentAllSnoc(cfg, relays, typ, pubs[..i], pubs[i]);
  }

  lemma RegroupOut(a: seq<Outgoing>, b: seq<Outgoing>, c: seq<Outgoing>)
    ensures (a + b) + c == a + (b + c)
  {
  }

  // ---- Local subscriptions ----

  predicate HasSubscriber(handlers: seq<LocalHandler>, topic: string) {
    exists i :: 0 <= i < |handlers| && handlers[i].topic == topic
  }

  /** NodeUuids: one entry per matching handler, so a node may repeat. */
  function NodesFor(handlers: seq<LocalHandler>, topic: string, typeName: string): seq<string> {
    if handlers == [] then []
    else
      var k := |handlers| - 1;
      NodesFor(handlers[..k], topic, typeName) +
      if handlers[k].topic == topic && (handlers[k].typeName == typeName || handlers[k].typeName == GENERIC_TYPE)
      then [handlers[k].nUuid] else []
  }

  function Converted(cfg: Config, handlers: seq<LocalHandler>): seq<Pub> {
    seq(|handlers|, i requires 0 <= i < |handlers| =>
      Pub(handlers[i].topic, cfg.address, "", cfg.pUuid, handlers[i].nUuid, handlers[i].typeName, ALL))
  }

  /** The connection callback registers every interested local node with the
      remote publisher. */
  function Registrations(cfg: Config, handlers: seq<LocalHandler>, pub: Pub): seq<Pub> {
    if HasSubscriber(handlers, pub.topic) && cfg.pUuid != pub.pUuid then
      var nodes := NodesFor(handlers, pub.topic, pub.typeName);
      seq(|nodes|, i requires 0 <= i < |nodes| => pub.(pUuid := cfg.pUuid, ctrl := pub.pUuid, nUuid := nodes[i]))
    else []
  }

  // ---- Receiving ----

  /** SetFromDiscovery into a default publisher. */
  function Received(m: Msg): Pub {
    match (m.sub, m.pub)
    case (Some(topic), Some(pub)) => Pub(topic, "", pub.ctrl, "", "", pub.typeName, ALL)
    case (Some(topic), None) => Pub(topic, "", "", "", "", "", ALL)
    case (None, Some(pub)) => pub
    case (None, None) => Pub("", "", "", "", "", "", ALL)
  }

  predicate Hidden(scope: Scope, senderLocal: bool) {
    scope == PROCESS || (scope == HOST && !senderLocal)
  }

  function VisibleOnly(pubs: seq<Pub>, senderLocal: bool): seq<Pub> {
    if pubs == [] then []
    else
      var k := |pubs| - 1;
      VisibleOnly(pubs[..k], senderLocal) + if Hidden(pubs[k].scope, senderLocal) then [] else [pubs[k]]
  }

  predicate IsSenderLocal(cfg: Config, fromIp: string) {
    fromIp in cfg.hostInterfaces || "127." <= fromIp
  }

  function WithRelay(relays: seq<string>, ip: string): seq<string> {
    if ip in relays then relays else relays + [ip]
  }

  predicate IsRelayed(m: Msg) {
    m.flags.Flags? && m.flags.relay
  }

  predicate IsFinal(m: Msg) {
    m.flags.Flags? && m.flags.noRelay
  }

  /** The switch over the message type. */
  function Handled(cfg: Config, d: Disc, m: Msg, senderLocal: bool): (Disc, seq<Outgoing>) {
    var pub := Received(m);
    match m.typ
    case ADVERTISE =>
      if Hidden(pub.scope, senderLocal) then (d, [])
      else
        var added := !HasEntry(ListAt(d.info, pub.topic, pub.pUuid), pub);
        (d.(info := Added(d.info, pub)),
         if added then SentAll(cfg, d.relays, NEW_CONNECTION, Registrations(cfg, d.handlers, pub)) else [])
    case SUBSCRIBE =>
      if m.sub.None? then (d, [])
      else (d, SentAll(cfg, d.relays, ADVERTISE, VisibleOnly(ListAt(d.info, m.sub.value, cfg.pUuid), senderLocal)))
    case SUBSCRIBERS_REQ => (d, SentAll(cfg, d.relays, SUBSCRIBERS_REP, Converted(cfg, d.handlers)))
    case SUBSCRIBERS_REP => (d.(remoteSubscribers := Added(d.remoteSubscribers, pub)), [])
    case NEW_CONNECTION => (d, [])
    case END_CONNECTION =>
      (d.(remoteSubscribers := WithoutNode(d.remoteSubscribers, pub.topic, pub.pUuid, pub.nUuid)), [])
    case HEARTBEAT => (d, [])
    case BYE =>
      (d.(activity := d.activity - {m.sender}, info := WithoutProc(d.info, m.sender),
          remoteSubscribers := WithoutProc(d.remoteSubscribers, m.sender)), [])
    case UNADVERTISE =>
      if Hidden(pub.scope, senderLocal) then (d, [])
      else (d.(info := WithoutNode(d.info, pub.topic, pub.pUuid, pub.nUuid)), [])
    case UNKNOWN => (d, [])
  }

  predicate Ignored(cfg: Config, m: Msg) {
    m.version != cfg.version || m.sender == cfg.pUuid
  }

  /** DispatchDiscoveryMsg: relay forwarding first, then the switch. */
  function Dispatched(cfg: Config, d: Disc, m: Msg, fromIp: string, now: int): (Disc, seq<Outgoing>) {
    if Ignored(cfg, m) then (d, [])
    else if IsRelayed(m) then
      (d.(relays := WithRelay(d.relays, fromIp)), [Multicast(m.(flags := Flags(false, true)))])
    else
      var forwarded := if IsFinal(m) then [] else ToRelays(d.relays, WithRelayFlag(m));
      var (d', out) := Handled(cfg, d.(activity := d.activity[m.sender := now]), m, IsSenderLocal(cfg, fromIp));
      (d', forwarded + out)
  }

  // ---- User calls ----

  function Advertised(cfg: Config, d: Disc, pub: Pub): (Disc, seq<Outgoing>) {
    if HasEntry(ListAt(d.info, pub.topic, pub.pUuid), pub) then (d, [])
    else
      (d.(info := Added(d.info, pub)),
       SentAll(cfg, d.relays, NEW_CONNECTION, Registrations(cfg, d.handlers, pub)) +
       if pub.scope != PROCESS then Sent(cfg, d.relays, ADVERTISE, pub) else [])
  }

  function Unadvertised(cfg: Config, d: Disc, topic: string, nUuid: string): (Disc, seq<Outgoing>) {
    match FirstOfNode(ListAt(d.info, topic, cfg.pUuid), nUuid)
    case None => (d, [])
    case Some(pub) =>
      (d.(info := WithoutNode(d.info, topic, cfg.pUuid, nUuid)),
       if pub.scope != PROCESS then Sent(cfg, d.relays, UNADVERTISE, pub) else [])
  }

  /** The publisher-less publisher of heartbeats, byes and requests. */
  function Self(cfg: Config): Pub {
    Pub("", "", "", cfg.pUuid, "", "", ALL)
  }

  // ---- Sweeping ----

  /** duration_cast<milliseconds>: truncation toward zero. */
  function ToMs(ns: int): int {
    if ns >= 0 then ns / NS_PER_MS else -(-ns / NS_PER_MS)
  }

  predicate Expired(cfg: Config, since: int, now: int) {
    ToMs(now - since) > cfg.silenceMs
  }

  function WithoutProcs(s: Store, gone: set<string>): Store {
    map t | t in s && s[t] - gone != map[] :: s[t] - gone
  }

  function ExpiredProcs(cfg: Config, activity: map<string, int>, now: int): set<string> {
    set p | p in activity && Expired(cfg, activity[p], now)
  }

  function Swept(cfg: Config, d: Disc, now: int): Disc {
    var gone := ExpiredProcs(cfg, d.activity, now);
    d.(activity := d.activity - gone, info := WithoutProcs(d.info, gone),
       remoteSubscribers := WithoutProcs(d.remoteSubscribers, gone))
  }

  /** Forgetting one more process. */
  lemma WithoutProcsStep(s: Store, gone: set<string>, p: string)
    ensures WithoutProc(WithoutProcs(s, gone), p) == WithoutProcs(s, gone + {p})
  {
    var a, b := WithoutProc(WithoutProcs(s, gone), p), WithoutProcs(s, gone + {p});
    forall t | t in s
      ensures (t in a <==> t in b) && (t in a && t in b ==> a[t] == b[t])
    {
      assert (s[t] - gone) - {p} == s[t] - (gone + {p});
    }
  }

  lemma WithoutNoProcs(s: Store)
    requires WellFormed(s)
    ensures WithoutProcs(s, {}) == s
  {
    assert forall t :: t in s ==> s[t] - {} == s[t];
  }

  // ---- Timers ----

  function Min(a: int, b: int): int {
    if a <= b then a else b
  }

  function Max(a: int, b: int): int {
    if a >= b then a else b
  }

  /** NextTimeout, in milliseconds. */
  function TimeoutMs(nextHeartbeat: int, nextActivity: int, now: int): int {
    Max(Min(ToMs(Min(nextHeartbeat - now, nextActivity - now)), POLL_TIMEOUT_MS), 0)
  }

  // ---- No orphans ----

  predicate Honest(m: Msg) {
    m.pub.Some? && m.pub.value.pUuid == m.sender && (m.sub.Some? <==> m.typ == SUBSCRIBE)
  }

  ghost predicate Tables(d: Disc) {
    WellFormed(d.info) && WellFormed(d.remoteSubscribers)
  }

  /** Each remote process known from either table is tracked by the failure
      detector, and the process itself never is. */
  ghost predicate NoOrphans(cfg: Config, d: Disc) {
    && Tables(d)
    && (forall x :: Has(d.info, x) && x.pUuid != cfg.pUuid ==> x.pUuid in d.activity)
    && (forall x :: Has(d.remoteSubscribers, x) ==> x.pUuid in d.activity)
    && cfg.pUuid !in d.activity
  }

  /** Everything sent is honest: built with the own UUID in both places, or a
      forwarded honest message. */
  ghost predicate HonestOut(out: seq<Outgoing>) {
    forall i :: 0 <= i < |out| ==> Honest(out[i].msg)
  }

  lemma {:induction false} SentAllHonest(cfg: Config, relays: seq<string>, typ: MsgType, pubs: seq<Pub>)
    requires forall i :: 0 <= i < |pubs| ==> pubs[i].pUuid == cfg.pUuid
    ensures HonestOut(SentAll(cfg, relays, typ, pubs))
  {
    if pubs != [] {
      SentAllHonest(cfg, relays, typ, pubs[..|pubs| - 1]);
    }
  }

  lemma {:induction false} VisibleOnlyIs(pubs: seq<Pub>, senderLocal: bool)
    ensures forall x :: x in VisibleOnly(pubs, senderLocal) <==> x in pubs && !Hidden(x.scope, senderLocal)
    ensures |VisibleOnly(pubs, senderLocal)| <= |pubs|
  {
    if pubs != [] {
      var k := |pubs| - 1;
      assert pubs == pubs[..k] + [pubs[k]];
      VisibleOnlyIs(pubs[..k], senderLocal);
    }
  }

  lemma {:induction false} NodesForBound(handlers: seq<LocalHandler>, topic: string, typeName: string)
    ensures |NodesFor(handlers, topic, typeName)| <= |handlers|
  {
    if handlers != [] {
      NodesForBound(handlers[..|handlers| - 1], topic, typeName);
    }
  }

  // ---- Forwarding and answers, read off the wire ----

  /** A message is about the publisher it carries, unless it names a
      subscription: that is about a topic alone, of no process and any scope. */
  lemma ReceivedIs(m: Msg)
    ensures m.sub.None? && m.pub.Some? ==> Received(m) == m.pub.value
    ensures m.sub.Some? ==>
              && Received(m).topic == m.sub.value && Received(m).pUuid == "" && Received(m).nUuid == ""
              && Received(m).addr == "" && Received(m).scope == ALL
              && (m.pub.Some? ==> Received(m).ctrl == m.pub.value.ctrl && Received(m).typeName == m.pub.value.typeName)
  {
  }

  /** Own messages only: built with the own UUID in the header. */
  ghost predicate OwnOut(cfg: Config, out: seq<Outgoing>) {
    forall i :: 0 <= i < |out| ==> out[i].msg.sender == cfg.pUuid && out[i].msg.version == cfg.version
  }

  lemma {:induction false} SentAllOwn(cfg: Config, relays: seq<string>, typ: MsgType, pubs: seq<Pub>)
    ensures OwnOut(cfg, SentAll(cfg, relays, typ, pubs))
  {
    if pubs != [] {
      SentAllOwn(cfg, relays, typ, pubs[..|pubs| - 1]);
    }
  }

  predicate Distinct(s: seq<string>) {
    forall i, j :: 0 <= i < j < |s| ==> s[i] != s[j]
  }

  /** One unicast to each address, none to another. */
  lemma {:induction false} ToRelaysCount(relays: seq<string>, m: Msg)
    requires Distinct(relays)
    ensures forall a, x :: multiset(ToRelays(relays, m))[Unicast(a, x)] == if a in relays && x == m then 1 else 0
    ensures forall x :: multiset(ToRelays(relays, m))[Multicast(x)] == 0
  {
    if relays != [] {
      var k := |relays| - 1;
      ToRelaysCount(relays[..k], m);
      assert relays == relays[..k] + [relays[k]];
      assert ToRelays(relays, m) == ToRelays(relays[..k], m) + [Unicast(relays[k], m)];
    }
  }

  /** SendMsg: the message goes to the group once, and to each relay once with
      the RELAY flag. */
  lemma SentIs(cfg: Config, relays: seq<string>, typ: MsgType, pub: Pub)
    requires Distinct(relays)
    ensures var out := Sent(cfg, relays, typ, pub);
            var m := Msg(cfg.version, typ, cfg.pUuid, NoFlags, Some(pub),
                         if typ == SUBSCRIBE then Some(pub.topic) else None);
            && (forall x :: multiset(out)[Multicast(x)] == if x == m then 1 else 0)
            && (forall a, x :: multiset(out)[Unicast(a, x)]
                               == if a in relays && x == m.(flags := Flags(true, false)) then 1 else 0)
  {
    var m := Built(cfg, typ, pub);
    ToRelaysCount(relays, WithRelayFlag(m));
    assert multiset(Sent(cfg, relays, typ, pub))
        == multiset{Multicast(m)} + multiset(ToRelays(relays, WithRelayFlag(m)));
  }

  lemma HandledIsOwn(cfg: Config, d: Disc, m: Msg, senderLocal: bool)
    ensures OwnOut(cfg, Handled(cfg, d, m, senderLocal).1)
  {
    match m.typ
    case ADVERTISE => SentAllOwn(cfg, d.relays, NEW_CONNECTION, Registrations(cfg, d.handlers, Received(m)));
    case SUBSCRIBE =>
      if m.sub.Some? {
        SentAllOwn(cfg, d.relays, ADVERTISE, VisibleOnly(ListAt(d.info, m.sub.value, cfg.pUuid), senderLocal));
      }
    case SUBSCRIBERS_REQ => SentAllOwn(cfg, d.relays, SUBSCRIBERS_REP, Converted(cfg, d.handlers));
    case _ =>
  }

  lemma OwnHasNone(cfg: Config, out: seq<Outgoing>, o: Outgoing)
    requires OwnOut(cfg, out) && o.msg.sender != cfg.pUuid
    ensures multiset(out)[o] == 0
  {
    assert o !in out;
  }

  /** A plain message of another process goes to each stored relay address
      exactly once, marked RELAY and otherwise as it came, and to nobody else. */
  lemma PlainIsForwarded(cfg: Config, d: Disc, m: Msg, fromIp: string, now: int, o: Outgoing)
    requires m.version == cfg.version && m.sender != cfg.pUuid && Distinct(d.relays)
    requires m.flags == NoFlags || m.flags == Flags(false, false)
    requires o.msg.sender != cfg.pUuid
    ensures multiset(Dispatched(cfg, d, m, fromIp, now).1)[o]
         == if o.Unicast? && o.addr in d.relays && o.msg == m.(flags := Flags(true, false)) then 1 else 0
  {
    var d1 := d.(activity := d.activity[m.sender := now]);
    var answers := Handled(cfg, d1, m, IsSenderLocal(cfg, fromIp)).1;
    HandledIsOwn(cfg, d1, m, IsSenderLocal(cfg, fromIp));
    OwnHasNone(cfg, answers, o);
    ToRelaysCount(d.relays, WithRelayFlag(m));
    assert Dispatched(cfg, d, m, fromIp, now).1 == ToRelays(d.relays, WithRelayFlag(m)) + answers;
    hide Handled;
    match o
    case Multicast(x) =>
    case Unicast(a, x) =>
  }

  /** A RELAY message goes to the group exactly once, marked NO_RELAY, its
      source is stored as a relay, and nothing else happens. */
  lemma RelayedIsMulticast(cfg: Config, d: Disc, m: Msg, fromIp: string, now: int)
    requires m.version == cfg.version && m.sender != cfg.pUuid && m.flags.Flags? && m.flags.relay
    ensures var (d', out) := Dispatched(cfg, d, m, fromIp, now);
            && out == [Multicast(m.(flags := Flags(false, true)))]
            && d' == d.(relays := d'.relays)
            && d.relays <= d'.relays && (Distinct(d.relays) ==> Distinct(d'.relays))
            && forall a :: a in d'.relays <==> a in d.relays || a == fromIp
  {
  }

  /** A NO_RELAY message is not passed on: all that is sent are own answers. */
  lemma FinalIsNotForwarded(cfg: Config, d: Disc, m: Msg, fromIp: string, now: int)
    requires m.flags.Flags? && m.flags.noRelay && !m.flags.relay
    ensures OwnOut(cfg, Dispatched(cfg, d, m, fromIp, now).1)
  {
    HandledIsOwn(cfg, d.(activity := d.activity[m.sender := now]), m, IsSenderLocal(cfg, fromIp));
  }

  /** Messages of another version and own messages change and send nothing. */
  lemma ForeignVersionIsDropped(cfg: Config, d: Disc, m: Msg, fromIp: string, now: int)
    requires m.version != cfg.version || m.sender == cfg.pUuid
    ensures Dispatched(cfg, d, m, fromIp, now) == (d, [])
  {
  }

  /** Whether publisher `y` is known after a message. */
  ghost predicate KnownAfter(d: Disc, m: Msg, local: bool, y: Pub) {
    var x := Received(m);
    match m.typ
    case ADVERTISE =>
      Has(d.info, y) || (!Hidden(x.scope, local) && y == x && forall z :: Has(d.info, z) ==> !SameEntry(z, x))
    case UNADVERTISE =>
      Has(d.info, y)
      && (Hidden(x.scope, local) || !(y.topic == x.topic && y.pUuid == x.pUuid && y.nUuid == x.nUuid))
    case BYE => Has(d.info, y) && y.pUuid != m.sender
    case _ => Has(d.info, y)
  }

  /** Whether `y` is a remote subscriber after a message. */
  ghost predicate SubscriberAfter(d: Disc, m: Msg, y: Pub) {
    var x := Received(m);
    match m.typ
    case SUBSCRIBERS_REP =>
      Has(d.remoteSubscribers, y) || (y == x && forall z :: Has(d.remoteSubscribers, z) ==> !SameEntry(z, x))
    case END_CONNECTION =>
      Has(d.remoteSubscribers, y) && !(y.topic == x.topic && y.pUuid == x.pUuid && y.nUuid == x.nUuid)
    case BYE => Has(d.remoteSubscribers, y) && y.pUuid != m.sender
    case _ => Has(d.remoteSubscribers, y)
  }

  lemma HandledInfo(cfg: Config, d: Disc, m: Msg, local: bool, y: Pub)
    requires Tables(d)
    ensures Has(Handled(cfg, d, m, local).0.info, y) <==> KnownAfter(d, m, local, y)
  {
    var x := Received(m);
    hide WellFormed, Has, HasEntry, ListAt, Added, WithoutNode, WithoutProc;
    hide SentAll, Registrations, VisibleOnly, Converted;
    match m.typ
    case ADVERTISE => AddedHas(d.info, x);
    case UNADVERTISE => WithoutNodeHas(d.info, x.topic, x.pUuid, x.nUuid);
    case BYE => WithoutProcHas(d.info, m.sender);
    case _ =>
  }

  lemma HandledSubscribers(cfg: Config, d: Disc, m: Msg, local: bool, y: Pub)
    requires Tables(d)
    ensures Has(Handled(cfg, d, m, local).0.remoteSubscribers, y) <==> SubscriberAfter(d, m, y)
  {
    var x := Received(m);
    hide WellFormed, Has, HasEntry, ListAt, Added, WithoutNode, WithoutProc;
    hide SentAll, Registrations, VisibleOnly, Converted;
    match m.typ
    case SUBSCRIBERS_REP => AddedHas(d.remoteSubscribers, x);
    case END_CONNECTION => WithoutNodeHas(d.remoteSubscribers, x.topic, x.pUuid, x.nUuid);
    case BYE => WithoutProcHas(d.remoteSubscribers, m.sender);
    case _ =>
  }

  /** The publishers, the remote subscribers and the activity after a message
      without the RELAY flag, as membership. */
  lemma DispatchTables(cfg: Config, d: Disc, m: Msg, fromIp: string, now: int)
    requires Tables(d) && m.version == cfg.version && m.sender != cfg.pUuid && !(m.flags.Flags? && m.flags.relay)
    ensures var d', local := Dispatched(cfg, d, m, fromIp, now).0, IsSenderLocal(cfg, fromIp);
            && d'.relays == d.relays && d'.handlers == d.handlers
            && d'.activity == (if m.typ == BYE then d.activity - {m.sender} else d.activity[m.sender := now])
            && (forall y :: Has(d'.info, y) <==> KnownAfter(d, m, local, y))
            && (forall y :: Has(d'.remoteSubscribers, y) <==> SubscriberAfter(d, m, y))
  {
    var d1, local := d.(activity := d.activity[m.sender := now]), IsSenderLocal(cfg, fromIp);
    hide KnownAfter, SubscriberAfter, WellFormed, Has, Handled;
    HandledRest(cfg, d1, m, local);
    assert d1.activity - {m.sender} == d.activity - {m.sender};
    forall y
      ensures Has(Handled(cfg, d1, m, local).0.info, y) <==> KnownAfter(d, m, local, y)
      ensures Has(Handled(cfg, d1, m, local).0.remoteSubscribers, y) <==> SubscriberAfter(d, m, y)
    {
      HandledInfo(cfg, d1, m, local, y);
      HandledSubscribers(cfg, d1, m, local, y);
      ActivityDoesNotMatter(d, d1, m, local, y);
    }
  }

  lemma HandledRest(cfg: Config, d: Disc, m: Msg, local: bool)
    ensures var d' := Handled(cfg, d, m, local).0;
            && d'.relays == d.relays && d'.handlers == d.handlers
            && d'.activity == if m.typ == BYE then d.activity - {m.sender} else d.activity
  {
  }

  lemma ActivityDoesNotMatter(d: Disc, d1: Disc, m: Msg, local: bool, y: Pub)
    requires d1 == d.(activity := d1.activity)
    ensures KnownAfter(d1, m, local, y) == KnownAfter(d, m, local, y)
    ensures SubscriberAfter(d1, m, y) == SubscriberAfter(d, m, y)
  {
  }

  predicate Listens(h: LocalHandler, topic: string, typeName: string) {
    h.topic == topic && (h.typeName == typeName || h.typeName == GENERIC_TYPE)
  }

  /** The nodes registered with a publisher: one entry for each local handler
      of its topic for its type or for any type, in order. */
  lemma {:induction false} NodesForIs(handlers: seq<LocalHandler>, topic: string, typeName: string, i: nat)
    requires i < |handlers|
    ensures NodesFor(handlers, topic, typeName)
         == NodesFor(handlers[..i], topic, typeName)
            + (if Listens(handlers[i], topic, typeName) then [handlers[i].nUuid] else [])
            + NodesFor(handlers[i + 1..], topic, typeName)
  {
    var k := |handlers| - 1;
    if i < k {
      NodesForIs(handlers[..k], topic, typeName, i);
      assert handlers[..k][..i] == handlers[..i] && handlers[..k][i + 1..] == handlers[i + 1..][..k - i - 1];
    } else {
      assert handlers[i + 1..] == [];
    }
  }

  lemma {:induction false} NodesForMembers(handlers: seq<LocalHandler>, topic: string, typeName: string)
    ensures forall n :: n in NodesFor(handlers, topic, typeName) <==>
              exists i :: 0 <= i < |handlers| && Listens(handlers[i], topic, typeName) && handlers[i].nUuid == n
  {
    if handlers != [] {
      var k := |handlers| - 1;
      NodesForMembers(handlers[..k], topic, typeName);
      assert forall i :: 0 <= i < k ==> handlers[..k][i] == handlers[i];
      forall n | n in NodesFor(handlers, topic, typeName)
        ensures exists i :: 0 <= i < |handlers| && Listens(handlers[i], topic, typeName) && handlers[i].nUuid == n
      {
        if n in NodesFor(handlers[..k], topic, typeName) {
          var i :| 0 <= i < k && Listens(handlers[..k][i], topic, typeName) && handlers[..k][i].nUuid == n;
          assert Listens(handlers[i], topic, typeName);
        } else {
          assert Listens(handlers[k], topic, typeName);
        }
      }
    }
  }

  /** The local node of handler `h`, registered with a remote publisher. */
  function RegistrationOf(cfg: Config, pub: Pub, h: LocalHandler): Pub {
    pub.(pUuid := cfg.pUuid, ctrl := pub.pUuid, nUuid := h.nUuid)
  }

  /** A publisher of another process gets a registration of each local node
      that listens to its topic and type; an own one gets none. */
  lemma RegistrationsAre(cfg: Config, handlers: seq<LocalHandler>, pub: Pub)
    ensures forall x :: x in Registrations(cfg, handlers, pub) <==>
              && pub.pUuid != cfg.pUuid
              && exists h :: h in handlers && Listens(h, pub.topic, pub.typeName) && x == RegistrationOf(cfg, pub, h)
  {
    NodesForMembers(handlers, pub.topic, pub.typeName);
    var nodes, regs := NodesFor(handlers, pub.topic, pub.typeName), Registrations(cfg, handlers, pub);
    hide NodesFor;
    forall h | h in handlers && Listens(h, pub.topic, pub.typeName) && pub.pUuid != cfg.pUuid
      ensures RegistrationOf(cfg, pub, h) in regs
    {
      assert HasSubscriber(handlers, pub.topic);
      assert h.nUuid in nodes;
      var j :| 0 <= j < |nodes| && nodes[j] == h.nUuid;
      assert regs[j] == RegistrationOf(cfg, pub, h);
    }
    forall x | x in regs
      ensures exists h :: h in handlers && Listens(h, pub.topic, pub.typeName) && x == RegistrationOf(cfg, pub, h)
    {
      var j :| 0 <= j < |regs| && regs[j] == x;
      assert nodes[j] in nodes;
    }
  }

  lemma {:induction false} SentAllCasts(cfg: Config, relays: seq<string>, typ: MsgType, pubs: seq<Pub>)
    ensures forall x :: Multicast(x) in SentAll(cfg, relays, typ, pubs) <==>
              exists p :: p in pubs && x == Built(cfg, typ, p)
  {
    if pubs != [] {
      var k := |pubs| - 1;
      SentAllCasts(cfg, relays, typ, pubs[..k]);
      assert pubs == pubs[..k] + [pubs[k]];
      forall x
        ensures Multicast(x) in Sent(cfg, relays, typ, pubs[k]) <==> x == Built(cfg, typ, pubs[k])
      {
        assert Sent(cfg, relays, typ, pubs[k])[0] == Multicast(Built(cfg, typ, pubs[k]));
      }
      hide Sent, Built;
    }
  }

  /** A message about an own publisher. */
  function OwnMsg(cfg: Config, typ: MsgType, pub: Pub): Msg {
    Msg(cfg.version, typ, cfg.pUuid, NoFlags, Some(pub), None)
  }

  /** What a message of another process is answered with, to the group: a new
      publisher with registrations, a SUBSCRIBE with the visible own
      publishers of its topic, a SUBSCRIBERS_REQ with all local subscriptions,
      and nothing else with anything. */
  ghost predicate IsAnswer(cfg: Config, d: Disc, m: Msg, local: bool, x: Msg) {
    match m.typ
    case ADVERTISE =>
      var pub := Received(m);
      && !Hidden(pub.scope, local) && pub.pUuid != cfg.pUuid
      && (forall z :: Has(d.info, z) ==> !SameEntry(z, pub))
      && exists h :: h in d.handlers && Listens(h, pub.topic, pub.typeName)
                     && x == OwnMsg(cfg, NEW_CONNECTION, RegistrationOf(cfg, pub, h))
    case SUBSCRIBE =>
      && m.sub.Some? && x.pub.Some? && x == OwnMsg(cfg, ADVERTISE, x.pub.value)
      && var p := x.pub.value;
         Has(d.info, p) && p.topic == m.sub.value && p.pUuid == cfg.pUuid && !Hidden(p.scope, local)
    case SUBSCRIBERS_REQ =>
      exists h :: h in d.handlers
                  && x == OwnMsg(cfg, SUBSCRIBERS_REP,
                                 Pub(h.topic, cfg.address, "", cfg.pUuid, h.nUuid, h.typeName, ALL))
    case _ => false
  }

  lemma AnswersAre(cfg: Config, d: Disc, m: Msg, fromIp: string, now: int, x: Msg)
    requires Tables(d) && m.version == cfg.version && m.sender != cfg.pUuid && !(m.flags.Flags? && m.flags.relay)
    ensures Multicast(x) in Dispatched(cfg, d, m, fromIp, now).1 <==>
              IsAnswer(cfg, d, m, IsSenderLocal(cfg, fromIp), x)
  {
    var d1, local := d.(activity := d.activity[m.sender := now]), IsSenderLocal(cfg, fromIp);
    var forwarded := if IsFinal(m) then [] else ToRelays(d.relays, WithRelayFlag(m));
    var answers := Handled(cfg, d1, m, local).1;
    assert Multicast(x) !in forwarded;
    assert Multicast(x) in Dispatched(cfg, d, m, fromIp, now).1 <==> Multicast(x) in answers;
    assert IsAnswer(cfg, d, m, local, x) == IsAnswer(cfg, d1, m, local, x);
    hide Dispatched, IsAnswer;
    HandledAnswers(cfg, d1, m, local, x);
  }

  lemma HandledAnswers(cfg: Config, d: Disc, m: Msg, local: bool, x: Msg)
    requires Tables(d)
    ensures Multicast(x) in Handled(cfg, d, m, local).1 <==> IsAnswer(cfg, d, m, local, x)
  {
    match m.typ
    case ADVERTISE => AdvertiseAnswers(cfg, d, m, local, x);
    case SUBSCRIBE => SubscribeAnswers(cfg, d, m, local, x);
    case SUBSCRIBERS_REQ => RequestAnswers(cfg, d, m, x);
    case _ =>
  }

  lemma AdvertiseAnswers(cfg: Config, d: Disc, m: Msg, local: bool, x: Msg)
    requires Tables(d) && m.typ == ADVERTISE
    ensures Multicast(x) in Handled(cfg, d, m, local).1 <==> IsAnswer(cfg, d, m, local, x)
  {
    var pub := Received(m);
    EntryIff(d.info, pub);
    RegistrationsAreSent(cfg, d.relays, d.handlers, pub, x);
    hide Registrations, SentAll, WellFormed, Has, HasEntry, Listens, Received, ListAt, Added;
    hide SameEntry, OwnMsg, RegistrationOf;
  }

  lemma RegistrationsAreSent(cfg: Config, relays: seq<string>, handlers: seq<LocalHandler>, pub: Pub, x: Msg)
    ensures Multicast(x) in SentAll(cfg, relays, NEW_CONNECTION, Registrations(cfg, handlers, pub)) <==>
              && pub.pUuid != cfg.pUuid
              && exists h :: h in handlers && Listens(h, pub.topic, pub.typeName)
                             && x == OwnMsg(cfg, NEW_CONNECTION, RegistrationOf(cfg, pub, h))
  {
    var regs := Registrations(cfg, handlers, pub);
    hide Registrations, SentAll, Listens, RegistrationOf;
    SentAllCasts(cfg, relays, NEW_CONNECTION, regs);
    RegistrationsAre(cfg, handlers, pub);
    if Multicast(x) in SentAll(cfg, relays, NEW_CONNECTION, regs) {
      var p :| p in regs && x == Built(cfg, NEW_CONNECTION, p);
      var h :| h in handlers && Listens(h, pub.topic, pub.typeName) && p == RegistrationOf(cfg, pub, h);
      assert x == OwnMsg(cfg, NEW_CONNECTION, RegistrationOf(cfg, pub, h));
    }
    forall h | h in handlers && Listens(h, pub.topic, pub.typeName) && pub.pUuid != cfg.pUuid
               && x == OwnMsg(cfg, NEW_CONNECTION, RegistrationOf(cfg, pub, h))
      ensures Multicast(x) in SentAll(cfg, relays, NEW_CONNECTION, regs)
    {
      assert RegistrationOf(cfg, pub, h) in regs;
      assert x == Built(cfg, NEW_CONNECTION, RegistrationOf(cfg, pub, h));
    }
  }

  lemma SubscribeAnswers(cfg: Config, d: Disc, m: Msg, local: bool, x: Msg)
    requires Tables(d) && m.typ == SUBSCRIBE
    ensures Multicast(x) in Handled(cfg, d, m, local).1 <==> IsAnswer(cfg, d, m, local, x)
  {
    if m.sub.Some? {
      var own := ListAt(d.info, m.sub.value, cfg.pUuid);
      ListIsGood(d.info, m.sub.value, cfg.pUuid);
      assert forall p :: p in own <==> Has(d.info, p) && p.topic == m.sub.value && p.pUuid == cfg.pUuid;
      hide SentAll, VisibleOnly, WellFormed, Has, ListAt, GoodList, Received;
      VisibleOnlyIs(own, local);
      SentAllCasts(cfg, d.relays, ADVERTISE, VisibleOnly(own, local));
    }
  }

  lemma RequestAnswers(cfg: Config, d: Disc, m: Msg, x: Msg)
    requires m.typ == SUBSCRIBERS_REQ
    ensures Multicast(x) in SentAll(cfg, d.relays, SUBSCRIBERS_REP, Converted(cfg, d.handlers)) <==>
              IsAnswer(cfg, d, m, true, x)
  {
    var subs := Converted(cfg, d.handlers);
    SentAllCasts(cfg, d.relays, SUBSCRIBERS_REP, subs);
    hide SentAll;
    forall h | h in d.handlers
      ensures Pub(h.topic, cfg.address, "", cfg.pUuid, h.nUuid, h.typeName, ALL) in subs
    {
      var i :| 0 <= i < |d.handlers| && d.handlers[i] == h;
      assert subs[i] in subs;
    }
    forall p | p in subs
      ensures exists h :: h in d.handlers && p == Pub(h.topic, cfg.address, "", cfg.pUuid, h.nUuid, h.typeName, ALL)
    {
      var i :| 0 <= i < |subs| && subs[i] == p;
      assert d.handlers[i] in d.handlers;
    }
  }

  /** Honest messages in, honest messages out: no step of one process can put
      a foreign process UUID on the wire. */
  lemma DispatchKeepsHonesty(cfg: Config, d: Disc, m: Msg, fromIp: string, now: int)
    requires Tables(d) && Honest(m)
    ensures HonestOut(Dispatched(cfg, d, m, fromIp, now).1)
  {
    if !Ignored(cfg, m) && !IsRelayed(m) {
      var local := IsSenderLocal(cfg, fromIp);
      match m.typ
      case ADVERTISE => SentAllHonest(cfg, d.relays, NEW_CONNECTION, Registrations(cfg, d.handlers, Received(m)));
      case SUBSCRIBE =>
        var own := ListAt(d.info, m.sub.value, cfg.pUuid);
        ListIsGood(d.info, m.sub.value, cfg.pUuid);
        VisibleOnlyIs(own, local);
        SentAllHonest(cfg, d.relays, ADVERTISE, VisibleOnly(own, local));
      case SUBSCRIBERS_REQ => SentAllHonest(cfg, d.relays, SUBSCRIBERS_REP, Converted(cfg, d.handlers));
      case _ =>
    }
  }

  /** The table edits of the switch, one at a time. */
  lemma AddKeepsNoOrphans(cfg: Config, d: Disc, pub: Pub)
    requires NoOrphans(cfg, d)
    ensures pub.pUuid in d.activity || pub.pUuid == cfg.pUuid ==> NoOrphans(cfg, d.(info := Added(d.info, pub)))
    ensures pub.pUuid in d.activity ==> NoOrphans(cfg, d.(remoteSubscribers := Added(d.remoteSubscribers, pub)))
  {
    AddedHas(d.info, pub);
    AddedHas(d.remoteSubscribers, pub);
  }

  lemma RemoveNodeKeepsNoOrphans(cfg: Config, d: Disc, t: string, p: string, n: string)
    requires NoOrphans(cfg, d)
    ensures NoOrphans(cfg, d.(info := WithoutNode(d.info, t, p, n)))
    ensures NoOrphans(cfg, d.(remoteSubscribers := WithoutNode(d.remoteSubscribers, t, p, n)))
  {
    WithoutNodeHas(d.info, t, p, n);
    WithoutNodeHas(d.remoteSubscribers, t, p, n);
  }

  lemma RemoveProcKeepsNoOrphans(cfg: Config, d: Disc, p: string)
    requires NoOrphans(cfg, d)
    ensures NoOrphans(cfg, d.(activity := d.activity - {p}, info := WithoutProc(d.info, p),
                              remoteSubscribers := WithoutProc(d.remoteSubscribers, p)))
  {
    WithoutProcHas(d.info, p);
    WithoutProcHas(d.remoteSubscribers, p);
  }

  lemma HandleKeepsNoOrphans(cfg: Config, d: Disc, m: Msg, senderLocal: bool)
    requires NoOrphans(cfg, d) && Honest(m) && m.sender in d.activity
    ensures NoOrphans(cfg, Handled(cfg, d, m, senderLocal).0)
  {
    var pub := Received(m);
    match m.typ
    case ADVERTISE => AddKeepsNoOrphans(cfg, d, pub);
    case SUBSCRIBERS_REP => AddKeepsNoOrphans(cfg, d, pub);
    case END_CONNECTION => RemoveNodeKeepsNoOrphans(cfg, d, pub.topic, pub.pUuid, pub.nUuid);
    case UNADVERTISE => RemoveNodeKeepsNoOrphans(cfg, d, pub.topic, pub.pUuid, pub.nUuid);
    case BYE => RemoveProcKeepsNoOrphans(cfg, d, m.sender);
    case _ =>
  }

  lemma DispatchKeepsNoOrphans(cfg: Config, d: Disc, m: Msg, fromIp: string, now: int)
    requires NoOrphans(cfg, d) && Honest(m)
    ensures NoOrphans(cfg, Dispatched(cfg, d, m, fromIp, now).0)
  {
    if !Ignored(cfg, m) && !IsRelayed(m) {
      var d1 := d.(activity := d.activity[m.sender := now]);
      assert NoOrphans(cfg, d1);
      HandleKeepsNoOrphans(cfg, d1, m, IsSenderLocal(cfg, fromIp));
    }
  }

  /** A dishonest message does break it: the honesty premise is needed. */
  lemma ForgedAdvertiseOrphans(cfg: Config, now: int)
    requires cfg.pUuid == "me"
    ensures var d := Disc(map[], map[], map[], [], []);
            var m := Msg(cfg.version, ADVERTISE, "a", NoFlags, Some(Pub("t", "", "", "b", "n", "", ALL)), None);
            NoOrphans(cfg, d) && !NoOrphans(cfg, Dispatched(cfg, d, m, "10.0.0.1", now).0)
  {
    var d := Disc(map[], map[], map[], [], []);
    var x := Pub("t", "", "", "b", "n", "", ALL);
    var m := Msg(cfg.version, ADVERTISE, "a", NoFlags, Some(x), None);
    AddedHas(d.info, x);
    var d' := Dispatched(cfg, d, m, "10.0.0.1", now).0;
    assert Has(d'.info, x) && x.pUuid !in d'.activity;
  }

  lemma AdvertiseKeepsNoOrphans(cfg: Config, d: Disc, pub: Pub)
    requires NoOrphans(cfg, d) && pub.pUuid == cfg.pUuid
    ensures NoOrphans(cfg, Advertised(cfg, d, pub).0)
    ensures HonestOut(Advertised(cfg, d, pub).1)
  {
    AddKeepsNoOrphans(cfg, d, pub);
    SentAllHonest(cfg, d.relays, NEW_CONNECTION, Registrations(cfg, d.handlers, pub));
  }

  lemma UnadvertiseKeepsNoOrphans(cfg: Config, d: Disc, topic: string, nUuid: string)
    requires NoOrphans(cfg, d)
    ensures NoOrphans(cfg, Unadvertised(cfg, d, topic, nUuid).0)
    ensures HonestOut(Unadvertised(cfg, d, topic, nUuid).1)
  {
    RemoveNodeKeepsNoOrphans(cfg, d, topic, cfg.pUuid, nUuid);
    UnadvertiseIsHonest(cfg, d, topic, nUuid);
  }

  lemma UnadvertiseIsHonest(cfg: Config, d: Disc, topic: string, nUuid: string)
    requires Tables(d)
    ensures HonestOut(Unadvertised(cfg, d, topic, nUuid).1)
  {
    ListIsGood(d.info, topic, cfg.pUuid);
  }

  lemma WithoutProcsHas(s: Store, gone: set<string>)
    requires WellFormed(s)
    ensures WellFormed(WithoutProcs(s, gone))
    ensures forall y :: Has(WithoutProcs(s, gone), y) <==> Has(s, y) && y.pUuid !in gone
  {
    var r := WithoutProcs(s, gone);
    forall t, q
      ensures ListAt(r, t, q) == if q in gone then [] else ListAt(s, t, q)
    {
      if t in s && q in s[t] && q !in gone {
        assert q in s[t] - gone;
      }
    }
    forall y
      ensures Has(r, y) <==> Has(s, y) && y.pUuid !in gone
    {
      assert ListAt(r, y.topic, y.pUuid) == if y.pUuid in gone then [] else ListAt(s, y.topic, y.pUuid);
    }
  }

  /** A sweep forgets exactly the expired processes, in all three tables. */
  lemma SweepForgetsExpired(cfg: Config, d: Disc, now: int)
    requires NoOrphans(cfg, d)
    ensures NoOrphans(cfg, Swept(cfg, d, now))
    ensures forall p :: p in Swept(cfg, d, now).activity <==> p in d.activity && !Expired(cfg, d.activity[p], now)
    ensures forall x :: Has(Swept(cfg, d, now).info, x)
              <==> Has(d.info, x) && (x.pUuid == cfg.pUuid || !Expired(cfg, d.activity[x.pUuid], now))
    ensures forall x :: Has(Swept(cfg, d, now).remoteSubscribers, x)
              <==> Has(d.remoteSubscribers, x) && !Expired(cfg, d.activity[x.pUuid], now)
  {
    var gone := ExpiredProcs(cfg, d.activity, now);
    WithoutProcsHas(d.info, gone);
    WithoutProcsHas(d.remoteSubscribers, gone);
  }

  /** Everything that can change one process's tables. */
  datatype Event =
    | Receive(m: Msg, fromIp: string, now: int)
    | Sweep(now: int)
    | UserAdvertise(pub: Pub)
    | UserUnadvertise(topic: string, nUuid: string)

  function After(cfg: Config, d: Disc, e: Event): Disc {
    match e
    case Receive(m, fromIp, now) => Dispatched(cfg, d, m, fromIp, now).0
    case Sweep(now) => Swept(cfg, d, now)
    case UserAdvertise(pub) => Advertised(cfg, d, pub).0
    case UserUnadvertise(topic, nUuid) => Unadvertised(cfg, d, topic, nUuid).0
  }

  function AfterAll(cfg: Config, d: Disc, events: seq<Event>): Disc {
    if events == [] then d
    else After(cfg, AfterAll(cfg, d, events[..|events| - 1]), events[|events| - 1])
  }

  predicate Legal(cfg: Config, e: Event) {
    match e
    case Receive(m, _, _) => Honest(m)
    case UserAdvertise(pub) => pub.pUuid == cfg.pUuid
    case _ => true
  }

  /** No orphans at any point of any run from empty tables, as long as the
      received messages are honest and users advertise under the own UUID. */
  lemma {:induction false} RunsKeepNoOrphans(cfg: Config, d: Disc, events: seq<Event>)
    requires NoOrphans(cfg, d)
    requires forall i :: 0 <= i < |events| ==> Legal(cfg, events[i])
    ensures NoOrphans(cfg, AfterAll(cfg, d, events))
  {
    if events != [] {
      var k := |events| - 1;
      RunsKeepNoOrphans(cfg, d, events[..k]);
      var before := AfterAll(cfg, d, events[..k]);
      assert Legal(cfg, events[k]);
      match events[k]
      case Receive(m, fromIp, now) => DispatchKeepsNoOrphans(cfg, before, m, fromIp, now);
      case Sweep(now) => SweepForgetsExpired(cfg, before, now);
      case UserAdvertise(pub) => AdvertiseKeepsNoOrphans(cfg, before, pub);
      case UserUnadvertise(topic, nUuid) => UnadvertiseKeepsNoOrphans(cfg, before, topic, nUuid);
    }
  }
}
