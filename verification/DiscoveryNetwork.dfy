// Any number of processes exchanging discovery datagrams: once users and
// timers stop, every burst of traffic dies out.
module DiscoveryNetwork {
  import opened Options
  import opened TopicStore
  import opened DiscoveryProtocol

  datatype Node = Node(cfg: Config, d: Disc, ip: string)
  datatype Packet = Packet(to: nat, fromIp: string, m: Msg)

  /** `copies` is the most interfaces over which one multicast can reach the
      same process. */
  datatype Net = Net(nodes: seq<Node>, copies: nat, wire: seq<Packet>)

  /** The most receptions of one multicast. */
  function Receptions(net: Net): nat {
    |net.nodes| * net.copies
  }

  // ---- Steps ----

  /** Who receives a datagram: a multicast any processes, one more than once
      when it joined the group on several interfaces; a unicast at most one
      process. Any grouping of processes and any loss. */
  predicate Routable(processes: nat, receptions: nat, o: Outgoing, to: seq<nat>) {
    && (forall k :: 0 <= k < |to| ==> to[k] < processes)
    && |to| <= (if o.Multicast? then receptions else 1)
  }

  function Copies(fromIp: string, m: Msg, to: seq<nat>): seq<Packet> {
    seq(|to|, k requires 0 <= k < |to| => Packet(to[k], fromIp, m))
  }

  function Packets(fromIp: string, out: seq<Outgoing>, routes: seq<seq<nat>>): seq<Packet>
    requires |routes| == |out|
  {
    if out == [] then [] else Copies(fromIp, out[0].msg, routes[0]) + Packets(fromIp, out[1..], routes[1..])
  }

  /** Deliver the i-th datagram in flight at time `now`; `routes` says where
      the answers go. Datagrams may overtake each other. */
  datatype Delivery = Delivery(i: nat, now: int, routes: seq<seq<nat>>)

  function Answer(net: Net, i: nat, now: int): (Disc, seq<Outgoing>)
    requires i < |net.wire| && net.wire[i].to < |net.nodes|
  {
    var p := net.wire[i];
    Dispatched(net.nodes[p.to].cfg, net.nodes[p.to].d, p.m, p.fromIp, now)
  }

  predicate Possible(net: Net, s: Delivery) {
    && s.i < |net.wire|
    && net.wire[s.i].to < |net.nodes|
    && var out := Answer(net, s.i, s.now).1;
       |s.routes| == |out| && forall k :: 0 <= k < |out| ==> Routable(|net.nodes|, Receptions(net), out[k], s.routes[k])
  }

  function Delivered(net: Net, s: Delivery): Net
    requires Possible(net, s)
  {
    var p := net.wire[s.i];
    var node := net.nodes[p.to];
    var (d', out) := Answer(net, s.i, s.now);
    net.(nodes := net.nodes[p.to := node.(d := d')],
         wire := net.wire[..s.i] + net.wire[s.i + 1..] + Packets(node.ip, out, s.routes))
  }

  ghost predicate PossibleRun(net: Net, run: seq<Delivery>)
    decreases |run|
  {
    run == [] || (Possible(net, run[0]) && PossibleRun(Delivered(net, run[0]), run[1..]))
  }

  function AfterRun(net: Net, run: seq<Delivery>): Net
    requires PossibleRun(net, run)
    decreases |run|
  {
    if run == [] then net else AfterRun(Delivered(net, run[0]), run[1..])
  }

  // ---- The measure ----

  /** Fan-out limits: receptions of a multicast, distinct addresses, answers
      per message. */
  datatype Bounds = Bounds(receptions: nat, addresses: nat, answers: nat)

  /** SUBSCRIBE may cause ADVERTISE, which may cause NEW_CONNECTION;
      SUBSCRIBERS_REQ may cause SUBSCRIBERS_REP; the rest cause nothing. */
  function Level(t: MsgType): nat {
    match t
    case SUBSCRIBE => 2
    case ADVERTISE => 1
    case SUBSCRIBERS_REQ => 1
    case _ => 0
  }

  function AnswersWeight(b: Bounds, level: nat): nat
    decreases level, 0
  {
    if level == 0 then 0 else b.answers * BurstWeight(b, level - 1)
  }

  function FinalWeight(b: Bounds, level: nat): nat
    decreases level, 1
  {
    1 + AnswersWeight(b, level)
  }

  function RelayWeight(b: Bounds, level: nat): nat
    decreases level, 2
  {
    1 + b.receptions * FinalWeight(b, level)
  }

  function PlainWeight(b: Bounds, level: nat): nat
    decreases level, 3
  {
    1 + AnswersWeight(b, level) + b.addresses * RelayWeight(b, level)
  }

  /** One SendMsg: a multicast plus a unicast to every relay. */
  function BurstWeight(b: Bounds, level: nat): nat
    decreases level, 4
  {
    b.receptions * PlainWeight(b, level) + b.addresses * RelayWeight(b, level)
  }

  function Weight(b: Bounds, m: Msg): nat {
    if IsRelayed(m) then RelayWeight(b, Level(m.typ))
    else if IsFinal(m) then FinalWeight(b, Level(m.typ))
    else PlainWeight(b, Level(m.typ))
  }

  function Measure(b: Bounds, wire: seq<Packet>): nat {
    if wire == [] then 0 else Weight(b, wire[0].m) + Measure(b, wire[1..])
  }

  function OutWeight(b: Bounds, out: seq<Outgoing>): nat {
    if out == [] then 0
    else
      var w := Weight(b, out[0].msg);
      (if out[0].Multicast? then b.receptions * w else w) + OutWeight(b, out[1..])
  }

  lemma MulMono(a: nat, b: nat, c: nat)
    requires a <= b
    ensures a * c <= b * c
  {
  }

  lemma MulSucc(a: nat, c: nat)
    ensures (a + 1) * c == a * c + c
  {
  }

  lemma {:induction false} MeasureAdds(b: Bounds, u: seq<Packet>, v: seq<Packet>)
    ensures Measure(b, u + v) == Measure(b, u) + Measure(b, v)
  {
    if u == [] {
      assert u + v == v;
    } else {
      assert (u + v)[1..] == u[1..] + v;
      MeasureAdds(b, u[1..], v);
    }
  }

  lemma {:induction false} OutWeightAdds(b: Bounds, u: seq<Outgoing>, v: seq<Outgoing>)
    ensures OutWeight(b, u + v) == OutWeight(b, u) + OutWeight(b, v)
  {
    if u == [] {
      assert u + v == v;
    } else {
      assert (u + v)[1..] == u[1..] + v;
      OutWeightAdds(b, u[1..], v);
    }
  }

  lemma {:induction false} CopiesWeight(b: Bounds, fromIp: string, m: Msg, to: seq<nat>)
    ensures Measure(b, Copies(fromIp, m, to)) == |to| * Weight(b, m)
  {
    if to != [] {
      hide Weight;
      CopiesWeight(b, fromIp, m, to[1..]);
      assert Copies(fromIp, m, to)[1..] == Copies(fromIp, m, to[1..]);
      MulSucc(|to[1..]|, Weight(b, m));
    }
  }

  lemma {:induction false} PacketsWeight(b: Bounds, processes: nat, fromIp: string,
                                         out: seq<Outgoing>, routes: seq<seq<nat>>)
    requires |routes| == |out|
    requires forall k :: 0 <= k < |out| ==> Routable(processes, b.receptions, out[k], routes[k])
    ensures Measure(b, Packets(fromIp, out, routes)) <= OutWeight(b, out)
  {
    if out != [] {
      MeasureAdds(b, Copies(fromIp, out[0].msg, routes[0]), Packets(fromIp, out[1..], routes[1..]));
      CopiesWeight(b, fromIp, out[0].msg, routes[0]);
      PacketsWeight(b, processes, fromIp, out[1..], routes[1..]);
      assert Routable(processes, b.receptions, out[0], routes[0]);
      MulMono(|routes[0]|, if out[0].Multicast? then b.receptions else 1, Weight(b, out[0].msg));
    }
  }

  lemma {:induction false} RelaysWeight(b: Bounds, relays: seq<string>, m: Msg)
    requires IsRelayed(m)
    ensures OutWeight(b, ToRelays(relays, m)) == |relays| * RelayWeight(b, Level(m.typ))
  {
    var w := RelayWeight(b, Level(m.typ));
    if relays != [] {
      RelaysWeight(b, relays[1..], m);
      assert ToRelays(relays, m)[1..] == ToRelays(relays[1..], m);
      assert |relays| * w == w + |relays[1..]| * w;
    }
  }

  lemma SentWeight(b: Bounds, cfg: Config, relays: seq<string>, typ: MsgType, pub: Pub)
    requires |relays| <= b.addresses
    ensures OutWeight(b, Sent(cfg, relays, typ, pub)) <= BurstWeight(b, Level(typ))
  {
    var m := Built(cfg, typ, pub);
    OutWeightAdds(b, [Multicast(m)], ToRelays(relays, WithRelayFlag(m)));
    RelaysWeight(b, relays, WithRelayFlag(m));
    MulMono(|relays|, b.addresses, RelayWeight(b, Level(typ)));
    assert [Multicast(m)][1..] == [];
    assert OutWeight(b, [Multicast(m)]) == b.receptions * PlainWeight(b, Level(typ));
  }

  lemma {:induction false} SentAllWeight(b: Bounds, cfg: Config, relays: seq<string>, typ: MsgType, pubs: seq<Pub>)
    requires |relays| <= b.addresses
    ensures OutWeight(b, SentAll(cfg, relays, typ, pubs)) <= |pubs| * BurstWeight(b, Level(typ))
  {
    var w := BurstWeight(b, Level(typ));
    if pubs != [] {
      var k := |pubs| - 1;
      SentAllWeight(b, cfg, relays, typ, pubs[..k]);
      SentWeight(b, cfg, relays, typ, pubs[k]);
      OutWeightAdds(b, SentAll(cfg, relays, typ, pubs[..k]), Sent(cfg, relays, typ, pubs[k]));
      MulSucc(k, w);
    }
  }

  /** A process within the fan-out limits. */
  ghost predicate Within(b: Bounds, addrs: set<string>, node: Node) {
    && Tables(node.d)
    && |node.d.handlers| <= b.answers
    && (forall t :: |ListAt(node.d.info, t, node.cfg.pUuid)| <= b.answers)
    && node.ip in addrs
    && Distinct(node.d.relays)
    && (forall k :: 0 <= k < |node.d.relays| ==> node.d.relays[k] in addrs)
  }

  lemma {:induction false} DistinctFits(s: seq<string>, addrs: set<string>)
    requires Distinct(s) && forall k :: 0 <= k < |s| ==> s[k] in addrs
    ensures |s| <= |addrs|
  {
    if s != [] {
      var k := |s| - 1;
      DistinctFits(s[..k], addrs - {s[k]});
    }
  }

  lemma SwitchWeight(b: Bounds, cfg: Config, d: Disc, m: Msg, senderLocal: bool)
    requires |d.relays| <= b.addresses && |d.handlers| <= b.answers
    requires forall t :: |ListAt(d.info, t, cfg.pUuid)| <= b.answers
    ensures OutWeight(b, Handled(cfg, d, m, senderLocal).1) <= AnswersWeight(b, Level(m.typ))
  {
    match m.typ
    case ADVERTISE =>
      var regs := Registrations(cfg, d.handlers, Received(m));
      NodesForBound(d.handlers, Received(m).topic, Received(m).typeName);
      SentAllWeight(b, cfg, d.relays, NEW_CONNECTION, regs);
      MulMono(|regs|, b.answers, BurstWeight(b, 0));
    case SUBSCRIBE =>
      if m.sub.Some? {
        var own := ListAt(d.info, m.sub.value, cfg.pUuid);
        VisibleOnlyIs(own, senderLocal);
        SentAllWeight(b, cfg, d.relays, ADVERTISE, VisibleOnly(own, senderLocal));
        MulMono(|VisibleOnly(own, senderLocal)|, b.answers, BurstWeight(b, 1));
      }
    case SUBSCRIBERS_REQ =>
      SentAllWeight(b, cfg, d.relays, SUBSCRIBERS_REP, Converted(cfg, d.handlers));
      MulMono(|d.handlers|, b.answers, BurstWeight(b, 0));
    case _ =>
  }

  /** A message weighs more than everything its dispatch sends. */
  lemma DispatchWeight(b: Bounds, cfg: Config, d: Disc, m: Msg, fromIp: string, now: int)
    requires |d.relays| <= b.addresses && |d.handlers| <= b.answers
    requires forall t :: |ListAt(d.info, t, cfg.pUuid)| <= b.answers
    ensures OutWeight(b, Dispatched(cfg, d, m, fromIp, now).1) < Weight(b, m)
  {
    var level := Level(m.typ);
    if Ignored(cfg, m) {
    } else if IsRelayed(m) {
      var final := Multicast(m.(flags := Flags(false, true)));
      assert [final][1..] == [];
      assert OutWeight(b, [final]) == b.receptions * FinalWeight(b, level);
    } else {
      var d1 := d.(activity := d.activity[m.sender := now]);
      SwitchWeight(b, cfg, d1, m, IsSenderLocal(cfg, fromIp));
      var forwarded := if IsFinal(m) then [] else ToRelays(d.relays, WithRelayFlag(m));
      OutWeightAdds(b, forwarded, Handled(cfg, d1, m, IsSenderLocal(cfg, fromIp)).1);
      if !IsFinal(m) {
        RelaysWeight(b, d.relays, WithRelayFlag(m));
        MulMono(|d.relays|, b.addresses, RelayWeight(b, level));
      }
    }
  }

  // ---- The invariant ----

  ghost predicate Inv(b: Bounds, addrs: set<string>, net: Net) {
    && b.receptions == Receptions(net)
    && |addrs| == b.addresses
    && (forall n :: 0 <= n < |net.nodes| ==> Within(b, addrs, net.nodes[n]))
    && AllGood(addrs, |net.nodes|, net.wire)
  }

  ghost predicate GoodPacket(addrs: set<string>, processes: nat, p: Packet) {
    p.to < processes && p.fromIp in addrs && Honest(p.m)
  }

  lemma SwitchKeepsOwn(cfg: Config, d: Disc, m: Msg, senderLocal: bool)
    requires Tables(d) && Honest(m) && m.sender != cfg.pUuid
    ensures var d' := Handled(cfg, d, m, senderLocal).0;
            Tables(d') && d'.relays == d.relays && d'.handlers == d.handlers
            && forall t :: ListAt(d'.info, t, cfg.pUuid) == ListAt(d.info, t, cfg.pUuid)
  {
    hide WellFormed, HasEntry, Has, SentAll, Registrations, VisibleOnly, Converted;
    var pub := Received(m);
    match m.typ
    case ADVERTISE => AddedKeepsOthers(d.info, pub, cfg.pUuid);
    case SUBSCRIBERS_REP => AddedHas(d.remoteSubscribers, pub);
    case END_CONNECTION => WithoutNodeHas(d.remoteSubscribers, pub.topic, pub.pUuid, pub.nUuid);
    case UNADVERTISE => WithoutNodeHas(d.info, pub.topic, pub.pUuid, pub.nUuid);
    case BYE =>
      WithoutProcHas(d.info, m.sender);
      WithoutProcHas(d.remoteSubscribers, m.sender);
    case _ =>
  }

  lemma AddedKeepsOthers(s: Store, pub: Pub, p: string)
    requires WellFormed(s) && pub.pUuid != p
    ensures WellFormed(Added(s, pub))
    ensures forall t :: ListAt(Added(s, pub), t, p) == ListAt(s, t, p)
  {
    AddedHas(s, pub);
    var v := ListAt(s, pub.topic, pub.pUuid);
    forall t
      ensures ListAt(Added(s, pub), t, p) == ListAt(s, t, p)
    {
      if !HasEntry(v, pub) && t == pub.topic {
        assert p in Added(s, pub)[t] <==> t in s && p in s[t];
      }
    }
  }

  lemma DispatchKeepsWithin(b: Bounds, addrs: set<string>, node: Node, m: Msg, fromIp: string, now: int)
    requires Within(b, addrs, node) && Honest(m) && fromIp in addrs
    ensures Within(b, addrs, node.(d := Dispatched(node.cfg, node.d, m, fromIp, now).0))
  {
    if !Ignored(node.cfg, m) && !IsRelayed(m) {
      var d1 := node.d.(activity := node.d.activity[m.sender := now]);
      SwitchKeepsOwn(node.cfg, d1, m, IsSenderLocal(node.cfg, fromIp));
    }
  }

  ghost predicate AllGood(addrs: set<string>, processes: nat, wire: seq<Packet>) {
    forall k :: 0 <= k < |wire| ==> GoodPacket(addrs, processes, wire[k])
  }

  lemma {:induction false} PacketsGood(addrs: set<string>, processes: nat, receptions: nat, fromIp: string,
                                       out: seq<Outgoing>, routes: seq<seq<nat>>)
    requires |routes| == |out| && fromIp in addrs && HonestOut(out)
    requires forall k :: 0 <= k < |out| ==> Routable(processes, receptions, out[k], routes[k])
    ensures AllGood(addrs, processes, Packets(fromIp, out, routes))
  {
    if out != [] {
      var rest := Packets(fromIp, out[1..], routes[1..]);
      PacketsGood(addrs, processes, receptions, fromIp, out[1..], routes[1..]);
      var first := Copies(fromIp, out[0].msg, routes[0]);
      assert Honest(out[0].msg) && Routable(processes, receptions, out[0], routes[0]);
      assert AllGood(addrs, processes, first) && AllGood(addrs, processes, rest);
      assert AllGood(addrs, processes, first + rest);
    }
  }

  /** Every delivery keeps the invariant and strictly lowers the measure over
      all messages in flight. */
  lemma DeliveryDecreases(b: Bounds, addrs: set<string>, net: Net, s: Delivery)
    requires Inv(b, addrs, net) && Possible(net, s)
    ensures Inv(b, addrs, Delivered(net, s))
    ensures Measure(b, Delivered(net, s).wire) < Measure(b, net.wire)
  {
    var p := net.wire[s.i];
    var node := net.nodes[p.to];
    assert GoodPacket(addrs, |net.nodes|, p);
    var (d', out) := Answer(net, s.i, s.now);
    var sent := Packets(node.ip, out, s.routes);
    DispatchKeepsWithin(b, addrs, node, p.m, p.fromIp, s.now);
    DispatchKeepsHonesty(node.cfg, node.d, p.m, p.fromIp, s.now);
    PacketsGood(addrs, |net.nodes|, Receptions(net), node.ip, out, s.routes);
    DistinctFits(node.d.relays, addrs);
    DispatchWeight(b, node.cfg, node.d, p.m, p.fromIp, s.now);
    PacketsWeight(b, |net.nodes|, node.ip, out, s.routes);
    RemoveOne(b, net.wire, s.i);
    MeasureAdds(b, net.wire[..s.i] + net.wire[s.i + 1..], sent);
  }

  lemma RemoveOne(b: Bounds, wire: seq<Packet>, i: nat)
    requires i < |wire|
    ensures Measure(b, wire) == Measure(b, wire[..i] + wire[i + 1..]) + Weight(b, wire[i].m)
  {
    MeasureAdds(b, wire[..i], wire[i..]);
    MeasureAdds(b, wire[..i], wire[i + 1..]);
    assert wire == wire[..i] + wire[i..];
    assert wire[i..][1..] == wire[i + 1..];
  }

  lemma {:induction false} RunsAreShort(b: Bounds, addrs: set<string>, net: Net, run: seq<Delivery>)
    requires Inv(b, addrs, net) && PossibleRun(net, run)
    ensures |run| + Measure(b, AfterRun(net, run).wire) <= Measure(b, net.wire)
    ensures Inv(b, addrs, AfterRun(net, run))
    decreases |run|
  {
    if run != [] {
      DeliveryDecreases(b, addrs, net, run[0]);
      RunsAreShort(b, addrs, Delivered(net, run[0]), run[1..]);
    }
  }

  // ---- The theorem, for every network ----

  /** What holds of the processes and the wire in every run: tables well
      formed, relay lists without repetition, messages honest. */
  ghost predicate Sound(net: Net) {
    && (forall n :: 0 <= n < |net.nodes| ==> Tables(net.nodes[n].d) && Distinct(net.nodes[n].d.relays))
    && (forall k :: 0 <= k < |net.wire| ==> net.wire[k].to < |net.nodes| && Honest(net.wire[k].m))
  }

  lemma LongestList(s: Store, p: string) returns (n: nat)
    ensures forall t :: |ListAt(s, t, p)| <= n
  {
    n := 0;
    var todo := s.Keys;
    while todo != {}
      invariant todo <= s.Keys
      invariant forall t :: t !in todo ==> |ListAt(s, t, p)| <= n
      decreases todo
    {
      var t :| t in todo;
      todo := todo - {t};
      n := if |ListAt(s, t, p)| > n then |ListAt(s, t, p)| else n;
    }
  }

  lemma {:induction false} MostAnswers(nodes: seq<Node>) returns (answers: nat)
    ensures forall i :: 0 <= i < |nodes| ==> |nodes[i].d.handlers| <= answers
    ensures forall i, t :: 0 <= i < |nodes| ==> |ListAt(nodes[i].d.info, t, nodes[i].cfg.pUuid)| <= answers
  {
    answers := 0;
    if nodes != [] {
      var k := |nodes| - 1;
      var others := MostAnswers(nodes[..k]);
      var own := LongestList(nodes[k].d.info, nodes[k].cfg.pUuid);
      answers := others + own + |nodes[k].d.handlers|;
      forall i, t | 0 <= i < |nodes|
        ensures |nodes[i].d.handlers| <= answers && |ListAt(nodes[i].d.info, t, nodes[i].cfg.pUuid)| <= answers
      {
        assert i < k ==> nodes[..k][i] == nodes[i];
      }
    }
  }

  function AddressesOf(node: Node): set<string> {
    {node.ip} + set r | r in node.d.relays
  }

  function NodeAddresses(nodes: seq<Node>): (r: set<string>)
    ensures forall n :: 0 <= n < |nodes| ==> AddressesOf(nodes[n]) <= r
  {
    if nodes == [] then {} else
      var k := |nodes| - 1;
      NodeAddresses(nodes[..k]) + AddressesOf(nodes[k])
  }

  /** Fan-out limits exist for every network. */
  lemma BoundsExist(net: Net) returns (b: Bounds, addrs: set<string>)
    requires Sound(net)
    ensures Inv(b, addrs, net)
  {
    addrs := (set k | 0 <= k < |net.wire| :: net.wire[k].fromIp) + NodeAddresses(net.nodes);
    var answers := MostAnswers(net.nodes);
    b := Bounds(Receptions(net), |addrs|, answers);
    forall n | 0 <= n < |net.nodes|
      ensures Within(b, addrs, net.nodes[n])
    {
      var node := net.nodes[n];
      assert AddressesOf(node) <= addrs;
      assert forall k :: 0 <= k < |node.d.relays| ==> node.d.relays[k] in AddressesOf(node);
      assert node.ip in AddressesOf(node);
    }
  }

  /** Quiescence: with no user call and no timer event, the number of
      deliveries from any sound network is bounded, whatever the order, the
      grouping, the losses and the delivery times. */
  lemma TrafficDiesOut(net: Net) returns (bound: nat)
    requires Sound(net)
    ensures forall run :: PossibleRun(net, run) ==> |run| <= bound
  {
    var b, addrs := BoundsExist(net);
    bound := Measure(b, net.wire);
    forall run | PossibleRun(net, run)
      ensures |run| <= bound
    {
      RunsAreShort(b, addrs, net, run);
    }
  }

  /** A run that cannot be extended has delivered everything: while a message
      is in flight some delivery is possible. */
  lemma StuckMeansQuiet(net: Net)
    requires Sound(net)
    ensures (forall s :: !Possible(net, s)) <==> net.wire == []
  {
    if net.wire != [] {
      assert net.wire[0].to < |net.nodes|;
      var out := Answer(net, 0, 0).1;
      var routes: seq<seq<nat>> := seq(|out|, _ => []);
      assert forall k :: 0 <= k < |out| ==> Routable(|net.nodes|, Receptions(net), out[k], routes[k]);
      assert Possible(net, Delivery(0, 0, routes));
    }
  }

  // ---- Soundness is kept by everything the processes do ----

  /** A delivery, a change of one process's tables by a user call or a sweep,
      a change of its subscriptions, or SendMsg calls for own publishers
      (heartbeats, discoveries, registrations, byes and the messages of user
      calls all have this form). */
  datatype Action =
    | Deliver(s: Delivery)
    | Local(n: nat, e: Event)
    | SetHandlers(n: nat, handlers: seq<LocalHandler>)
    | Emit(n: nat, typ: MsgType, pubs: seq<Pub>, routes: seq<seq<nat>>)

  function Emission(net: Net, a: Action): seq<Outgoing>
    requires a.Emit? && a.n < |net.nodes|
  {
    SentAll(net.nodes[a.n].cfg, net.nodes[a.n].d.relays, a.typ, a.pubs)
  }

  predicate Allowed(net: Net, a: Action) {
    match a
    case Deliver(s) => Possible(net, s)
    case Local(n, e) => n < |net.nodes| && !e.Receive? && Legal(net.nodes[n].cfg, e)
    case SetHandlers(n, _) => n < |net.nodes|
    case Emit(n, typ, pubs, routes) =>
      && n < |net.nodes|
      && (forall i :: 0 <= i < |pubs| ==> pubs[i].pUuid == net.nodes[n].cfg.pUuid)
      && |routes| == |Emission(net, a)|
      && forall k :: 0 <= k < |routes| ==> Routable(|net.nodes|, Receptions(net), Emission(net, a)[k], routes[k])
  }

  function Acted(net: Net, a: Action): Net
    requires Allowed(net, a)
  {
    match a
    case Deliver(s) => Delivered(net, s)
    case Local(n, e) =>
      net.(nodes := net.nodes[n := net.nodes[n].(d := After(net.nodes[n].cfg, net.nodes[n].d, e))])
    case SetHandlers(n, handlers) =>
      net.(nodes := net.nodes[n := net.nodes[n].(d := net.nodes[n].d.(handlers := handlers))])
    case Emit(n, _, _, routes) => net.(wire := net.wire + Packets(net.nodes[n].ip, Emission(net, a), routes))
  }

  /** Every action of every process keeps the network sound, so from every
      reachable state the traffic dies out once the users and timers stop. */
  lemma ActionsKeepSound(net: Net, a: Action)
    requires Sound(net) && Allowed(net, a)
    ensures Sound(Acted(net, a))
  {
    match a
    case Deliver(s) =>
      var b, addrs := BoundsExist(net);
      DeliveryDecreases(b, addrs, net, s);
      var after := Delivered(net, s);
      assert forall n :: 0 <= n < |after.nodes| ==> Within(b, addrs, after.nodes[n]);
      assert forall k :: 0 <= k < |after.wire| ==> GoodPacket(addrs, |after.nodes|, after.wire[k]);
    case Local(n, e) =>
      LocalKeepsTables(net.nodes[n].cfg, net.nodes[n].d, e);
    case SetHandlers(_, _) =>
    case Emit(n, typ, pubs, routes) =>
      var node := net.nodes[n];
      SentAllHonest(node.cfg, node.d.relays, typ, pubs);
      PacketsGood({node.ip}, |net.nodes|, Receptions(net), node.ip, Emission(net, a), routes);
      var sent := Packets(node.ip, Emission(net, a), routes);
      assert forall k :: 0 <= k < |sent| ==> GoodPacket({node.ip}, |net.nodes|, sent[k]);
  }

  lemma LocalKeepsTables(cfg: Config, d: Disc, e: Event)
    requires Tables(d) && !e.Receive?
    ensures Tables(After(cfg, d, e)) && After(cfg, d, e).relays == d.relays
  {
    match e
    case Sweep(now) =>
      WithoutProcsHas(d.info, ExpiredProcs(cfg, d.activity, now));
      WithoutProcsHas(d.remoteSubscribers, ExpiredProcs(cfg, d.activity, now));
    case UserAdvertise(pub) => AddedHas(d.info, pub);
    case UserUnadvertise(topic, nUuid) => WithoutNodeHas(d.info, topic, cfg.pUuid, nUuid);
  }

  // ---- Relays reach the other group ----

  /** Routes the one message `o` to process `to`, and loses the others. */
  function RouteOne(out: seq<Outgoing>, o: Outgoing, to: nat): seq<seq<nat>> {
    seq(|out|, k requires 0 <= k < |out| => if out[k] == o then [to] else [])
  }

  lemma {:induction false} RoutedArrives(fromIp: string, out: seq<Outgoing>, o: Outgoing, to: nat)
    requires o in out
    ensures Packet(to, fromIp, o.msg) in Packets(fromIp, out, RouteOne(out, o, to))
  {
    var routes := RouteOne(out, o, to);
    assert routes[1..] == RouteOne(out[1..], o, to);
    if out[0] == o {
      assert Copies(fromIp, o.msg, [to])[0] == Packet(to, fromIp, o.msg);
    } else {
      RoutedArrives(fromIp, out[1..], o, to);
    }
  }

  /** What a delivery does to the processes. */
  lemma DeliveredNodes(net: Net, s: Delivery)
    requires Possible(net, s)
    ensures var net', to := Delivered(net, s), net.wire[s.i].to;
            && |net'.nodes| == |net.nodes| && net'.copies == net.copies
            && net'.nodes[to] == net.nodes[to].(d := Answer(net, s.i, s.now).0)
            && forall n :: 0 <= n < |net.nodes| && n != to ==> net'.nodes[n] == net.nodes[n]
  {
  }

  /** What a process sends on a delivery can reach any process `to`. */
  lemma PassOn(net: Net, i: nat, now: int, o: Outgoing, to: nat) returns (s: Delivery, j: nat)
    requires Sound(net) && i < |net.wire| && to < |net.nodes| && net.copies > 0
    requires o in Answer(net, i, now).1
    ensures s.i == i && s.now == now && Possible(net, s) && Sound(Delivered(net, s))
    ensures j < |Delivered(net, s).wire|
    ensures Delivered(net, s).wire[j] == Packet(to, net.nodes[net.wire[i].to].ip, o.msg)
  {
    var ip, out := net.nodes[net.wire[i].to].ip, Answer(net, i, now).1;
    s := Delivery(i, now, RouteOne(out, o, to));
    MulMono(1, |net.nodes|, net.copies);
    assert Possible(net, s);
    ActionsKeepSound(net, Deliver(s));
    RoutedArrives(ip, out, o, to);
    hide Sound, Answer, RouteOne;
    var packets := Packets(ip, out, s.routes);
    var n :| 0 <= n < |packets| && packets[n] == Packet(to, ip, o.msg);
    j := |net.wire| - 1 + n;
  }

  /** A delivery whose answers are all lost. */
  lemma TakeIn(net: Net, i: nat, now: int) returns (s: Delivery)
    requires Sound(net) && i < |net.wire|
    ensures s.i == i && s.now == now && Possible(net, s)
  {
    var out := Answer(net, i, now).1;
    s := Delivery(i, now, seq(|out|, _ => []));
  }

  lemma HearerForwards(net: Net, i: nat, addr: string, now: int)
    requires Sound(net) && i < |net.wire|
    requires var m, node := net.wire[i].m, net.nodes[net.wire[i].to];
             addr in node.d.relays && (m.flags == NoFlags || m.flags == Flags(false, false)) && !Ignored(node.cfg, m)
    ensures Unicast(addr, net.wire[i].m.(flags := Flags(true, false))) in Answer(net, i, now).1
  {
    var p := net.wire[i];
    var node := net.nodes[p.to];
    var o := Unicast(addr, p.m.(flags := Flags(true, false)));
    PlainIsForwarded(node.cfg, node.d, p.m, p.fromIp, now, o);
    hide Dispatched;
    assert multiset(Answer(net, i, now).1)[o] == 1;
  }

  /** A plain datagram heard by a process that holds the address of a relay in
      another group can reach every process there: the relay gets it with the
      RELAY flag, and that process with NO_RELAY, otherwise as it was. The
      relay then knows where it came through, and the process tracks its
      sender. */
  lemma RelaysReachOtherGroup(net: Net, i: nat, relay: nat, q: nat, addr: string, now: int)
    returns (s1: Delivery, s2: Delivery, s3: Delivery)
    requires Sound(net) && i < |net.wire| && relay < |net.nodes| && q < |net.nodes| && net.copies > 0
    requires var m, hearer := net.wire[i].m, net.nodes[net.wire[i].to];
             && addr in hearer.d.relays && (m.flags == NoFlags || m.flags == Flags(false, false))
             && !Ignored(hearer.cfg, m) && !Ignored(net.nodes[relay].cfg, m) && !Ignored(net.nodes[q].cfg, m)
    ensures s1.i == i && Possible(net, s1) && Possible(Delivered(net, s1), s2)
    ensures Possible(Delivered(Delivered(net, s1), s2), s3) && PossibleRun(net, [s1, s2, s3])
    ensures var m, hearer := net.wire[i].m, net.nodes[net.wire[i].to];
            var net1 := Delivered(net, s1);
            var net2 := Delivered(net1, s2);
            var e := Delivered(net2, s3);
            && e == AfterRun(net, [s1, s2, s3]) && |e.nodes| == |net.nodes|
            && net1.wire[s2.i] == Packet(relay, hearer.ip, m.(flags := Flags(true, false)))
            && net2.wire[s3.i] == Packet(q, net.nodes[relay].ip, m.(flags := Flags(false, true)))
            && hearer.ip in e.nodes[relay].d.relays
            && (m.typ != BYE ==> m.sender in e.nodes[q].d.activity && e.nodes[q].d.activity[m.sender] == now)
  {
    var m, hearer := net.wire[i].m, net.nodes[net.wire[i].to];
    var relayed, final := m.(flags := Flags(true, false)), m.(flags := Flags(false, true));
    hide PossibleRun, Delivered, Possible, Sound, Answer;
    var j1, j2;
    HearerForwards(net, i, addr, now);
    s1, j1 := PassOn(net, i, now, Unicast(addr, relayed), relay);
    var net1 := Delivered(net, s1);
    DeliveredNodes(net, s1);
    RelayAnswers(net1, j1, now);
    s2, j2 := PassOn(net1, j1, now, Multicast(final), q);
    var net2 := Delivered(net1, s2);
    DeliveredNodes(net1, s2);
    s3 := TakeIn(net2, j2, now);
    DeliveredNodes(net2, s3);
    FinalIsTakenIn(net2, j2, now);
    ThreeSteps(net, s1, s2, s3);
  }

  lemma RelayAnswers(net: Net, i: nat, now: int)
    requires Sound(net) && i < |net.wire|
    requires var m := net.wire[i].m; m.flags == Flags(true, false) && !Ignored(net.nodes[net.wire[i].to].cfg, m)
    ensures Answer(net, i, now).1 == [Multicast(net.wire[i].m.(flags := Flags(false, true)))]
    ensures net.wire[i].fromIp in Answer(net, i, now).0.relays
  {
    var p := net.wire[i];
    RelayedIsMulticast(net.nodes[p.to].cfg, net.nodes[p.to].d, p.m, p.fromIp, now);
  }

  lemma FinalIsTakenIn(net: Net, i: nat, now: int)
    requires Sound(net) && i < |net.wire|
    requires var m := net.wire[i].m; m.flags == Flags(false, true) && !Ignored(net.nodes[net.wire[i].to].cfg, m)
    ensures var m, d' := net.wire[i].m, Answer(net, i, now).0;
            && d'.relays == net.nodes[net.wire[i].to].d.relays
            && (m.typ != BYE ==> m.sender in d'.activity && d'.activity[m.sender] == now)
  {
    var p := net.wire[i];
    DispatchTables(net.nodes[p.to].cfg, net.nodes[p.to].d, p.m, p.fromIp, now);
  }

  lemma ThreeSteps(net: Net, s1: Delivery, s2: Delivery, s3: Delivery)
    requires Possible(net, s1) && Possible(Delivered(net, s1), s2)
    requires Possible(Delivered(Delivered(net, s1), s2), s3)
    ensures PossibleRun(net, [s1, s2, s3])
    ensures AfterRun(net, [s1, s2, s3]) == Delivered(Delivered(Delivered(net, s1), s2), s3)
  {
    hide Possible, Delivered;
    assert [s1, s2, s3][1..] == [s2, s3] && [s2, s3][1..] == [s3] && [s3][1..] == [];
    var net2 := Delivered(Delivered(net, s1), s2);
    assert PossibleRun(net2, [s3]) && AfterRun(net2, [s3]) == Delivered(net2, s3);
  }

  // ---- Discovery happens ----

  /** A node subscribes at process `q`, then a node advertises at process `n`:
      the advertisement can reach `q`, which then knows the publisher and sends
      the registration of its subscriber. */
  lemma AdvertisementFindsSubscriber(net: Net, n: nat, q: nat, pub: Pub, h: LocalHandler, now: int)
    returns (routes: seq<seq<nat>>, s: Delivery)
    requires Sound(net) && n < |net.nodes| && q < |net.nodes| && n != q && net.copies > 0
    requires var a, b := net.nodes[n].cfg, net.nodes[q].cfg;
             && a.version == b.version && a.pUuid != b.pUuid && pub.pUuid == a.pUuid && pub.scope == ALL
             && Listens(h, pub.topic, pub.typeName)
             && forall z :: Has(net.nodes[q].d.info, z) ==> !SameEntry(z, pub)
    ensures Allowed(net, SetHandlers(q, [h]))
    ensures Allowed(Acted(net, SetHandlers(q, [h])), Local(n, UserAdvertise(pub)))
    ensures var net2 := Acted(Acted(net, SetHandlers(q, [h])), Local(n, UserAdvertise(pub)));
            && (exists z :: Has(net2.nodes[n].d.info, z) && SameEntry(z, pub))
            && Allowed(net2, Emit(n, ADVERTISE, [pub], routes))
            && var net3 := Acted(net2, Emit(n, ADVERTISE, [pub], routes));
               && Possible(net3, s) && net3.wire[s.i].to == q
               && Has(Answer(net3, s.i, s.now).0.info, pub)
               && Multicast(OwnMsg(net.nodes[q].cfg, NEW_CONNECTION, RegistrationOf(net.nodes[q].cfg, pub, h)))
                  in Answer(net3, s.i, s.now).1
  {
    var net1 := Acted(net, SetHandlers(q, [h]));
    var net2 := Acted(net1, Local(n, UserAdvertise(pub)));
    assert Allowed(net, SetHandlers(q, [h])) && Allowed(net1, Local(n, UserAdvertise(pub)));
    var node := net1.nodes[n];
    AdvertisedIsKnown(node.cfg, node.d, pub);
    ActionsKeepSound(net, SetHandlers(q, [h]));
    ActionsKeepSound(net1, Local(n, UserAdvertise(pub)));
    var j;
    routes, j := EmitTo(net2, n, q, pub);
    var net3 := Acted(net2, Emit(n, ADVERTISE, [pub], routes));
    ActionsKeepSound(net2, Emit(n, ADVERTISE, [pub], routes));
    s := TakeIn(net3, j, now);
    SubscriberAnswers(net3, j, now, pub, h);
  }

  lemma AdvertisedIsKnown(cfg: Config, d: Disc, pub: Pub)
    requires Tables(d)
    ensures exists z :: Has(Advertised(cfg, d, pub).0.info, z) && SameEntry(z, pub)
  {
    EntryIff(d.info, pub);
    AddedHas(d.info, pub);
    if !HasEntry(ListAt(d.info, pub.topic, pub.pUuid), pub) {
      assert Has(Added(d.info, pub), pub) && SameEntry(pub, pub);
    }
  }

  /** An emission that reaches `q` with its multicast. */
  lemma EmitTo(net: Net, n: nat, q: nat, pub: Pub) returns (routes: seq<seq<nat>>, j: nat)
    requires Sound(net) && n < |net.nodes| && q < |net.nodes| && net.copies > 0 && pub.pUuid == net.nodes[n].cfg.pUuid
    ensures Allowed(net, Emit(n, ADVERTISE, [pub], routes))
    ensures j < |Acted(net, Emit(n, ADVERTISE, [pub], routes)).wire|
    ensures Acted(net, Emit(n, ADVERTISE, [pub], routes)).wire[j]
         == Packet(q, net.nodes[n].ip, OwnMsg(net.nodes[n].cfg, ADVERTISE, pub))
    ensures Acted(net, Emit(n, ADVERTISE, [pub], routes)).nodes == net.nodes
  {
    var node := net.nodes[n];
    var o := Multicast(OwnMsg(node.cfg, ADVERTISE, pub));
    var out := SentAll(node.cfg, node.d.relays, ADVERTISE, [pub]);
    SentAllCasts(node.cfg, node.d.relays, ADVERTISE, [pub]);
    assert pub in [pub] && o in out;
    routes := RouteOne(out, o, q);
    MulMono(1, |net.nodes|, net.copies);
    assert Emission(net, Emit(n, ADVERTISE, [pub], routes)) == out;
    assert Allowed(net, Emit(n, ADVERTISE, [pub], routes));
    RoutedArrives(node.ip, out, o, q);
    hide Sound, SentAll, RouteOne, Allowed;
    var packets := Packets(node.ip, out, routes);
    var k :| 0 <= k < |packets| && packets[k] == Packet(q, node.ip, o.msg);
    j := |net.wire| + k;
  }

  lemma SubscriberAnswers(net: Net, i: nat, now: int, pub: Pub, h: LocalHandler)
    requires Sound(net) && i < |net.wire| && Listens(h, pub.topic, pub.typeName) && pub.scope == ALL
    requires var p, node := net.wire[i], net.nodes[net.wire[i].to];
             && node.d.handlers == [h] && pub.pUuid != node.cfg.pUuid
             && p.m == Msg(node.cfg.version, ADVERTISE, pub.pUuid, NoFlags, Some(pub), None)
             && forall z :: Has(node.d.info, z) ==> !SameEntry(z, pub)
    ensures Has(Answer(net, i, now).0.info, pub)
    ensures Multicast(OwnMsg(net.nodes[net.wire[i].to].cfg, NEW_CONNECTION,
                             RegistrationOf(net.nodes[net.wire[i].to].cfg, pub, h))) in Answer(net, i, now).1
  {
    var p, node := net.wire[i], net.nodes[net.wire[i].to];
    assert h in node.d.handlers;
    DispatchTables(node.cfg, node.d, p.m, p.fromIp, now);
    AnswersAre(node.cfg, node.d, p.m, p.fromIp, now,
               OwnMsg(node.cfg, NEW_CONNECTION, RegistrationOf(node.cfg, pub, h)));
    hide Dispatched, Listens, Has;
  }
}
