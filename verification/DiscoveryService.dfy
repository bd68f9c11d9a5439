// The discovery object itself: tables, timers and outgoing traffic updated in
// place by the reception thread and by user calls (src/Discovery.hh). Every
// method is tied to the functions of DiscoveryProtocol.
module DiscoveryService {
  import opened Options
  import opened TopicStore
  import opened DiscoveryProtocol
  import DiscoveryTiming

  class Discovery {
    const cfg: Config
    const info: TopicStorage
    const remoteSubscribers: TopicStorage
    var activity: map<string, int>
    var relayAddrs: seq<string>
    var handlers: seq<LocalHandler>
    var enabled: bool
    var initialized: bool
    var numHeartbeatsUninitialized: nat
    var timeNextHeartbeat: int
    var timeNextActivity: int
    /** Everything handed to the sockets so far. */
    var outbox: seq<Outgoing>

    ghost predicate Valid()
      reads this, info, remoteSubscribers
    {
      info != remoteSubscribers && Tables(State())
    }

    ghost function State(): Disc
      reads this, info, remoteSubscribers
    {
      Disc(info.data, remoteSubscribers.data, activity, relayAddrs, handlers)
    }

    constructor (cfg: Config)
      ensures Valid() && fresh(info) && fresh(remoteSubscribers)
      ensures this.cfg == cfg && State() == Disc(map[], map[], map[], [], []) && outbox == []
      ensures !enabled && !initialized && numHeartbeatsUninitialized == 0
    {
      this.cfg := cfg;
      info := new TopicStorage();
      remoteSubscribers := new TopicStorage();
      activity, relayAddrs, handlers, outbox := map[], [], [], [];
      enabled, initialized, numHeartbeatsUninitialized := false, false, 0;
      timeNextHeartbeat, timeNextActivity := 0, 0;
    }

    method Start(now: int)
      modifies this`enabled, this`timeNextHeartbeat, this`timeNextActivity
      ensures enabled
      ensures timeNextHeartbeat == if old(enabled) then old(timeNextHeartbeat) else now
      ensures timeNextActivity == if old(enabled) then old(timeNextActivity) else now
    {
      if enabled {
        return;
      }
      enabled := true;
      timeNextHeartbeat := now;
      timeNextActivity := now;
    }

    method AddRelayAddress(ip: string)
      modifies this`relayAddrs
      ensures relayAddrs == WithRelay(old(relayAddrs), ip)
    {
      var i := 0;
      while i < |relayAddrs|
        invariant i <= |relayAddrs|
        invariant forall k :: 0 <= k < i ==> relayAddrs[k] != ip
      {
        if relayAddrs[i] == ip {
          return;
        }
        i := i + 1;
      }
      relayAddrs := relayAddrs + [ip];
    }

    method SendMulticast(m: Msg)
      modifies this`outbox
      ensures outbox == old(outbox) + [Multicast(m)]
    {
      outbox := outbox + [Multicast(m)];
    }

    method SendUnicast(m: Msg)
      modifies this`outbox
      ensures outbox == old(outbox) + ToRelays(relayAddrs, m)
    {
      for i := 0 to |relayAddrs|
        invariant outbox == old(outbox) + ToRelays(relayAddrs, m)[..i]
      {
        outbox := outbox + [Unicast(relayAddrs[i], m)];
      }
    }

    /** Always to DestinationType::ALL, as every caller does. */
    method SendMsg(typ: MsgType, pub: Pub)
      modifies this`outbox
      ensures outbox == old(outbox) + Sent(cfg, relayAddrs, typ, pub)
    {
      var m := Msg(cfg.version, typ, cfg.pUuid, NoFlags, Some(pub), if typ == SUBSCRIBE then Some(pub.topic) else None);
      SendMulticast(m);
      SendUnicast(WithRelayFlag(m));
    }

    method SendEach(typ: MsgType, pubs: seq<Pub>)
      modifies this`outbox
      ensures outbox == old(outbox) + SentAll(cfg, relayAddrs, typ, pubs)
    {
      assert SentAll(cfg, relayAddrs, typ, pubs[..0]) == [];
      hide Sent, SentAll;
      for i := 0 to |pubs|
        invariant outbox == old(outbox) + SentAll(cfg, relayAddrs, typ, pubs[..i])
      {
        SentAllPrefix(cfg, relayAddrs, typ, pubs, i);
        RegroupOut(old(outbox), SentAll(cfg, relayAddrs, typ, pubs[..i]), Sent(cfg, relayAddrs, typ, pubs[i]));
        SendMsg(typ, pubs[i]);
      }
      assert pubs[..|pubs|] == pubs;
    }

    /** NodeShared::OnNewConnection: tell the publisher who listens here. */
    method OnNewConnection(pub: Pub)
      modifies this`outbox
      ensures outbox == old(outbox) + SentAll(cfg, relayAddrs, NEW_CONNECTION, Registrations(cfg, handlers, pub))
    {
      var interested := false;
      for i := 0 to |handlers|
        invariant interested <==> exists k :: 0 <= k < i && handlers[k].topic == pub.topic
      {
        if handlers[i].topic == pub.topic {
          interested := true;
        }
      }
      if interested && cfg.pUuid != pub.pUuid {
        var nodes := NodesFor(handlers, pub.topic, pub.typeName);
        var regs: seq<Pub> := [];
        for i := 0 to |nodes|
          invariant regs == Registrations(cfg, handlers, pub)[..i]
        {
          regs := regs + [pub.(pUuid := cfg.pUuid, ctrl := pub.pUuid, nUuid := nodes[i])];
        }
        assert HasSubscriber(handlers, pub.topic) && regs == Registrations(cfg, handlers, pub);
        SendEach(NEW_CONNECTION, regs);
      }
    }

    method Advertise(pub: Pub) returns (ok: bool)
      requires Valid()
      modifies this`outbox, info
      ensures Valid()
      ensures ok <==> old(enabled) && !HasEntry(ListAt(old(info.data), pub.topic, pub.pUuid), pub)
      ensures old(enabled) ==> State() == Advertised(cfg, old(State()), pub).0
      ensures old(enabled) ==> outbox == old(outbox) + Advertised(cfg, old(State()), pub).1
      ensures !old(enabled) ==> State() == old(State()) && outbox == old(outbox)
    {
      if !enabled {
        return false;
      }
      hide WellFormed, HasEntry, ListAt, Added, Sent, SentAll, Registrations;
      AddedHas(info.data, pub);
      var added := info.AddPublisher(pub);
      if !added {
        return false;
      }
      Announce(pub);
      ok := true;
    }

    /** The connection callback, then the ADVERTISE unless the scope forbids
        it. */
    method Announce(pub: Pub)
      modifies this`outbox
      ensures outbox == old(outbox) + (SentAll(cfg, relayAddrs, NEW_CONNECTION, Registrations(cfg, handlers, pub)) +
                                       if pub.scope != PROCESS then Sent(cfg, relayAddrs, ADVERTISE, pub) else [])
    {
      hide Sent, SentAll, Registrations;
      RegroupOut(outbox, SentAll(cfg, relayAddrs, NEW_CONNECTION, Registrations(cfg, handlers, pub)),
                 if pub.scope != PROCESS then Sent(cfg, relayAddrs, ADVERTISE, pub) else []);
      OnNewConnection(pub);
      if pub.scope != PROCESS {
        SendMsg(ADVERTISE, pub);
      }
    }

    method Unadvertise(topic: string, nUuid: string) returns (ok: bool)
      requires Valid()
      modifies this`outbox, info
      ensures Valid()
      ensures ok <==> old(enabled)
      ensures old(enabled) ==> State() == Unadvertised(cfg, old(State()), topic, nUuid).0
      ensures old(enabled) ==> outbox == old(outbox) + Unadvertised(cfg, old(State()), topic, nUuid).1
      ensures !old(enabled) ==> State() == old(State()) && outbox == old(outbox)
    {
      if !enabled {
        return false;
      }
      hide WellFormed, Has, ListAt, FirstOfNode, WithoutNode, OtherNodes, Sent;
      var found := info.Publisher(topic, cfg.pUuid, nUuid);
      if found.None? {
        return true;
      }
      WithoutNodeHas(info.data, topic, cfg.pUuid, nUuid);
      var removed := info.DelPublisherByNode(topic, cfg.pUuid, nUuid);
      if found.value.scope != PROCESS {
        SendMsg(UNADVERTISE, found.value);
      }
      ok := true;
    }

    method UpdateActivity(now: int, afterwards: int) returns (gone: seq<string>)
      requires Valid()
      modifies this`activity, this`timeNextActivity, info, remoteSubscribers
      ensures Valid()
      ensures now < old(timeNextActivity) ==>
                gone == [] && State() == old(State()) && timeNextActivity == old(timeNextActivity)
      ensures now >= old(timeNextActivity) ==>
                && State() == Swept(cfg, old(State()), now)
                && timeNextActivity == afterwards + cfg.activityMs * NS_PER_MS
                && (forall p :: p in gone <==> p in ExpiredProcs(cfg, old(activity), now))
    {
      gone := [];
      if now < timeNextActivity {
        return;
      }
      ghost var dead := ExpiredProcs(cfg, activity, now);
      WithoutProcsHas(info.data, dead);
      WithoutProcsHas(remoteSubscribers.data, dead);
      WithoutNoProcs(info.data);
      WithoutNoProcs(remoteSubscribers.data);
      gone := EraseExpired(now);
      timeNextActivity := afterwards + cfg.activityMs * NS_PER_MS;
    }

    /** Erase every expired process while walking the activity table. */
    method EraseExpired(now: int) returns (gone: seq<string>)
      requires info != remoteSubscribers
      requires WithoutProcs(info.data, {}) == info.data
      requires WithoutProcs(remoteSubscribers.data, {}) == remoteSubscribers.data
      modifies this`activity, info, remoteSubscribers
      ensures activity == old(activity) - ExpiredProcs(cfg, old(activity), now)
      ensures info.data == WithoutProcs(old(info.data), ExpiredProcs(cfg, old(activity), now))
      ensures remoteSubscribers.data == WithoutProcs(old(remoteSubscribers.data), ExpiredProcs(cfg, old(activity), now))
      ensures forall p :: p in gone <==> p in ExpiredProcs(cfg, old(activity), now)
    {
      gone := [];
      ghost var start, info0, remote0 := activity, info.data, remoteSubscribers.data;
      var todo := activity.Keys;
      ghost var erased: set<string> := {};
      assert activity == start - erased;
      while todo != {}
        invariant todo <= start.Keys
        invariant erased == set p | p in start && p !in todo && Expired(cfg, start[p], now)
        invariant activity == start - erased
        invariant info.data == WithoutProcs(info0, erased)
        invariant remoteSubscribers.data == WithoutProcs(remote0, erased)
        invariant forall p :: p in gone <==> p in erased
        decreases todo
      {
        var p :| p in todo;
        todo := todo - {p};
        var elapsed := now - activity[p];
        if ToMs(elapsed) > cfg.silenceMs {
          WithoutProcsStep(info0, erased, p);
          WithoutProcsStep(remote0, erased, p);
          var r0 := info.DelPublishersByProc(p);
          var r1 := remoteSubscribers.DelPublishersByProc(p);
          gone := gone + [p];
          activity := activity - {p};
          erased := erased + {p};
        }
      }
      assert erased == ExpiredProcs(cfg, start, now);
    }

    /** Send a heartbeat and re-advertise the own publishers, in the order the
        storage lists them. */
    method UpdateHeartbeat(now: int, afterwards: int) returns (order: seq<Pub>)
      requires Valid()
      modifies this`outbox, this`timeNextHeartbeat, this`initialized, this`numHeartbeatsUninitialized
      ensures Valid() && State() == old(State())
      ensures now < old(timeNextHeartbeat) ==>
                && order == [] && outbox == old(outbox) && timeNextHeartbeat == old(timeNextHeartbeat)
                && initialized == old(initialized)
      ensures now >= old(timeNextHeartbeat) ==>
                && Lists(order, info.data, cfg.pUuid)
                && outbox == old(outbox) + Sent(cfg, relayAddrs, HEARTBEAT, Self(cfg))
                             + SentAll(cfg, relayAddrs, ADVERTISE, order)
                && timeNextHeartbeat == afterwards + cfg.heartbeatMs * NS_PER_MS
                && (initialized <==> old(initialized) || old(numHeartbeatsUninitialized) == 2)
                && numHeartbeatsUninitialized == old(numHeartbeatsUninitialized) + if old(initialized) then 0 else 1
    {
      hide WellFormed, Sent, SentAll, Lists, Self;
      order := [];
      if now < timeNextHeartbeat {
        return;
      }
      order := Beat();
      CountHeartbeat(afterwards);
    }

    /** The discovery counts as initialised after its third heartbeat. */
    method CountHeartbeat(afterwards: int)
      modifies this`initialized, this`numHeartbeatsUninitialized, this`timeNextHeartbeat
      ensures initialized <==> old(initialized) || old(numHeartbeatsUninitialized) == 2
      ensures numHeartbeatsUninitialized == old(numHeartbeatsUninitialized) + if old(initialized) then 0 else 1
      ensures timeNextHeartbeat == afterwards + cfg.heartbeatMs * NS_PER_MS
    {
      if !initialized {
        if numHeartbeatsUninitialized == 2 {
          initialized := true;
        }
        numHeartbeatsUninitialized := numHeartbeatsUninitialized + 1;
      }
      timeNextHeartbeat := afterwards + cfg.heartbeatMs * NS_PER_MS;
    }

    method Beat() returns (order: seq<Pub>)
      requires WellFormed(info.data)
      modifies this`outbox
      ensures Lists(order, info.data, cfg.pUuid)
      ensures outbox == old(outbox) + Sent(cfg, relayAddrs, HEARTBEAT, Self(cfg))
                        + SentAll(cfg, relayAddrs, ADVERTISE, order)
    {
      SendMsg(HEARTBEAT, Self(cfg));
      order := Readvertise();
    }

    /** Snapshot the own publishers, then advertise them one by one. */
    method Readvertise() returns (order: seq<Pub>)
      requires WellFormed(info.data)
      modifies this`outbox
      ensures Lists(order, info.data, cfg.pUuid)
      ensures outbox == old(outbox) + SentAll(cfg, relayAddrs, ADVERTISE, order)
    {
      order := info.PublishersByProc(cfg.pUuid);
      SendEach(ADVERTISE, order);
    }

    method NextTimeout(now: int) returns (ms: int)
      ensures ms == TimeoutMs(timeNextHeartbeat, timeNextActivity, now)
    {
      var untilHeartbeat := timeNextHeartbeat - now;
      var untilActivity := timeNextActivity - now;
      var t := ToMs(if untilHeartbeat <= untilActivity then untilHeartbeat else untilActivity);
      var t2 := if t <= POLL_TIMEOUT_MS then t else POLL_TIMEOUT_MS;
      ms := if t2 >= 0 then t2 else 0;
    }

    method DispatchDiscoveryMsg(m: Msg, fromIp: string, now: int)
      requires Valid()
      modifies this`outbox, this`activity, this`relayAddrs, info, remoteSubscribers
      ensures Valid()
      ensures State() == Dispatched(cfg, old(State()), m, fromIp, now).0
      ensures outbox == old(outbox) + Dispatched(cfg, old(State()), m, fromIp, now).1
    {
      hide WellFormed, Handled, WithRelay, Received;
      if cfg.version != m.version {
        return;
      }
      if m.sender == cfg.pUuid {
        return;
      }
      if m.flags.Flags? && m.flags.relay {
        SendMulticast(m.(flags := Flags(false, true)));
        AddRelayAddress(fromIp);
        return;
      }
      if !m.flags.Flags? || !m.flags.noRelay {
        SendUnicast(WithRelayFlag(m));
      }
      var senderLocal := fromIp in cfg.hostInterfaces || "127." <= fromIp;
      activity := activity[m.sender := now];
      Switch(m, senderLocal);
    }

    /** The switch over the message type. */
    method Switch(m: Msg, senderLocal: bool)
      requires Valid()
      modifies this`outbox, this`activity, info, remoteSubscribers
      ensures Valid()
      ensures State() == Handled(cfg, old(State()), m, senderLocal).0
      ensures outbox == old(outbox) + Handled(cfg, old(State()), m, senderLocal).1
    {
      var pub := Received(m);
      match m.typ {
        case ADVERTISE =>
          if Hidden(pub.scope, senderLocal) {
            return;
          }
          AddedHas(info.data, pub);
          var added := info.AddPublisher(pub);
          if added {
            OnNewConnection(pub);
          }
        case SUBSCRIBE =>
          if m.sub.None? {
            return;
          }
          AnswerSubscribe(m.sub.value, senderLocal);
        case SUBSCRIBERS_REQ =>
          var subs := Converted(cfg, handlers);
          SendEach(SUBSCRIBERS_REP, subs);
        case SUBSCRIBERS_REP =>
          AddedHas(remoteSubscribers.data, pub);
          var added := remoteSubscribers.AddPublisher(pub);
        case NEW_CONNECTION =>
        case END_CONNECTION =>
          WithoutNodeHas(remoteSubscribers.data, pub.topic, pub.pUuid, pub.nUuid);
          var removed := remoteSubscribers.DelPublisherByNode(pub.topic, pub.pUuid, pub.nUuid);
        case HEARTBEAT =>
        case BYE =>
          activity := activity - {m.sender};
          WithoutProcHas(info.data, m.sender);
          WithoutProcHas(remoteSubscribers.data, m.sender);
          var r0 := info.DelPublishersByProc(m.sender);
          var r1 := remoteSubscribers.DelPublishersByProc(m.sender);
        case UNADVERTISE =>
          if Hidden(pub.scope, senderLocal) {
            return;
          }
          WithoutNodeHas(info.data, pub.topic, pub.pUuid, pub.nUuid);
          var removed := info.DelPublisherByNode(pub.topic, pub.pUuid, pub.nUuid);
        case UNKNOWN =>
      }
    }

    /** Answer a SUBSCRIBE with the own visible publishers of the topic. */
    method AnswerSubscribe(topic: string, senderLocal: bool)
      modifies this`outbox
      ensures outbox == old(outbox) + SentAll(cfg, relayAddrs, ADVERTISE,
                                              VisibleOnly(ListAt(info.data, topic, cfg.pUuid), senderLocal))
    {
      var any := info.HasAnyPublishers(topic, cfg.pUuid);
      if !any {
        return;
      }
      var found, addresses := info.Publishers(topic);
      AnswerWith(addresses[cfg.pUuid], senderLocal);
    }

    method AnswerWith(own: seq<Pub>, senderLocal: bool)
      modifies this`outbox
      ensures outbox == old(outbox) + SentAll(cfg, relayAddrs, ADVERTISE, VisibleOnly(own, senderLocal))
    {
      ghost var answered: seq<Pub> := [];
      for i := 0 to |own|
        invariant answered == VisibleOnly(own[..i], senderLocal)
        invariant outbox == old(outbox) + SentAll(cfg, relayAddrs, ADVERTISE, answered)
      {
        assert own[..i + 1][..i] == own[..i];
        if Hidden(own[i].scope, senderLocal) {
          continue;
        }
        AnswerOne(own[i], answered);
        answered := answered + [own[i]];
      }
      assert own[..|own|] == own;
    }

    method AnswerOne(pub: Pub, ghost answered: seq<Pub>)
      modifies this`outbox
      ensures forall before: seq<Outgoing> :: old(outbox) == before + SentAll(cfg, relayAddrs, ADVERTISE, answered)
                ==> outbox == before + SentAll(cfg, relayAddrs, ADVERTISE, answered + [pub])
    {
      SentAllSnoc(cfg, relayAddrs, ADVERTISE, answered, pub);
      SendMsg(ADVERTISE, pub);
    }

    ghost function Loop(clock: int): DiscoveryTiming.Loop
      reads this, info, remoteSubscribers
    {
      DiscoveryTiming.Loop(State(), timeNextHeartbeat, timeNextActivity, clock)
    }

    /** The body of RecvMessages' loop after the poll: dispatch what was
        received, then the heartbeat, then the activity check. */
    method RunRound(r: DiscoveryTiming.Round, ghost clock: int)
      requires Valid()
      modifies this, info, remoteSubscribers
      ensures Valid() && Loop(r.sweepDone) == DiscoveryTiming.AfterRound(cfg, old(Loop(clock)), r)
    {
      hide WellFormed, Dispatched, Swept, Sent, SentAll, Self, Lists, ExpiredProcs;
      match r.heard {
        case None =>
        case Some((m, fromIp)) => DispatchDiscoveryMsg(m, fromIp, r.heardAt);
      }
      var order := UpdateHeartbeat(r.beatAt, r.beatDone);
      var gone := UpdateActivity(r.sweepAt, r.sweepDone);
    }
  }
}
