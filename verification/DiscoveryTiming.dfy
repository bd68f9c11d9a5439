// The failure detector's timing: the reception loop of src/Discovery.hh as a
// sequence of rounds on a nanosecond clock.
module DiscoveryTiming {
  import opened Options
  import opened TopicStore
  import opened DiscoveryProtocol

  /** NextTimeout lies in [0, 250] ms, never reaches past the earlier deadline,
      and stops short of it by less than a millisecond unless it is capped. */
  lemma TimeoutBounds(nextHeartbeat: int, nextActivity: int, now: int)
    ensures var ms := TimeoutMs(nextHeartbeat, nextActivity, now);
            var deadline := Min(nextHeartbeat, nextActivity);
            && 0 <= ms <= POLL_TIMEOUT_MS
            && now + ms * NS_PER_MS <= Max(now, deadline)
            && (ms == POLL_TIMEOUT_MS || deadline - NS_PER_MS < now + ms * NS_PER_MS)
  {
  }

  /** The loop between two rounds. */
  datatype Loop = Loop(d: Disc, nextHeartbeat: int, nextActivity: int, clock: int)

  /** One round: the poll ends, perhaps a datagram is dispatched, then the
      heartbeat and the activity check read their clocks. */
  datatype Round = Round(polled: int, heard: Option<(Msg, string)>, heardAt: int,
                         beatAt: int, beatDone: int, sweepAt: int, sweepDone: int)

  /** Scheduling assumptions: the poll returns at most `late` ns after its
      timeout, and the rest of a round takes at most `work` ns. */
  datatype Overhead = Overhead(late: nat, work: nat)

  predicate OnTime(o: Overhead, l: Loop, r: Round) {
    && l.clock <= r.polled <= l.clock + TimeoutMs(l.nextHeartbeat, l.nextActivity, l.clock) * NS_PER_MS + o.late
    && r.polled <= r.heardAt <= r.beatAt <= r.beatDone <= r.sweepAt <= r.sweepDone <= r.polled + o.work
  }

  function Heard(cfg: Config, d: Disc, r: Round): Disc {
    match r.heard
    case None => d
    case Some((m, fromIp)) => Dispatched(cfg, d, m, fromIp, r.heardAt).0
  }

  function AfterRound(cfg: Config, l: Loop, r: Round): Loop {
    var d := Heard(cfg, l.d, r);
    Loop(if r.sweepAt < l.nextActivity then d else Swept(cfg, d, r.sweepAt),
         if r.beatAt < l.nextHeartbeat then l.nextHeartbeat else r.beatDone + cfg.heartbeatMs * NS_PER_MS,
         if r.sweepAt < l.nextActivity then l.nextActivity else r.sweepDone + cfg.activityMs * NS_PER_MS,
         r.sweepDone)
  }

  ghost predicate Rounds(cfg: Config, o: Overhead, l: Loop, rounds: seq<Round>)
    decreases |rounds|
  {
    rounds == [] || (&& OnTime(o, l, rounds[0])
                     && (rounds[0].heard.Some? ==> Honest(rounds[0].heard.value.0))
                     && Rounds(cfg, o, AfterRound(cfg, l, rounds[0]), rounds[1..]))
  }

  function AfterRounds(cfg: Config, l: Loop, rounds: seq<Round>): Loop
    decreases |rounds|
  {
    if rounds == [] then l else AfterRounds(cfg, AfterRound(cfg, l, rounds[0]), rounds[1..])
  }

  // ---- A silent process is gone in time ----

  /** A process not yet expired at a sweep that read its clock at `t`. */
  predicate FreshAt(cfg: Config, since: int, t: int) {
    t < since + (cfg.silenceMs + 1) * NS_PER_MS
  }

  lemma ExpiredIff(cfg: Config, since: int, now: int)
    ensures Expired(cfg, since, now) <==> !FreshAt(cfg, since, now)
  {
  }

  /** `beat` and `sweep` are the clocks the last heartbeat and the last sweep
      read (the start counts as one). */
  ghost predicate LoopInv(cfg: Config, o: Overhead, l: Loop, beat: int, sweep: int) {
    && NoOrphans(cfg, l.d)
    && beat <= l.clock <= l.nextHeartbeat + o.work
    && l.nextHeartbeat <= beat + o.work + cfg.heartbeatMs * NS_PER_MS
    && sweep <= l.clock <= l.nextActivity + o.late + o.work
    && l.nextActivity <= sweep + o.work + cfg.activityMs * NS_PER_MS
    && forall p :: p in l.d.activity ==> FreshAt(cfg, l.d.activity[p], sweep)
  }

  lemma HeardActivity(cfg: Config, d: Disc, r: Round)
    requires NoOrphans(cfg, d) && (r.heard.Some? ==> Honest(r.heard.value.0))
    ensures NoOrphans(cfg, Heard(cfg, d, r))
    ensures forall p :: p in Heard(cfg, d, r).activity ==>
              || Heard(cfg, d, r).activity[p] == r.heardAt
              || (p in d.activity && d.activity[p] == Heard(cfg, d, r).activity[p])
  {
    hide NoOrphans, Honest, Added, SentAll, Registrations, VisibleOnly, Converted, WithoutNode, WithoutProc, ListAt;
    match r.heard
    case None =>
    case Some((m, fromIp)) => DispatchKeepsNoOrphans(cfg, d, m, fromIp, r.heardAt);
  }

  /** A round keeps both deadlines; a heartbeat it sends is not later than the
      bound after the one before. */
  lemma RoundKeepsLoopInv(cfg: Config, o: Overhead, l: Loop, beat: int, sweep: int, r: Round)
    returns (beat': int, sweep': int)
    requires LoopInv(cfg, o, l, beat, sweep) && OnTime(o, l, r)
    requires r.heard.Some? ==> Honest(r.heard.value.0)
    ensures LoopInv(cfg, o, AfterRound(cfg, l, r), beat', sweep')
    ensures beat' == if r.beatAt < l.nextHeartbeat then beat else r.beatAt
    ensures beat' - beat <= HeartbeatBound(cfg, o)
  {
    TimeoutBounds(l.nextHeartbeat, l.nextActivity, l.clock);
    HeardActivity(cfg, l.d, r);
    var d := Heard(cfg, l.d, r);
    beat' := if r.beatAt < l.nextHeartbeat then beat else r.beatAt;
    if r.sweepAt < l.nextActivity {
      sweep' := sweep;
      assert forall p :: p in d.activity ==> FreshAt(cfg, d.activity[p], sweep);
    } else {
      sweep' := r.sweepAt;
      SweepForgetsExpired(cfg, d, r.sweepAt);
      forall p | p in Swept(cfg, d, r.sweepAt).activity
        ensures FreshAt(cfg, d.activity[p], r.sweepAt)
      {
        ExpiredIff(cfg, d.activity[p], r.sweepAt);
      }
    }
  }

  /** The longest time between two heartbeats of a running process. */
  function HeartbeatBound(cfg: Config, o: Overhead): int {
    cfg.heartbeatMs * NS_PER_MS + o.late + 3 * o.work
  }

  /** The bound on how long silence can go unnoticed. */
  function DetectionBound(cfg: Config, o: Overhead): int {
    (cfg.silenceMs + 1 + cfg.activityMs) * NS_PER_MS + o.late + 2 * o.work
  }

  ghost predicate Started(cfg: Config, l: Loop) {
    NoOrphans(cfg, l.d) && l.d.activity == map[] && l.nextActivity == l.clock && l.nextHeartbeat == l.clock
  }

  /** At the end of every round of every run, each process still tracked was
      heard from less than the bound ago. */
  lemma {:induction false} TrackedWasHeard(cfg: Config, o: Overhead, l: Loop, beat: int, sweep: int, rounds: seq<Round>)
    requires LoopInv(cfg, o, l, beat, sweep) && Rounds(cfg, o, l, rounds)
    ensures var e := AfterRounds(cfg, l, rounds);
            NoOrphans(cfg, e.d) && forall p :: p in e.d.activity ==> e.clock < e.d.activity[p] + DetectionBound(cfg, o)
    decreases |rounds|
  {
    if rounds != [] {
      var beat', sweep' := RoundKeepsLoopInv(cfg, o, l, beat, sweep, rounds[0]);
      TrackedWasHeard(cfg, o, AfterRound(cfg, l, rounds[0]), beat', sweep', rounds[1..]);
    }
  }

  /** Nothing was received from `p` after time `t`. */
  predicate SilentAfter(p: string, t: int, rounds: seq<Round>) {
    forall i :: 0 <= i < |rounds| && rounds[i].heard.Some? && rounds[i].heard.value.0.sender == p ==>
      rounds[i].heardAt <= t
  }

  /** Only a message of `p` moves the time `p` was last heard from. */
  lemma OnlySenderRefreshes(cfg: Config, d: Disc, r: Round, p: string)
    ensures var d' := Heard(cfg, d, r);
            p in d'.activity && !(p in d.activity && d'.activity[p] == d.activity[p]) ==>
              r.heard.Some? && r.heard.value.0.sender == p && d'.activity[p] == r.heardAt
  {
  }

  lemma {:induction false} ActivityIsOld(cfg: Config, o: Overhead, l: Loop, rounds: seq<Round>, p: string, t: int)
    requires NoOrphans(cfg, l.d) && Rounds(cfg, o, l, rounds) && SilentAfter(p, t, rounds)
    requires p in l.d.activity ==> l.d.activity[p] <= t
    ensures p in AfterRounds(cfg, l, rounds).d.activity ==> AfterRounds(cfg, l, rounds).d.activity[p] <= t
    decreases |rounds|
  {
    if rounds != [] {
      var r := rounds[0];
      HeardActivity(cfg, l.d, r);
      OnlySenderRefreshes(cfg, l.d, r, p);
      SweepForgetsExpired(cfg, Heard(cfg, l.d, r), r.sweepAt);
      assert SilentAfter(p, t, rounds[1..]) by {
        assert forall i :: 0 <= i < |rounds[1..]| ==> rounds[1..][i] == rounds[i + 1];
      }
      ActivityIsOld(cfg, o, AfterRound(cfg, l, r), rounds[1..], p, t);
    }
  }

  /** From a fresh start, whatever is received: a remote process not heard
      from after `t` has left all three tables by `t` + the bound. */
  lemma SilentIsGone(cfg: Config, o: Overhead, l: Loop, rounds: seq<Round>, p: string, t: int)
    requires Started(cfg, l) && Rounds(cfg, o, l, rounds) && SilentAfter(p, t, rounds) && p != cfg.pUuid
    requires AfterRounds(cfg, l, rounds).clock >= t + DetectionBound(cfg, o)
    ensures var d := AfterRounds(cfg, l, rounds).d;
            && p !in d.activity
            && (forall x :: Has(d.info, x) ==> x.pUuid != p)
            && (forall x :: Has(d.remoteSubscribers, x) ==> x.pUuid != p)
  {
    assert LoopInv(cfg, o, l, l.clock, l.clock);
    TrackedWasHeard(cfg, o, l, l.clock, l.clock, rounds);
    ActivityIsOld(cfg, o, l, rounds, p, t);
  }

  // ---- A live process is never expired ----

  /** A message of `p` that DispatchDiscoveryMsg does not drop or relay. */
  predicate Accepted(cfg: Config, p: string, r: Round) {
    r.heard.Some? && r.heard.value.0.sender == p && !Ignored(cfg, r.heard.value.0) && !IsRelayed(r.heard.value.0)
  }

  /** At each sweep less than the silence interval plus the truncated
      millisecond has passed since `p` was last heard. */
  predicate FreshAtSweeps(cfg: Config, p: string, since: int, rounds: seq<Round>)
    decreases |rounds|
  {
    rounds == [] ||
    (var now := if Accepted(cfg, p, rounds[0]) then rounds[0].heardAt else since;
     FreshAt(cfg, now, rounds[0].sweepAt) && FreshAtSweeps(cfg, p, now, rounds[1..]))
  }

  predicate NoBye(cfg: Config, p: string, rounds: seq<Round>) {
    forall i :: 0 <= i < |rounds| && Accepted(cfg, p, rounds[i]) ==> rounds[i].heard.value.0.typ != BYE
  }

  /** When `p` was heard. */
  function HeardTimes(cfg: Config, p: string, rounds: seq<Round>): seq<int> {
    if rounds == [] then []
    else if Accepted(cfg, p, rounds[0]) then [rounds[0].heardAt] + HeardTimes(cfg, p, rounds[1..])
    else HeardTimes(cfg, p, rounds[1..])
  }

  predicate AtMostApart(ts: seq<int>, gap: int) {
    forall i :: 0 < i < |ts| ==> ts[i] - ts[i - 1] <= gap
  }

  /** `p` is heard from at least every silence interval, from `since` until the
      clock reads `end`. Nothing is said about the receiver's sweeps. */
  predicate HeardOften(cfg: Config, p: string, since: int, rounds: seq<Round>, end: int) {
    AtMostApart([since] + HeardTimes(cfg, p, rounds) + [end], cfg.silenceMs * NS_PER_MS)
  }

  /** Times in order, from `lo` to `hi`. */
  predicate Ordered(lo: int, ts: seq<int>, hi: int) {
    && (forall i :: 0 <= i < |ts| ==> lo <= ts[i] <= hi)
    && (forall i, j :: 0 <= i < j < |ts| ==> ts[i] <= ts[j])
  }

  lemma OrderedCons(lo: int, t: int, mid: int, ts: seq<int>, hi: int)
    requires Ordered(mid, ts, hi) && lo <= t <= mid <= hi
    ensures Ordered(lo, ts, hi) && Ordered(lo, [t] + ts, hi)
  {
  }

  lemma {:induction false} TimesAfterClock(cfg: Config, o: Overhead, l: Loop, rounds: seq<Round>, p: string)
    requires Rounds(cfg, o, l, rounds)
    ensures l.clock <= AfterRounds(cfg, l, rounds).clock
    ensures Ordered(l.clock, HeardTimes(cfg, p, rounds), AfterRounds(cfg, l, rounds).clock)
    decreases |rounds|
  {
    if rounds != [] {
      hide Heard, Swept, Honest, Accepted, Ordered;
      var l' := AfterRound(cfg, l, rounds[0]);
      TimesAfterClock(cfg, o, l', rounds[1..], p);
      OrderedCons(l.clock, rounds[0].heardAt, l'.clock, HeardTimes(cfg, p, rounds[1..]),
                  AfterRounds(cfg, l', rounds[1..]).clock);
    } else {
      assert HeardTimes(cfg, p, rounds) == [];
    }
  }

  lemma DropFirst(t: int, u: int, ts: seq<int>, gap: int)
    requires AtMostApart([t] + ([u] + ts), gap)
    ensures AtMostApart([u] + ts, gap) && u - t <= gap
  {
    var all := [t] + ([u] + ts);
    assert all[1] - all[0] <= gap;
    forall i | 0 < i < |[u] + ts|
      ensures ([u] + ts)[i] - ([u] + ts)[i - 1] <= gap
    {
      assert all[i + 1] == ([u] + ts)[i] && all[i] == ([u] + ts)[i - 1];
    }
  }

  lemma FirstGap(t: int, ts: seq<int>, gap: int)
    requires AtMostApart([t] + ts, gap) && ts != []
    ensures ts[0] - t <= gap
  {
    assert ([t] + ts)[1] - ([t] + ts)[0] <= gap;
  }

  lemma NextIsLater(lo: int, ts: seq<int>, hi: int)
    requires Ordered(lo, ts, hi) && lo <= hi
    ensures (ts + [hi])[0] >= lo
  {
  }

  /** Frequent messages keep a process fresh at every sweep. */
  lemma {:induction false} OftenIsFresh(cfg: Config, o: Overhead, l: Loop, rounds: seq<Round>, p: string, since: int)
    requires Rounds(cfg, o, l, rounds) && HeardOften(cfg, p, since, rounds, AfterRounds(cfg, l, rounds).clock)
    ensures FreshAtSweeps(cfg, p, since, rounds)
    decreases |rounds|
  {
    if rounds != [] {
      hide Heard, Swept, Honest, Accepted, AtMostApart;
      var r, l' := rounds[0], AfterRound(cfg, l, rounds[0]);
      var end := AfterRounds(cfg, l, rounds).clock;
      var heard := HeardTimes(cfg, p, rounds[1..]);
      TimesAfterClock(cfg, o, l', rounds[1..], p);
      var now := if Accepted(cfg, p, r) then r.heardAt else since;
      if Accepted(cfg, p, r) {
        assert [since] + ([r.heardAt] + heard) + [end] == [since] + ([r.heardAt] + (heard + [end]));
        DropFirst(since, r.heardAt, heard + [end], cfg.silenceMs * NS_PER_MS);
      }
      assert [now] + heard + [end] == [now] + (heard + [end]);
      FirstGap(now, heard + [end], cfg.silenceMs * NS_PER_MS);
      NextIsLater(l'.clock, heard, end);
      OftenIsFresh(cfg, o, l', rounds[1..], p, now);
    }
  }

  lemma AcceptedRefreshes(cfg: Config, d: Disc, r: Round, p: string)
    requires p in d.activity
    requires Accepted(cfg, p, r) ==> r.heard.value.0.typ != BYE
    ensures p in Heard(cfg, d, r).activity
    ensures Heard(cfg, d, r).activity[p] == if Accepted(cfg, p, r) then r.heardAt else d.activity[p]
  {
  }

  /** One round neither drops a live process nor any publisher of it, unless
      that process itself asked for it. */
  lemma LiveSurvivesSweep(cfg: Config, o: Overhead, l: Loop, r: Round, p: string)
    requires NoOrphans(cfg, l.d) && (r.heard.Some? ==> Honest(r.heard.value.0))
    requires p in Heard(cfg, l.d, r).activity && FreshAt(cfg, Heard(cfg, l.d, r).activity[p], r.sweepAt)
    ensures var d, d' := Heard(cfg, l.d, r), AfterRound(cfg, l, r).d;
            && NoOrphans(cfg, d')
            && p in d'.activity && d'.activity[p] == d.activity[p]
            && (forall x :: Has(d.info, x) && x.pUuid == p ==> Has(d'.info, x))
            && (forall x :: Has(d.remoteSubscribers, x) && x.pUuid == p ==> Has(d'.remoteSubscribers, x))
  {
    var d := Heard(cfg, l.d, r);
    HeardActivity(cfg, l.d, r);
    SweepForgetsExpired(cfg, d, r.sweepAt);
    ExpiredIff(cfg, d.activity[p], r.sweepAt);
  }

  /** `p` takes back a publisher, or a subscription. */
  predicate Withdraws(cfg: Config, p: string, r: Round, x: Pub, typ: MsgType) {
    && Accepted(cfg, p, r) && r.heard.value.0.typ == typ
    && Received(r.heard.value.0).topic == x.topic && Received(r.heard.value.0).nUuid == x.nUuid
  }

  predicate NeverWithdrawn(cfg: Config, p: string, rounds: seq<Round>, x: Pub, typ: MsgType) {
    forall i :: 0 <= i < |rounds| ==> !Withdraws(cfg, p, rounds[i], x, typ)
  }

  /** No message of another process takes a publisher of `p` away, nor a remote
      subscription. */
  lemma HeardKeepsInfo(cfg: Config, d: Disc, r: Round, p: string, x: Pub)
    requires NoOrphans(cfg, d) && (r.heard.Some? ==> Honest(r.heard.value.0)) && x.pUuid == p
    requires Accepted(cfg, p, r) ==> r.heard.value.0.typ != BYE
    ensures Has(d.info, x) && !Withdraws(cfg, p, r, x, UNADVERTISE) ==> Has(Heard(cfg, d, r).info, x)
  {
    hide SentAll, Registrations, VisibleOnly, Converted, Added, WithoutNode, WithoutProc, WellFormed, Has;
    if r.heard.Some? && !Ignored(cfg, r.heard.value.0) && !IsRelayed(r.heard.value.0) {
      var m := r.heard.value.0;
      match m.typ
      case ADVERTISE => AddedHas(d.info, Received(m));
      case UNADVERTISE => WithoutNodeHas(d.info, Received(m).topic, Received(m).pUuid, Received(m).nUuid);
      case BYE => WithoutProcHas(d.info, m.sender);
      case _ =>
    }
  }

  lemma HeardKeepsSubscribers(cfg: Config, d: Disc, r: Round, p: string, x: Pub)
    requires NoOrphans(cfg, d) && (r.heard.Some? ==> Honest(r.heard.value.0)) && x.pUuid == p
    requires Accepted(cfg, p, r) ==> r.heard.value.0.typ != BYE
    ensures Has(d.remoteSubscribers, x) && !Withdraws(cfg, p, r, x, END_CONNECTION) ==>
              Has(Heard(cfg, d, r).remoteSubscribers, x)
  {
    hide SentAll, Registrations, VisibleOnly, Converted, Added, WithoutNode, WithoutProc, WellFormed, Has;
    if r.heard.Some? && !Ignored(cfg, r.heard.value.0) && !IsRelayed(r.heard.value.0) {
      var m := r.heard.value.0;
      match m.typ
      case SUBSCRIBERS_REP => AddedHas(d.remoteSubscribers, Received(m));
      case END_CONNECTION =>
        WithoutNodeHas(d.remoteSubscribers, Received(m).topic, Received(m).pUuid, Received(m).nUuid);
      case BYE => WithoutProcHas(d.remoteSubscribers, m.sender);
      case _ =>
    }
  }

  /** What stays of a live process over a run. */
  ghost predicate Stays(cfg: Config, p: string, d: Disc, e: Disc, rounds: seq<Round>) {
    && p in e.activity
    && (forall x :: Has(d.info, x) && x.pUuid == p && NeverWithdrawn(cfg, p, rounds, x, UNADVERTISE) ==> Has(e.info, x))
    && (forall x :: Has(d.remoteSubscribers, x) && x.pUuid == p && NeverWithdrawn(cfg, p, rounds, x, END_CONNECTION) ==>
          Has(e.remoteSubscribers, x))
  }

  lemma RoundKeepsLive(cfg: Config, o: Overhead, l: Loop, r: Round, p: string)
    requires NoOrphans(cfg, l.d) && (r.heard.Some? ==> Honest(r.heard.value.0)) && p in l.d.activity
    requires Accepted(cfg, p, r) ==> r.heard.value.0.typ != BYE
    requires FreshAt(cfg, if Accepted(cfg, p, r) then r.heardAt else l.d.activity[p], r.sweepAt)
    ensures var d' := AfterRound(cfg, l, r).d;
            && NoOrphans(cfg, d') && Stays(cfg, p, l.d, d', [r])
            && d'.activity[p] == if Accepted(cfg, p, r) then r.heardAt else l.d.activity[p]
  {
    AcceptedRefreshes(cfg, l.d, r, p);
    LiveSurvivesSweep(cfg, o, l, r, p);
    hide Heard, AfterRound, NoOrphans, Has, Withdraws, Accepted;
    forall x: Pub | x.pUuid == p
      ensures Has(l.d.info, x) && NeverWithdrawn(cfg, p, [r], x, UNADVERTISE) ==> Has(AfterRound(cfg, l, r).d.info, x)
      ensures Has(l.d.remoteSubscribers, x) && NeverWithdrawn(cfg, p, [r], x, END_CONNECTION) ==>
                Has(AfterRound(cfg, l, r).d.remoteSubscribers, x)
    {
      HeardKeepsInfo(cfg, l.d, r, p, x);
      HeardKeepsSubscribers(cfg, l.d, r, p, x);
      assert [r][0] == r;
    }
  }

  lemma StaysTwice(cfg: Config, p: string, d: Disc, e: Disc, f: Disc, rounds: seq<Round>)
    requires rounds != [] && Stays(cfg, p, d, e, [rounds[0]]) && Stays(cfg, p, e, f, rounds[1..])
    ensures Stays(cfg, p, d, f, rounds)
  {
    hide Has, Withdraws;
    forall x: Pub, typ: MsgType | NeverWithdrawn(cfg, p, rounds, x, typ)
      ensures NeverWithdrawn(cfg, p, [rounds[0]], x, typ) && NeverWithdrawn(cfg, p, rounds[1..], x, typ)
    {
      assert forall i :: 0 <= i < |rounds[1..]| ==> rounds[1..][i] == rounds[i + 1];
    }
  }

  lemma {:induction false} FreshIsNeverExpired(cfg: Config, o: Overhead, l: Loop, rounds: seq<Round>, p: string)
    requires NoOrphans(cfg, l.d) && Rounds(cfg, o, l, rounds)
    requires p in l.d.activity && FreshAtSweeps(cfg, p, l.d.activity[p], rounds) && NoBye(cfg, p, rounds)
    ensures Stays(cfg, p, l.d, AfterRounds(cfg, l, rounds).d, rounds)
    decreases |rounds|
  {
    if rounds != [] {
      hide NoOrphans, Stays, AfterRound, Accepted;
      var l' := AfterRound(cfg, l, rounds[0]);
      RoundKeepsLive(cfg, o, l, rounds[0], p);
      assert NoBye(cfg, p, rounds[1..]) by {
        assert forall i :: 0 <= i < |rounds[1..]| ==> rounds[1..][i] == rounds[i + 1];
      }
      assert p in l'.d.activity by {
        StaysHasActivity(cfg, p, l.d, l'.d, [rounds[0]]);
      }
      FreshIsNeverExpired(cfg, o, l', rounds[1..], p);
      StaysTwice(cfg, p, l.d, l'.d, AfterRounds(cfg, l, rounds).d, rounds);
    }
  }

  lemma StaysHasActivity(cfg: Config, p: string, d: Disc, e: Disc, rounds: seq<Round>)
    requires Stays(cfg, p, d, e, rounds)
    ensures p in e.activity
  {
  }

  /** A process heard from at least every silence interval that never says
      goodbye is never expired, in any run: it stays tracked, and each of its
      publishers and remote subscriptions stays unless it takes it back
      itself. */
  lemma LiveIsNeverExpired(cfg: Config, o: Overhead, l: Loop, rounds: seq<Round>, p: string)
    requires NoOrphans(cfg, l.d) && Rounds(cfg, o, l, rounds) && p in l.d.activity && NoBye(cfg, p, rounds)
    requires HeardOften(cfg, p, l.d.activity[p], rounds, AfterRounds(cfg, l, rounds).clock)
    ensures Stays(cfg, p, l.d, AfterRounds(cfg, l, rounds).d, rounds)
  {
    hide NoOrphans, Stays, AfterRounds, HeardOften, NoBye;
    OftenIsFresh(cfg, o, l, rounds, p, l.d.activity[p]);
    FreshIsNeverExpired(cfg, o, l, rounds, p);
  }

  /** And the detector is exact: a sweep that is due drops `p` if and only if
      `p` was silent for the whole interval and the truncated millisecond. */
  lemma SweepDropsIff(cfg: Config, l: Loop, r: Round, p: string)
    requires NoOrphans(cfg, l.d) && (r.heard.Some? ==> Honest(r.heard.value.0))
    requires r.sweepAt >= l.nextActivity && p in Heard(cfg, l.d, r).activity
    ensures var since := Heard(cfg, l.d, r).activity[p];
            p !in AfterRound(cfg, l, r).d.activity <==> r.sweepAt - since >= (cfg.silenceMs + 1) * NS_PER_MS
  {
    HeardActivity(cfg, l.d, r);
    SweepForgetsExpired(cfg, Heard(cfg, l.d, r), r.sweepAt);
    ExpiredIff(cfg, Heard(cfg, l.d, r).activity[p], r.sweepAt);
  }

  // ---- A running process is never expired at a peer ----

  /** The clocks at which the loop sent its heartbeats. */
  function Beats(cfg: Config, l: Loop, rounds: seq<Round>): seq<int>
    decreases |rounds|
  {
    if rounds == [] then []
    else
      var later := Beats(cfg, AfterRound(cfg, l, rounds[0]), rounds[1..]);
      if rounds[0].beatAt < l.nextHeartbeat then later else [rounds[0].beatAt] + later
  }

  lemma ApartCons(t: int, u: int, ts: seq<int>, gap: int)
    requires u - t <= gap && AtMostApart([u] + ts, gap)
    ensures AtMostApart([t] + ([u] + ts), gap)
  {
    var all := [t] + ([u] + ts);
    forall i | 0 < i < |all|
      ensures all[i] - all[i - 1] <= gap
    {
      assert i > 1 ==> all[i] == ([u] + ts)[i - 1] && all[i - 1] == ([u] + ts)[i - 2];
    }
  }

  /** Heartbeats come regularly, up to the end of every run. */
  lemma {:induction false} HeartbeatsAreRegular(cfg: Config, o: Overhead, l: Loop, beat: int, sweep: int,
                                                rounds: seq<Round>)
    requires LoopInv(cfg, o, l, beat, sweep) && Rounds(cfg, o, l, rounds)
    ensures AtMostApart([beat] + Beats(cfg, l, rounds) + [AfterRounds(cfg, l, rounds).clock], HeartbeatBound(cfg, o))
    decreases |rounds|
  {
    if rounds == [] {
      assert [beat] + [] + [l.clock] == [beat, l.clock];
    } else {
      hide AtMostApart, NoOrphans, FreshAt;
      var l' := AfterRound(cfg, l, rounds[0]);
      var beat', sweep' := RoundKeepsLoopInv(cfg, o, l, beat, sweep, rounds[0]);
      HeartbeatsAreRegular(cfg, o, l', beat', sweep', rounds[1..]);
      hide AfterRound, LoopInv;
      var later := Beats(cfg, l', rounds[1..]);
      var end := AfterRounds(cfg, l, rounds).clock;
      if rounds[0].beatAt >= l.nextHeartbeat {
        assert [beat'] + later + [end] == [beat'] + (later + [end]);
        ApartCons(beat, beat', later + [end], HeartbeatBound(cfg, o));
        assert [beat] + ([beat'] + later) + [end] == [beat] + ([beat'] + (later + [end]));
      }
    }
  }

  /** Each of these messages of `p` reaches the loop within `delay`, unless the
      run is over by then. */
  ghost predicate Delivered(cfg: Config, p: string, sent: seq<int>, rounds: seq<Round>, end: int, delay: nat) {
    forall i :: 0 <= i < |sent| && sent[i] + delay <= end ==> exists j :: ArrivesAt(cfg, p, sent[i], rounds, j, delay)
  }

  predicate ArrivesAt(cfg: Config, p: string, t: int, rounds: seq<Round>, j: int, delay: nat) {
    0 <= j < |rounds| && Accepted(cfg, p, rounds[j]) && t <= rounds[j].heardAt <= t + delay
  }

  /** Among events at most `gap` apart, one falls within `gap` after any time
      before the end. */
  lemma {:induction false} OneSoonAfter(start: int, ts: seq<int>, end: int, gap: int, u: int) returns (k: nat)
    requires AtMostApart([start] + ts + [end], gap) && start <= u && u + gap < end
    ensures k < |ts| && u < ts[k] <= u + gap
    decreases |ts|
  {
    var all := [start] + ts + [end];
    assert all[1] - all[0] <= gap;
    if ts == [] {
      assert false;
    } else {
      assert all[1] == ts[0];
      if ts[0] > u {
        k := 0;
      } else {
        var rest := [ts[0]] + ts[1..] + [end];
        forall i | 0 < i < |rest|
          ensures rest[i] - rest[i - 1] <= gap
        {
          assert rest[i] == all[i + 1] && rest[i - 1] == all[i];
        }
        k := OneSoonAfter(ts[0], ts[1..], end, gap, u);
        k := k + 1;
      }
    }
  }

  lemma {:induction false} AcceptedIsHeard(cfg: Config, p: string, rounds: seq<Round>, j: nat) returns (n: nat)
    requires j < |rounds| && Accepted(cfg, p, rounds[j])
    ensures n < |HeardTimes(cfg, p, rounds)| && HeardTimes(cfg, p, rounds)[n] == rounds[j].heardAt
  {
    if j == 0 {
      n := 0;
    } else {
      var m := AcceptedIsHeard(cfg, p, rounds[1..], j - 1);
      n := if Accepted(cfg, p, rounds[0]) then m + 1 else m;
    }
  }

  /** No time falls between two neighbours, and none outside. */
  lemma NothingBetween(lo: int, ts: seq<int>, hi: int, i: nat)
    requires Ordered(lo, ts, hi) && 0 < i < |ts| + 2 && lo <= hi
    ensures var all := [lo] + ts + [hi];
            && lo <= all[i - 1] && all[i] <= hi
            && forall n :: 0 <= n < |ts| ==> ts[n] <= all[i - 1] || all[i] <= ts[n]
  {
  }

  /** Messages sent at most `gap` apart and delivered within `delay` are heard
      at most gap + delay apart. */
  lemma DeliveredOften(cfg: Config, o: Overhead, l: Loop, rounds: seq<Round>, p: string, since: int,
                       start: int, sent: seq<int>, end: int, gap: int, delay: nat)
    requires Rounds(cfg, o, l, rounds) && start <= since <= l.clock && AfterRounds(cfg, l, rounds).clock <= end
    requires AtMostApart([start] + sent + [end], gap)
    requires Delivered(cfg, p, sent, rounds, AfterRounds(cfg, l, rounds).clock, delay)
    requires gap + delay <= cfg.silenceMs * NS_PER_MS
    ensures HeardOften(cfg, p, since, rounds, AfterRounds(cfg, l, rounds).clock)
  {
    var heard := HeardTimes(cfg, p, rounds);
    var stop := AfterRounds(cfg, l, rounds).clock;
    var all := [since] + heard + [stop];
    TimesAfterClock(cfg, o, l, rounds, p);
    OrderedCons(since, since, l.clock, heard, stop);
    hide Rounds, AfterRounds, HeardTimes, Accepted, Ordered;
    forall i | 0 < i < |all|
      ensures all[i] - all[i - 1] <= cfg.silenceMs * NS_PER_MS
    {
      NoLongGap(cfg, rounds, p, since, start, sent, end, stop, gap, delay, i);
    }
  }

  lemma NoLongGap(cfg: Config, rounds: seq<Round>, p: string, since: int, start: int, sent: seq<int>, end: int,
                  stop: int, gap: int, delay: nat, i: nat)
    requires Ordered(since, HeardTimes(cfg, p, rounds), stop) && 0 < i < |HeardTimes(cfg, p, rounds)| + 2
    requires start <= since <= stop <= end && AtMostApart([start] + sent + [end], gap)
    requires Delivered(cfg, p, sent, rounds, stop, delay)
    ensures var all := [since] + HeardTimes(cfg, p, rounds) + [stop]; all[i] - all[i - 1] <= gap + delay
  {
    var heard := HeardTimes(cfg, p, rounds);
    var all := [since] + heard + [stop];
    var u, v := all[i - 1], all[i];
    NothingBetween(since, heard, stop, i);
    hide Ordered, HeardTimes;
    if v - u > gap + delay {
      var k := OneSoonAfter(start, sent, end, gap, u);
      var j: int :| ArrivesAt(cfg, p, sent[k], rounds, j, delay);
      var n := AcceptedIsHeard(cfg, p, rounds, j);
      assert false;
    }
  }

  /** Two processes on one time scale. While `a` runs its loop on time, its
      heartbeats reach `b` within `delay`, and heartbeat interval, overhead and
      delay together are at most b's silence interval, `b` never expires `a`,
      nor forgets what `a` has not taken back. */
  lemma RunningPeerIsNeverExpired(a: Config, oa: Overhead, la: Loop, beat: int, sweep: int, atA: seq<Round>,
                                  b: Config, ob: Overhead, lb: Loop, atB: seq<Round>, delay: nat)
    requires LoopInv(a, oa, la, beat, sweep) && Rounds(a, oa, la, atA)
    requires NoOrphans(b, lb.d) && Rounds(b, ob, lb, atB) && a.pUuid in lb.d.activity && NoBye(b, a.pUuid, atB)
    requires beat <= lb.d.activity[a.pUuid] <= lb.clock
    requires AfterRounds(b, lb, atB).clock <= AfterRounds(a, la, atA).clock
    requires Delivered(b, a.pUuid, Beats(a, la, atA), atB, AfterRounds(b, lb, atB).clock, delay)
    requires HeartbeatBound(a, oa) + delay <= b.silenceMs * NS_PER_MS
    ensures Stays(b, a.pUuid, lb.d, AfterRounds(b, lb, atB).d, atB)
  {
    hide LoopInv, Rounds, NoOrphans, NoBye, AfterRounds, Delivered, Stays;
    hide Beats, HeartbeatBound, AtMostApart, HeardOften;
    HeartbeatsAreRegular(a, oa, la, beat, sweep, atA);
    DeliveredOften(b, ob, lb, atB, a.pUuid, lb.d.activity[a.pUuid], beat, Beats(a, la, atA),
                   AfterRounds(a, la, atA).clock, HeartbeatBound(a, oa), delay);
    LiveIsNeverExpired(b, ob, lb, atB, a.pUuid);
  }
}
