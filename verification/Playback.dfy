// The playback thread and the calls that control it (log/src/Playback.cc), as
// interleaved steps on one state. Times are nanoseconds.
module Playback {
  import opened Options

  datatype Row = Row(id: nat, time: int)

  /** Where the thread is: at the loop head, blocked while paused, waiting to
      publish, waiting for a step to end, or past the loop. */
  datatype Phase = AtHead | Blocked | WaitMessage(target: int) | WaitStep(target: int) | Over

  /** `rows` is the batch and `pos` the iterator. `boundary` None stands for
      the infinite one. `stamps` are the clock readings of the publications. */
  datatype State = State(rows: seq<Row>, pos: nat, playbackTime: int, boundary: Option<int>, nextTime: int,
                         lastEvent: int, paused: bool, stop: bool, msgWaiting: bool, phase: Phase,
                         published: seq<Row>, stamps: seq<int>)

  ghost predicate Sorted(rows: seq<Row>) {
    forall i, j :: 0 <= i < j < |rows| ==> rows[i].time <= rows[j].time
  }

  ghost predicate Inv(s: State) {
    && s.pos <= |s.rows|
    && (s.pos < |s.rows| ==> s.nextTime == s.rows[s.pos].time)
    && (s.phase.WaitMessage? || s.phase.WaitStep? ==> s.pos < |s.rows|)
    && |s.stamps| == |s.published|
  }

  /** Playback starts at the first message, or earlier: at the log's start. */
  function Started(rows: seq<Row>, logStart: int, msgWaiting: bool, now: int): State
    requires rows != []
  {
    State(rows, 0, logStart, None, rows[0].time, now, false, false, msgWaiting, AtHead, [], [])
  }

  // ---- The calls ----

  function Paused(s: State, now: int): State {
    if s.paused then s
    else s.(paused := true, playbackTime := s.playbackTime + now - s.lastEvent, lastEvent := now, boundary := None)
  }

  function Resumed(s: State): State {
    s.(paused := false)
  }

  function Stepped(s: State, d: int): State {
    if d == 0 then s else Resumed(s.(boundary := Some(s.playbackTime + d)))
  }

  function Stopped(s: State): State {
    s.(stop := true, paused := false)
  }

  /** Seek replaces the batch; it needs a message to start from. */
  function Sought(s: State, rows: seq<Row>, now: int): State
    requires rows != []
  {
    if s.stop then s
    else s.(rows := rows, pos := 0, playbackTime := rows[0].time, nextTime := rows[0].time, boundary := None,
            lastEvent := now)
  }

  // ---- The thread ----

  predicate WithinBoundary(s: State) {
    s.boundary.None? || s.nextTime <= s.boundary.value
  }

  /** The wait predicate: also true on a stop or a pause. */
  predicate WaitIsOver(s: State, target: int, now: int) {
    target <= now || s.stop || s.paused
  }

  predicate Enabled(s: State, now: int) {
    match s.phase
    case AtHead => true
    case Blocked => !s.paused
    case WaitMessage(target) => !s.msgWaiting || WaitIsOver(s, target, now)
    case WaitStep(target) => WaitIsOver(s, target, now)
    case Over => false
  }

  /** Publishing the row under the iterator. Past the last row the iterator
      still shows it, so the next time stays. */
  function Published(s: State, now: int): State
    requires s.pos < |s.rows|
  {
    s.(published := s.published + [s.rows[s.pos]], stamps := s.stamps + [now],
       pos := s.pos + 1, playbackTime := s.nextTime, lastEvent := now,
       nextTime := if s.pos + 1 < |s.rows| then s.rows[s.pos + 1].time else s.nextTime,
       phase := AtHead)
  }

  function Turn(s: State, now: int): State
    requires Inv(s) && Enabled(s, now)
  {
    match s.phase
    case AtHead =>
      if s.stop || s.pos == |s.rows| then s.(phase := Over)
      else if s.paused then s.(phase := Blocked)
      else if WithinBoundary(s) then s.(phase := WaitMessage(s.lastEvent + (s.nextTime - s.playbackTime)))
      else s.(phase := WaitStep(s.lastEvent + (s.boundary.value - s.playbackTime)))
    case Blocked => s.(phase := AtHead, lastEvent := now)
    case WaitMessage(_) => Published(s, now)
    case WaitStep(_) => Paused(s, now).(phase := AtHead)
  }

  lemma TurnKeepsInv(s: State, now: int)
    requires Inv(s) && Enabled(s, now)
    ensures Inv(Turn(s, now))
  {
  }

  /** The handle, updated in place. */
  class PlaybackHandle {
    var rows: seq<Row>
    var pos: nat
    var playbackTime: int
    var boundaryTime: Option<int>
    var nextMessageTime: int
    var lastEventTime: int
    var paused: bool
    var stop: bool
    var finished: bool
    const msgWaiting: bool
    var phase: Phase
    var published: seq<Row>
    var stamps: seq<int>

    ghost function Now(): State
      reads this
    {
      State(rows, pos, playbackTime, boundaryTime, nextMessageTime, lastEventTime, paused, stop, msgWaiting, phase,
            published, stamps)
    }

    ghost predicate Valid()
      reads this
    {
      Inv(Now()) && (finished <==> phase.Over?)
    }

    /** StartPlayback up to the start of the thread. */
    constructor (rows: seq<Row>, logStart: int, msgWaiting: bool, now: int)
      requires rows != []
      ensures Valid() && Now() == Started(rows, logStart, msgWaiting, now)
    {
      this.rows, pos, this.msgWaiting := rows, 0, msgWaiting;
      playbackTime, boundaryTime, nextMessageTime, lastEventTime := logStart, None, rows[0].time, now;
      paused, stop, finished := false, false, false;
      phase, published, stamps := AtHead, [], [];
    }

    method Pause(now: int)
      requires Valid()
      modifies this
      ensures Valid() && Now() == Paused(old(Now()), now)
    {
      if !paused {
        paused := true;
        playbackTime := playbackTime + now - lastEventTime;
        lastEventTime := now;
        boundaryTime := None;
      }
    }

    method Resume()
      requires Valid()
      modifies this
      ensures Valid() && Now() == Resumed(old(Now()))
    {
      if paused {
        paused := false;
      }
    }

    method Step(stepDuration: int)
      requires Valid()
      modifies this
      ensures Valid() && Now() == Stepped(old(Now()), stepDuration)
    {
      if stepDuration == 0 {
        return;
      }
      boundaryTime := Some(playbackTime + stepDuration);
      Resume();
    }

    method Stop()
      requires Valid()
      modifies this
      ensures Valid() && Now() == Stopped(old(Now()))
    {
      stop := true;
      if paused {
        paused := false;
      }
    }

    method Seek(found: seq<Row>, now: int)
      requires Valid() && found != []
      modifies this
      ensures Valid() && Now() == Sought(old(Now()), found, now)
    {
      if stop {
        return;
      }
      rows, pos := found, 0;
      playbackTime := rows[0].time;
      nextMessageTime := rows[0].time;
      boundaryTime := None;
      lastEventTime := now;
    }

    /** The loop head: leave, block, or start one of the two waits. */
    method AtLoopHead()
      requires Valid() && phase.AtHead?
      modifies this`phase, this`finished
      ensures Valid() && forall now :: Now() == Turn(old(Now()), now)
    {
      if stop || pos == |rows| {
        finished := true;
        phase := Over;
      } else if paused {
        phase := Blocked;
      } else if boundaryTime.None? || nextMessageTime <= boundaryTime.value {
        phase := WaitMessage(lastEventTime + (nextMessageTime - playbackTime));
      } else {
        phase := WaitStep(lastEventTime + (boundaryTime.value - playbackTime));
      }
    }

    method PublishMessage(now: int)
      requires Valid() && phase.WaitMessage? && Enabled(Now(), now)
      modifies this
      ensures Valid() && Now() == Turn(old(Now()), now)
    {
      published := published + [rows[pos]];
      stamps := stamps + [now];
      pos := pos + 1;
      playbackTime := nextMessageTime;
      lastEventTime := now;
      if pos < |rows| {
        nextMessageTime := rows[pos].time;
      }
      phase := AtHead;
    }

    /** What the thread does between two points where it can be interleaved. */
    method RunTurn(now: int)
      requires Valid() && Enabled(Now(), now)
      modifies this
      ensures Valid() && Now() == Turn(old(Now()), now)
    {
      if phase.AtHead? {
        AtLoopHead();
      } else if phase.Blocked? {
        lastEventTime := now;
        phase := AtHead;
      } else if phase.WaitMessage? {
        PublishMessage(now);
      } else {
        Pause(now);
        phase := AtHead;
      }
    }
  }

  // ---- Whole runs ----

  datatype Event = Thread(now: int) | Pause(now: int) | Resume | Step(d: int) | Stop | Seek(rows: seq<Row>, now: int)

  predicate Possible(s: State, e: Event) {
    match e
    case Thread(now) => Enabled(s, now)
    case Seek(rows, _) => rows != []
    case _ => true
  }

  function After(s: State, e: Event): State
    requires Inv(s) && Possible(s, e)
  {
    match e
    case Thread(now) => Turn(s, now)
    case Pause(now) => Paused(s, now)
    case Resume => Resumed(s)
    case Step(d) => Stepped(s, d)
    case Stop => Stopped(s)
    case Seek(rows, now) => Sought(s, rows, now)
  }

  lemma AfterKeepsInv(s: State, e: Event)
    requires Inv(s) && Possible(s, e)
    ensures Inv(After(s, e))
  {
  }

  ghost predicate Run(states: seq<State>, events: seq<Event>) {
    && |states| == |events| + 1 && Inv(states[0])
    && forall i :: 0 <= i < |events| ==>
         Inv(states[i]) && Possible(states[i], events[i]) && states[i + 1] == After(states[i], events[i])
  }

  /** Between two seeks, whatever is paused, resumed, stepped or stopped, the
      thread publishes consecutive rows of the batch, none twice. */
  lemma {:induction false} PublishesConsecutiveRows(states: seq<State>, events: seq<Event>, k: nat)
    requires Run(states, events) && k < |states|
    requires forall i :: 0 <= i < |events| ==> !events[i].Seek?
    ensures var s, e := states[0], states[k];
            && Inv(e) && e.rows == s.rows && s.pos <= e.pos
            && e.published == s.published + s.rows[s.pos..e.pos]
  {
    if k == 0 {
      assert states[0].rows[states[0].pos..states[0].pos] == [];
    } else {
      PublishesConsecutiveRows(states, events, k - 1);
      var d := states[k - 1];
      AfterKeepsInv(d, events[k - 1]);
      AfterPublishes(d, events[k - 1]);
      hide After, Inv;
      SlicesJoin(states[0].published, d.rows, states[0].pos, d.pos, states[k].pos);
    }
  }

  lemma AfterPublishes(s: State, e: Event)
    requires Inv(s) && Possible(s, e) && !e.Seek?
    ensures var s' := After(s, e);
            s'.rows == s.rows && s.pos <= s'.pos <= |s.rows| && s'.published == s.published + s.rows[s.pos..s'.pos]
  {
  }

  lemma SlicesJoin(before: seq<Row>, rows: seq<Row>, i: nat, j: nat, k: nat)
    requires i <= j <= k <= |rows|
    ensures (before + rows[i..j]) + rows[j..k] == before + rows[i..k]
  {
  }

  /** So with no seek at all the published rows are a prefix of the query
      result, and all of it once the thread finished without a stop. */
  lemma PublishesPrefix(states: seq<State>, events: seq<Event>, rows: seq<Row>, logStart: int, msgWaiting: bool,
                        now: int)
    requires Run(states, events) && rows != [] && states[0] == Started(rows, logStart, msgWaiting, now)
    requires forall i :: 0 <= i < |events| ==> !events[i].Seek?
    ensures states[|events|].published <= rows
    ensures states[|events|].phase.Over? && !states[|events|].stop ==> states[|events|].published == rows
  {
    PublishesConsecutiveRows(states, events, |events|);
    OverMeansStoppedOrDone(states, events, |events|);
    var e := states[|events|];
    assert rows[0..e.pos] == rows[..e.pos];
    assert rows[..|rows|] == rows;
  }

  /** After a seek the thread goes on with the rows the new query found, from
      the first, whatever it was doing before. */
  lemma SeekRestarts(s: State, found: seq<Row>, now: int, states: seq<State>, events: seq<Event>)
    requires Inv(s) && !s.stop && found != [] && Run(states, events) && states[0] == Sought(s, found, now)
    requires forall i :: 0 <= i < |events| ==> !events[i].Seek?
    ensures var e := states[|events|];
            e.pos <= |found| && e.published == s.published + found[..e.pos]
  {
    PublishesConsecutiveRows(states, events, |events|);
  }

  /** The first found row is due at once when the thread is at the loop head, or
      as soon as a pause ends; it is due at its own distance from the log's
      start when playback begins. */
  lemma SeekIsDueAtOnce(s: State, found: seq<Row>, now: int, resumedAt: int)
    requires Inv(s) && !s.stop && found != []
    ensures var s' := Sought(s, found, now);
            && Inv(s') && s'.playbackTime == found[0].time && s'.lastEvent == now && s'.boundary == None
            && (s.phase.AtHead? && !s.paused ==> Enabled(s', now) && Turn(s', now).phase == WaitMessage(now))
            && (s.phase.Blocked? ==>
                  && Enabled(Resumed(s'), resumedAt)
                  && var head := Turn(Resumed(s'), resumedAt);
                     head.phase.AtHead? && Turn(head, resumedAt).phase == WaitMessage(resumedAt))
  {
    AfterKeepsInv(s, Seek(found, now));
    if s.phase.Blocked? {
      TurnKeepsInv(Resumed(Sought(s, found, now)), resumedAt);
    }
  }

  lemma StartIsDue(rows: seq<Row>, logStart: int, msgWaiting: bool, now: int)
    requires rows != []
    ensures var s := Started(rows, logStart, msgWaiting, now);
            Inv(s) && Turn(s, now).phase == WaitMessage(now + (rows[0].time - logStart))
  {
  }

  /** A stop ends playback: wherever the thread is, it can go on at any time and
      is over after two turns, with at most the awaited row published. */
  lemma StopEnds(s: State, first: int, second: int)
    requires Inv(s) && !s.phase.Over?
    ensures var s0 := Stopped(s);
            && Inv(s0) && Enabled(s0, first)
            && var s1 := Turn(s0, first);
               && Inv(s1)
               && s1.published == s.published + (if s.phase.WaitMessage? then [s.rows[s.pos]] else [])
               && (!s1.phase.Over? ==>
                     Enabled(s1, second) && Turn(s1, second).phase.Over? && Turn(s1, second).published == s1.published)
  {
    TurnKeepsInv(Stopped(s), first);
  }

  lemma {:induction false} OverMeansStoppedOrDone(states: seq<State>, events: seq<Event>, k: nat)
    requires Run(states, events) && k < |states| && !states[0].phase.Over?
    requires forall i :: 0 <= i < |events| ==> !events[i].Seek?
    ensures states[k].phase.Over? ==> states[k].stop || states[k].pos == |states[k].rows|
  {
    if k > 0 {
      OverMeansStoppedOrDone(states, events, k - 1);
    }
  }

  // ---- Stepping ----

  /** The thread alone, up to the moment it is paused again or over. */
  ghost predicate ThreadRuns(s: State, nows: seq<int>)
    decreases |nows|
  {
    if nows == [] then s.paused || s.phase.Over?
    else
      && Inv(s) && !s.paused && !s.phase.Over?
      && Enabled(s, nows[0]) && s.lastEvent <= nows[0]
      && ThreadRuns(Turn(s, nows[0]), nows[1..])
  }

  ghost function AfterTurns(s: State, nows: seq<int>): State
    requires ThreadRuns(s, nows)
    decreases |nows|
  {
    if nows == [] then s else AfterTurns(Turn(s, nows[0]), nows[1..])
  }

  /** Turns of the thread alone, none of them after it paused or ended. */
  ghost predicate Turns(s: State, nows: seq<int>)
    decreases |nows|
  {
    nows == [] || (&& Inv(s) && !s.paused && !s.phase.Over? && Enabled(s, nows[0])
                   && Turns(Turn(s, nows[0]), nows[1..]))
  }

  /** How many turns the thread can still take: two for each row left. */
  function TurnsLeft(s: State): nat
    requires Inv(s)
  {
    var left := |s.rows| - s.pos;
    match s.phase
    case AtHead => 2 * left + 1
    case Blocked => 2 * left + 2
    case WaitMessage(_) => 2 * left
    case WaitStep(_) => 1
    case Over => 0
  }

  /** Left alone the thread takes at most so many turns, whenever they come. */
  lemma {:induction false} TurnsAreFew(s: State, nows: seq<int>)
    requires Inv(s) && Turns(s, nows)
    ensures |nows| <= TurnsLeft(s)
    decreases |nows|
  {
    if nows != [] {
      var s' := Turn(s, nows[0]);
      TurnKeepsInv(s, nows[0]);
      if s.phase.WaitStep? {
        assert nows[1..] == [];
      } else {
        TurnsAreFew(s', nows[1..]);
      }
    }
  }

  /** And it never gets stuck: however far it went, it can go on to where it is
      paused or over, and each of its waits ends by itself. */
  lemma {:induction false} RunsToTheEnd(s: State) returns (nows: seq<int>)
    requires Inv(s)
    ensures ThreadRuns(s, nows) && |nows| <= TurnsLeft(s)
    decreases TurnsLeft(s)
  {
    if s.paused || s.phase.Over? {
      nows := [];
    } else {
      var target := match s.phase case WaitMessage(t) => t case WaitStep(t) => t case _ => s.lastEvent;
      var now := if target < s.lastEvent then s.lastEvent else target;
      TurnKeepsInv(s, now);
      if s.phase.WaitStep? {
        nows := [now];
      } else {
        var rest := RunsToTheEnd(Turn(s, now));
        nows := [now] + rest;
      }
    }
  }

  /** How many rows from `pos` on have a time within the boundary. */
  function UpTo(rows: seq<Row>, pos: nat, boundary: int): (k: nat)
    requires pos <= |rows|
    ensures pos <= k <= |rows|
    decreases |rows| - pos
  {
    if pos < |rows| && rows[pos].time <= boundary then UpTo(rows, pos + 1, boundary) else pos
  }

  lemma {:induction false} UpToIs(rows: seq<Row>, pos: nat, boundary: int)
    requires Sorted(rows) && pos <= |rows|
    ensures forall i :: pos <= i < |rows| ==> (i < UpTo(rows, pos, boundary) <==> rows[i].time <= boundary)
    decreases |rows| - pos
  {
    if pos < |rows| && rows[pos].time <= boundary {
      UpToIs(rows, pos + 1, boundary);
    }
  }

  /** The thread is about to act on the boundary it reads. */
  predicate Heeds(s: State, boundary: int) {
    match s.phase
    case AtHead => true
    case Blocked => true
    case WaitMessage(_) => s.nextTime <= boundary
    case WaitStep(target) => s.nextTime > boundary && target >= s.lastEvent + (boundary - s.playbackTime)
    case Over => false
  }

  lemma SliceCons(before: seq<Row>, rows: seq<Row>, pos: nat, k: nat)
    requires pos < k <= |rows|
    ensures before + rows[pos..k] == before + [rows[pos]] + rows[pos + 1..k]
  {
  }

  lemma {:induction false} StepRuns(s: State, nows: seq<int>, boundary: int)
    requires Inv(s) && !s.stop && !s.paused && s.boundary == Some(boundary) && Heeds(s, boundary)
    requires ThreadRuns(s, nows)
    ensures var e := AfterTurns(s, nows);
            && e.published == s.published + s.rows[s.pos..UpTo(s.rows, s.pos, boundary)]
            && (e.paused ==> e.playbackTime >= boundary)
            && (e.phase.Over? ==> UpTo(s.rows, s.pos, boundary) == |s.rows|)
    decreases |nows|
  {
    if nows != [] {
      var s' := Turn(s, nows[0]);
      match s.phase
      case AtHead =>
        if s.pos == |s.rows| {
          assert s.rows[s.pos..s.pos] == [];
        } else {
          StepRuns(s', nows[1..], boundary);
        }
      case Blocked => StepRuns(s', nows[1..], boundary);
      case WaitMessage(_) =>
        StepRuns(s', nows[1..], boundary);
        var k := UpTo(s.rows, s.pos, boundary);
        assert s.rows[s.pos].time <= boundary && k == UpTo(s.rows, s.pos + 1, boundary);
        SliceCons(s.published, s.rows, s.pos, k);
      case WaitStep(_) => assert s.rows[s.pos..s.pos] == [];
    }
  }

  /** Step(d) on a playback paused at time p, the thread being in no wait, with
      no outside call until the thread pauses again or ends: it publishes exactly the remaining rows with
      time at most p + d, in order, and then either pauses with the playback
      time at p + d or later, or is over with nothing left. */
  lemma StepPublishesUpTo(s: State, d: int, nows: seq<int>)
    requires Inv(s) && Sorted(s.rows) && s.paused && !s.stop && (s.phase.AtHead? || s.phase.Blocked?)
    requires d != 0 && ThreadRuns(Stepped(s, d), nows)
    ensures var e := AfterTurns(Stepped(s, d), nows);
            var k := UpTo(s.rows, s.pos, s.playbackTime + d);
            && (forall i :: s.pos <= i < |s.rows| ==> (i < k <==> s.rows[i].time <= s.playbackTime + d))
            && e.published == s.published + s.rows[s.pos..k]
            && (e.paused || e.phase.Over?)
            && (e.paused ==> e.playbackTime >= s.playbackTime + d)
            && (e.phase.Over? ==> k == |s.rows|)
  {
    UpToIs(s.rows, s.pos, s.playbackTime + d);
    StepRuns(Stepped(s, d), nows, s.playbackTime + d);
    EndsSettled(Stepped(s, d), nows);
  }

  /** A step ends: the thread alone takes at most two turns for each remaining
      row and two more, and from wherever it got to it reaches the end. */
  lemma StepEnds(s: State, d: int, nows: seq<int>)
    requires Inv(s) && Turns(Stepped(s, d), nows)
    ensures |nows| <= 2 * (|s.rows| - s.pos) + 2
    ensures exists more :: ThreadRuns(AfterSome(Stepped(s, d), nows), more)
  {
    TurnsAreFew(Stepped(s, d), nows);
    SomeKeepInv(Stepped(s, d), nows);
    var more := RunsToTheEnd(AfterSome(Stepped(s, d), nows));
  }

  ghost function AfterSome(s: State, nows: seq<int>): State
    requires Turns(s, nows)
    decreases |nows|
  {
    if nows == [] then s else AfterSome(Turn(s, nows[0]), nows[1..])
  }

  lemma {:induction false} SomeKeepInv(s: State, nows: seq<int>)
    requires Inv(s) && Turns(s, nows)
    ensures Inv(AfterSome(s, nows))
    decreases |nows|
  {
    if nows != [] {
      TurnKeepsInv(s, nows[0]);
      SomeKeepInv(Turn(s, nows[0]), nows[1..]);
    }
  }

  lemma {:induction false} EndsSettled(s: State, nows: seq<int>)
    requires ThreadRuns(s, nows)
    ensures AfterTurns(s, nows).paused || AfterTurns(s, nows).phase.Over?
    decreases |nows|
  {
    if nows != [] {
      EndsSettled(Turn(s, nows[0]), nows[1..]);
    }
  }

  /** A step that arrives while the thread still waits to publish a message
      stays exact if and only if that message is within the step: the wait was
      begun before the boundary was set and does not look at it. */
  lemma StepDuringWaitIff(s: State, d: int, nows: seq<int>)
    requires Inv(s) && Sorted(s.rows) && s.paused && !s.stop && s.phase.WaitMessage?
    requires d != 0 && ThreadRuns(Stepped(s, d), nows)
    ensures var e := AfterTurns(Stepped(s, d), nows);
            var k := UpTo(s.rows, s.pos, s.playbackTime + d);
            e.published == s.published + s.rows[s.pos..k] <==> s.rows[s.pos].time <= s.playbackTime + d
  {
    var s1 := Stepped(s, d);
    if s.rows[s.pos].time <= s.playbackTime + d {
      StepRuns(s1, nows, s.playbackTime + d);
    } else {
      assert s.rows[s.pos..s.pos] == [];
      PublishedGrows(Turn(s1, nows[0]), nows[1..]);
    }
  }

  /** A step that arrives while the thread still waits for an earlier step to
      end is taken over by that wait: the thread publishes nothing, pauses
      itself at the old target and drops the new boundary. The step is exact if
      and only if it has no row to publish, and playback comes as far as asked
      if and only if the old wait outlasts the new step. */
  lemma StepDuringStepIff(s: State, d: int, nows: seq<int>)
    requires Inv(s) && Sorted(s.rows) && s.paused && !s.stop && s.phase.WaitStep?
    requires d != 0 && ThreadRuns(Stepped(s, d), nows)
    ensures var e := AfterTurns(Stepped(s, d), nows);
            var k := UpTo(s.rows, s.pos, s.playbackTime + d);
            && |nows| == 1 && e.paused && e.boundary == None && e.published == s.published
            && (e.published == s.published + s.rows[s.pos..k] <==> s.rows[s.pos].time > s.playbackTime + d)
            && (e.playbackTime >= s.playbackTime + d <==> nows[0] >= s.lastEvent + d)
  {
    var e := Turn(Stepped(s, d), nows[0]);
    assert e.paused && nows[1..] == [];
    assert AfterTurns(Stepped(s, d), nows) == AfterTurns(e, []) == e;
  }

  predicate RowWithin(s: State, i: nat, boundary: int) {
    i < |s.rows| && s.rows[i].time <= boundary
  }

  /** Whether a step from this paused state will publish just the rows within
      it: always while the thread is in no wait, and otherwise by the next row
      alone, which a wait for a message publishes and a wait for an earlier
      step does not. After a stop the thread only ends such a wait. */
  predicate StepsExactly(s: State, d: int) {
    var boundary := s.playbackTime + d;
    match s.phase
    case AtHead => s.stop ==> !RowWithin(s, s.pos, boundary)
    case Blocked => s.stop ==> !RowWithin(s, s.pos, boundary)
    case WaitMessage(_) => RowWithin(s, s.pos, boundary) && (s.stop ==> !RowWithin(s, s.pos + 1, boundary))
    case WaitStep(_) => !RowWithin(s, s.pos, boundary)
    case Over => !RowWithin(s, s.pos, boundary)
  }

  lemma StoppedPublishesNothing(s: State, nows: seq<int>)
    requires s.stop && s.phase.AtHead? && ThreadRuns(s, nows)
    ensures AfterTurns(s, nows).published == s.published
  {
    if nows != [] {
      assert nows[1..] == [];
      assert AfterTurns(s, nows) == AfterTurns(Turn(s, nows[0]), nows[1..]) == Turn(s, nows[0]);
    }
  }

  lemma StepOfStoppedIff(s: State, d: int, nows: seq<int>)
    requires Inv(s) && s.paused && s.stop && d != 0 && ThreadRuns(Stepped(s, d), nows)
    ensures var k := UpTo(s.rows, s.pos, s.playbackTime + d);
            AfterTurns(Stepped(s, d), nows).published == s.published + s.rows[s.pos..k] <==> StepsExactly(s, d)
  {
    var s1 := Stepped(s, d);
    match s.phase
    case AtHead => StoppedPublishesNothing(s1, nows);
    case Blocked => StoppedPublishesNothing(Turn(s1, nows[0]), nows[1..]);
    case WaitMessage(_) =>
      StoppedPublishesNothing(Turn(s1, nows[0]), nows[1..]);
      NextRowOnly(s, s.playbackTime + d);
    case WaitStep(_) =>
      assert nows[1..] == [];
      assert AfterTurns(s1, nows) == AfterTurns(Turn(s1, nows[0]), nows[1..]) == Turn(s1, nows[0]);
    case Over => assert nows == [];
  }

  lemma NextRowOnly(s: State, boundary: int)
    requires s.pos < |s.rows|
    ensures var k := UpTo(s.rows, s.pos, boundary);
            (s.published + [s.rows[s.pos]] == s.published + s.rows[s.pos..k])
              <==> (RowWithin(s, s.pos, boundary) && !RowWithin(s, s.pos + 1, boundary))
  {
    var k := UpTo(s.rows, s.pos, boundary);
    if RowWithin(s, s.pos, boundary) {
      assert k == UpTo(s.rows, s.pos + 1, boundary);
      assert RowWithin(s, s.pos + 1, boundary) ==> k == UpTo(s.rows, s.pos + 2, boundary);
    }
    assert |s.published + [s.rows[s.pos]]| == |s.published| + 1;
    assert |s.published + s.rows[s.pos..k]| == |s.published| + k - s.pos;
  }

  /** Step(d) on any paused playback, wherever the thread is: it publishes
      exactly the remaining rows with time at most p + d if and only if the
      state it meets is one of those above. */
  lemma StepIsExactIff(s: State, d: int, nows: seq<int>)
    requires Inv(s) && Sorted(s.rows) && s.paused && d != 0 && ThreadRuns(Stepped(s, d), nows)
    ensures var k := UpTo(s.rows, s.pos, s.playbackTime + d);
            AfterTurns(Stepped(s, d), nows).published == s.published + s.rows[s.pos..k] <==> StepsExactly(s, d)
  {
    if s.stop {
      StepOfStoppedIff(s, d, nows);
    } else {
      match s.phase
      case AtHead => StepPublishesUpTo(s, d, nows);
      case Blocked => StepPublishesUpTo(s, d, nows);
      case WaitMessage(_) => StepDuringWaitIff(s, d, nows);
      case WaitStep(_) => StepDuringStepIff(s, d, nows);
      case Over => assert nows == [];
    }
  }

  /** One more event after a run that ends in `s`. */
  lemma RunSnoc(states: seq<State>, events: seq<Event>, s: State, e: Event) returns (longer: seq<State>)
    requires Run(states, events) && states[|events|] == s && Inv(s) && Possible(s, e)
    ensures longer == states + [After(s, e)] && Run(longer, events + [e])
  {
    longer := states + [After(s, e)];
  }

  /** Two runs, the second from where the first ends. */
  lemma RunJoin(a: seq<State>, before: seq<Event>, b: seq<State>, later: seq<Event>) returns (all: seq<State>)
    requires Run(a, before) && Run(b, later) && a[|before|] == b[0]
    ensures all == a + b[1..] && Run(all, before + later)
  {
    all := a + b[1..];
    assert all[|before|..] == b;
    var events := before + later;
    forall i | 0 <= i < |events|
      ensures Inv(all[i]) && Possible(all[i], events[i]) && all[i + 1] == After(all[i], events[i])
    {
      assert i >= |before| ==> all[i] == b[i - |before|] && all[i + 1] == b[i + 1 - |before|];
    }
  }

  lemma ThreeEvents(s: State, e: Event, f: Event, g: Event, t: State, u: State) returns (states: seq<State>)
    requires Inv(s) && Possible(s, e) && t == After(s, e) && Inv(t) && Possible(t, f) && u == After(t, f)
    requires Inv(u) && Possible(u, g)
    ensures Run(states, [e, f, g]) && states == [s, t, u, After(u, g)]
  {
    states := [s, t, u, After(u, g)];
  }

  const TWO_ROWS := [Row(1, 0), Row(2, 100)]

  /** Paused at once, then Step(10). */
  lemma FirstStep(s: State) returns (states: seq<State>)
    requires Inv(s) && s.phase.AtHead? && !s.paused && !s.stop && s.pos < |s.rows| && s.playbackTime == s.lastEvent == 0
    ensures Run(states, [Pause(0), Thread(0), Step(10)]) && |states| == 4 && states[0] == s
    ensures states[3] == s.(boundary := Some(10), phase := Blocked)
  {
    var t := s.(paused := true, boundary := None);
    states := ThreeEvents(s, Pause(0), Thread(0), Step(10), t, t.(phase := Blocked));
  }

  /** The row at 0 is published. */
  lemma RowComes(s: State) returns (states: seq<State>)
    requires Inv(s) && s.phase.Blocked? && !s.paused && !s.stop && s.playbackTime == s.lastEvent == s.nextTime == 0
    requires s.pos + 1 < |s.rows| && s.boundary == Some(10)
    ensures Run(states, [Thread(0), Thread(0), Thread(0)]) && |states| == 4 && states[0] == s
    ensures states[3] == Published(s, 0)
  {
    states := ThreeEvents(s, Thread(0), Thread(0), Thread(0), s.(phase := AtHead), s.(phase := WaitMessage(0)));
  }

  /** The pause at 2 finds the thread waiting; Step(200). */
  lemma PauseInStep(s: State) returns (states: seq<State>)
    requires s == State(TWO_ROWS, 1, 0, Some(10), 100, 0, false, false, true, AtHead, [TWO_ROWS[0]], [0])
    ensures Run(states, [Thread(0), Pause(2), Step(200)]) && |states| == 4 && states[0] == s
    ensures states[2].paused && states[2].playbackTime == 2
    ensures states[3] == State(TWO_ROWS, 1, 2, Some(202), 100, 2, false, false, true, WaitStep(10), [TWO_ROWS[0]], [0])
  {
    var t := s.(phase := WaitStep(10));
    states := ThreeEvents(s, Thread(0), Pause(2), Step(200), t,
                          t.(paused := true, playbackTime := 2, lastEvent := 2, boundary := None));
  }

  /** It does happen: rows at 0 and 100, Step(10), a pause at 2 while the thread
      waits for that step to end, then Step(200). The thread pauses itself at
      playback time 10 and the row at 100 is not published. */
  lemma StepMayEndEarly() returns (states: seq<State>)
    ensures Run(states, [Pause(0), Thread(0), Step(10)] + [Thread(0), Thread(0), Thread(0)]
                        + [Thread(0), Pause(2), Step(200)] + [Thread(10)])
    ensures |states| == 11 && states[0] == Started(TWO_ROWS, 0, true, 0)
    ensures states[8].paused && states[8].playbackTime == 2
    ensures states[10].paused && states[10].playbackTime == 10 && states[10].boundary == None
    ensures states[10].published == [TWO_ROWS[0]]
  {
    hide Run;
    var a := FirstStep(Started(TWO_ROWS, 0, true, 0));
    var b := RowComes(a[3]);
    var c := PauseInStep(b[3]);
    var ab := RunJoin(a, [Pause(0), Thread(0), Step(10)], b, [Thread(0), Thread(0), Thread(0)]);
    var abc := RunJoin(ab, [Pause(0), Thread(0), Step(10)] + [Thread(0), Thread(0), Thread(0)],
                       c, [Thread(0), Pause(2), Step(200)]);
    states := RunSnoc(abc, [Pause(0), Thread(0), Step(10)] + [Thread(0), Thread(0), Thread(0)]
                           + [Thread(0), Pause(2), Step(200)], c[3], Thread(10));
  }

  lemma {:induction false} PublishedGrows(s: State, nows: seq<int>)
    requires ThreadRuns(s, nows)
    ensures |s.published| <= |AfterTurns(s, nows).published|
    decreases |nows|
  {
    if nows != [] {
      PublishedGrows(Turn(s, nows[0]), nows[1..]);
    }
  }

  /** While playback stays paused the thread publishes at most one more row,
      and that only if the pause found it waiting to publish: the pause lets
      that wait end. */
  lemma {:induction false} PausedPublishesAtMostOne(states: seq<State>, events: seq<Event>, k: nat)
    requires Run(states, events) && k < |states| && states[0].paused
    requires forall i :: 0 <= i < |events| ==> events[i].Thread?
    ensures var s, e := states[0], states[k];
            && e.paused && e.rows == s.rows
            && (e.phase.WaitMessage? ==> e == s)
            && (e.published == s.published || (s.phase.WaitMessage? && e.published == s.published + [s.rows[s.pos]]))
  {
    if k > 0 {
      PausedPublishesAtMostOne(states, events, k - 1);
      assert events[k - 1].Thread?;
    }
  }

  /** The real time at which the thread would publish the next row. */
  function Due(s: State): int {
    s.lastEvent + (s.nextTime - s.playbackTime)
  }

  /** A pause taken over by the thread and ended by a resume shifts the
      schedule by exactly its own length: what was left to wait is still left. */
  lemma PauseShiftsSchedule(s: State, pausedAt: int, resumedAt: int)
    requires Inv(s) && s.phase.AtHead? && !s.paused && !s.stop && s.pos < |s.rows|
    ensures var blocked := Turn(Paused(s, pausedAt), pausedAt);
            && blocked.phase.Blocked? && Enabled(Resumed(blocked), resumedAt)
            && Due(Turn(Resumed(blocked), resumedAt)) == Due(s) + (resumedAt - pausedAt)
  {
    TurnKeepsInv(Paused(s, pausedAt), pausedAt);
  }

  /** When the next row is scheduled, if a blocked thread goes on at `now`. */
  function Scheduled(s: State, now: int): int {
    match s.phase
    case WaitMessage(target) => target
    case Blocked => now + (s.nextTime - s.playbackTime)
    case _ => Due(s)
  }

  /** A pause and the resume that ends it shift the schedule, by the time
      between them, if and only if the thread is blocked by the pause. A thread
      that comes by neither the loop head nor the end of its wait meanwhile
      keeps its schedule, one whose wait ends publishes the row while paused,
      and a thread still blocked by an earlier pause counts the last one
      only. */
  lemma PauseShiftsIff(s: State, pausedAt: int, seen: Option<int>, resumedAt: int)
    requires Inv(s) && !s.paused && !s.stop && s.pos < |s.rows| && pausedAt < resumedAt
    requires s.phase.AtHead? || s.phase.Blocked? || s.phase.WaitMessage?
    requires seen.Some? ==> Enabled(Paused(s, pausedAt), seen.value)
    ensures var p := Paused(s, pausedAt);
            var q := if seen.Some? then Turn(p, seen.value) else p;
            var shift := Scheduled(Resumed(q), resumedAt) - Scheduled(s, s.lastEvent);
            && (s.phase.WaitMessage? && seen.Some? ==> q.published == s.published + [s.rows[s.pos]])
            && (!(s.phase.WaitMessage? && seen.Some?) ==>
                  && q.published == s.published
                  && (q.phase.Blocked? <==> s.phase.Blocked? || seen.Some?)
                  && shift == if q.phase.Blocked? then resumedAt - pausedAt else 0)
  {
  }

  // ---- Pacing ----

  /** The waits leave at least the log's own time since the last publication,
      when that is number `n` or a later one. */
  predicate Paced(s: State, n: nat) {
    |s.stamps| == |s.published| &&
    (n < |s.published| ==>
       && s.lastEvent - s.playbackTime >= Lag(s)
       && (s.phase.WaitMessage? ==> s.phase.target - s.nextTime >= Lag(s)))
  }

  /** The clock against the log time at the last publication. */
  function Lag(s: State): int
    requires s.published != [] && |s.stamps| == |s.published|
  {
    s.stamps[|s.stamps| - 1] - s.published[|s.published| - 1].time
  }

  /** From publication `n` on, no two consecutive ones are closer in real time
      than their rows are in the log. */
  ghost predicate Spaced(s: State, n: nat) {
    && |s.published| == |s.stamps|
    && forall i :: n < i < |s.published| ==>
         s.stamps[i] - s.stamps[i - 1] >= s.published[i].time - s.published[i - 1].time
  }

  /** The thread's clock readings do not go back. */
  predicate Steady(s: State, e: Event) {
    e.Thread? ==> s.lastEvent <= e.now
  }

  predicate Interrupts(s: State, e: Event) {
    s.phase.WaitMessage? && (e.Pause? || e.Stop?)
  }

  lemma AfterKeepsPaced(s: State, e: Event, n: nat)
    requires Inv(s) && Possible(s, e) && !e.Seek? && Steady(s, e) && Paced(s, n)
    ensures Paced(After(s, e), n)
  {
  }

  lemma AfterKeepsSpaced(s: State, e: Event, n: nat)
    requires Inv(s) && Possible(s, e) && !e.Seek? && Paced(s, n) && Spaced(s, n) && s.msgWaiting
    requires s.phase.WaitMessage? ==> !s.paused && !s.stop
    ensures Spaced(After(s, e), n)
  {
  }

  /** With waiting on, playback never runs ahead of the log's own pace, through
      any pauses, resumes, steps and a stop, as long as no pause and no stop
      interrupts a wait for a message. */
  lemma {:induction false} NeverEarly(states: seq<State>, events: seq<Event>, k: nat)
    requires Run(states, events) && k < |states| && states[0].msgWaiting
    requires states[0].phase.WaitMessage? ==> !states[0].paused && !states[0].stop
    requires forall i :: 0 <= i < |events| ==>
               !events[i].Seek? && Steady(states[i], events[i]) && !Interrupts(states[i], events[i])
    ensures var n := |states[0].published|;
            && Spaced(states[k], n) && Paced(states[k], n) && states[k].msgWaiting
            && (states[k].phase.WaitMessage? ==> !states[k].paused && !states[k].stop)
  {
    if k > 0 {
      NeverEarly(states, events, k - 1);
      var s, e, n := states[k - 1], events[k - 1], |states[0].published|;
      AfterKeepsPaced(s, e, n);
      AfterKeepsSpaced(s, e, n);
      assert !Interrupts(s, e);
      hide Inv, Paced, Spaced;
    }
  }

  // ---- The exact time between two publications ----

  predicate JustPublished(s: State) {
    && s.published != [] && |s.stamps| == |s.published| && s.phase.AtHead?
    && s.lastEvent - s.playbackTime == Lag(s)
  }

  /** The time the thread was held up by pauses: from the pause it last saw to
      when it goes on. */
  function BlockedTime(states: seq<State>, events: seq<Event>): int
    requires |events| <= |states|
  {
    if events == [] then 0
    else
      var k := |events| - 1;
      BlockedTime(states, events[..k])
      + if states[k].phase.Blocked? && events[k].Thread? then events[k].now - states[k].lastEvent else 0
  }

  lemma AfterKeepsExact(s: State, e: Event, lag: int, blocked: int)
    requires Inv(s) && Possible(s, e) && !e.Seek? && After(s, e).published == s.published
    requires s.lastEvent - s.playbackTime == lag + blocked
    requires s.phase.WaitMessage? ==> s.phase.target - s.nextTime == lag + blocked
    ensures var s' := After(s, e);
            var blocked' := blocked + if s.phase.Blocked? && e.Thread? then e.now - s.lastEvent else 0;
            && s'.stamps == s.stamps
            && s'.lastEvent - s'.playbackTime == lag + blocked'
            && (s'.phase.WaitMessage? ==> s'.phase.target - s'.nextTime == lag + blocked')
  {
  }

  lemma {:induction false} WaitsAreExact(states: seq<State>, events: seq<Event>, k: nat)
    requires Run(states, events) && k < |states| && JustPublished(states[0])
    requires (forall i :: 0 <= i < |events| ==> !events[i].Seek?) && |states[k].published| == |states[0].published|
    ensures var s, lag := states[k], Lag(states[0]) + BlockedTime(states, events[..k]);
            && s.published == states[0].published && s.stamps == states[0].stamps
            && s.lastEvent - s.playbackTime == lag
            && (s.phase.WaitMessage? ==> s.phase.target - s.nextTime == lag)
  {
    if k > 0 {
      var s, e := states[k - 1], events[k - 1];
      PublishesConsecutiveRows(states, events, k - 1);
      AfterPublishes(s, e);
      WaitsAreExact(states, events, k - 1);
      AfterKeepsExact(s, e, Lag(states[0]), BlockedTime(states, events[..k - 1]));
      assert events[..k][..k - 1] == events[..k - 1];
    }
  }

  /** Between two consecutive publications passes exactly the time between
      their rows in the log, plus the time the thread was held up by pauses,
      plus how much later than its target the second wait ended. */
  lemma PublicationGap(states: seq<State>, events: seq<Event>, k: nat, now: int)
    requires Run(states, events) && k < |states| && JustPublished(states[0])
    requires (forall i :: 0 <= i < |events| ==> !events[i].Seek?) && |states[k].published| == |states[0].published|
    requires Inv(states[k]) && states[k].phase.WaitMessage? && Enabled(states[k], now)
    ensures var s, e, n := states[k], Turn(states[k], now), |states[k].published|;
            && JustPublished(e) && |e.published| == n + 1
            && e.stamps[n] - e.stamps[n - 1]
               == e.published[n].time - e.published[n - 1].time
                  + BlockedTime(states, events[..k]) + (now - s.phase.target)
  {
    WaitsAreExact(states, events, k);
    WaitGap(states[k], now, BlockedTime(states, events[..k]));
    hide Run, BlockedTime, Inv, Turn, JustPublished;
  }

  lemma WaitGap(s: State, now: int, blocked: int)
    requires Inv(s) && s.phase.WaitMessage? && Enabled(s, now) && s.published != []
    requires s.phase.target - s.nextTime == Lag(s) + blocked
    ensures var e, n := Turn(s, now), |s.published|;
            && JustPublished(e) && |e.published| == n + 1
            && e.stamps[n] - e.stamps[n - 1]
               == e.published[n].time - e.published[n - 1].time + blocked + (now - s.phase.target)
  {
  }

  /** A pause that finds the thread waiting to publish lets that wait end: the row
      comes whenever the thread runs next, and ahead of the log's pace if and
      only if that is earlier than the target by more than the time the thread
      was held up since the last publication. The same holds of a stop. */
  lemma PauseEndsTheWait(states: seq<State>, events: seq<Event>, k: nat, e: Event, now: int)
    requires Run(states, events) && k < |states| && JustPublished(states[0])
    requires (forall i :: 0 <= i < |events| ==> !events[i].Seek?) && |states[k].published| == |states[0].published|
    requires Inv(states[k]) && Interrupts(states[k], e)
    ensures var s := After(states[k], e);
            && Inv(s) && Enabled(s, now)
            && Turn(s, now).published == s.published + [s.rows[s.pos]]
            && (!Spaced(Turn(s, now), |s.published| - 1)
                <==> now + BlockedTime(states, events[..k]) < states[k].phase.target)
  {
    WaitsAreExact(states, events, k);
    InterruptedWait(states[k], e, now, BlockedTime(states, events[..k]));
  }

  lemma InterruptedWait(s: State, e: Event, now: int, blocked: int)
    requires Inv(s) && Interrupts(s, e) && s.published != [] && s.phase.target - s.nextTime == Lag(s) + blocked
    ensures var s' := After(s, e);
            && Inv(s') && Enabled(s', now)
            && Turn(s', now).published == s'.published + [s'.rows[s'.pos]]
            && (!Spaced(Turn(s', now), |s'.published| - 1) <==> now + blocked < s.phase.target)
  {
    var s' := After(s, e);
    var t, n := Turn(s', now), |s.published|;
    assert t.stamps[n] == now && t.stamps[n - 1] == s.stamps[n - 1];
    assert t.published[n] == s.rows[s.pos] && t.published[n - 1] == s.published[n - 1];
  }
}
