// The queue of messages waiting for the publish thread, and the removal of
// handlers from it when a node unsubscribes (src/NodeShared.cc).
module PubQueue {
  import opened Options
  import opened TopicNames

  /** A subscription handler as the queue holds it. */
  datatype Entry = Entry(nUuid: string, hUuid: string, ignoreLocal: bool)

  /** A queued message; its topic carries no partition. */
  datatype Pending = Pending(id: nat, topic: string, publisher: string, local: seq<Entry>, raw: seq<Entry>)

  /** One callback that was run. */
  datatype Run = Run(id: nat, topic: string, nUuid: string, hUuid: string, raw: bool)

  /** Whose handlers to remove. */
  datatype Target = WholeNode(nUuid: string) | OneHandler(nUuid: string, hUuid: string)

  predicate Names(x: Target, nUuid: string, hUuid: string) {
    nUuid == x.nUuid && (x.OneHandler? ==> hUuid == x.hUuid)
  }

  predicate Matches(e: Entry, x: Target) {
    Names(x, e.nUuid, e.hUuid)
  }

  function Kept(es: seq<Entry>, x: Target): seq<Entry> {
    if es == [] then []
    else
      var k := |es| - 1;
      Kept(es[..k], x) + if Matches(es[k], x) then [] else [es[k]]
  }

  function WithoutTarget(p: Pending, topic: string, x: Target): Pending {
    if p.topic == topic then p.(local := Kept(p.local, x), raw := Kept(p.raw, x)) else p
  }

  function Removed(queue: seq<Pending>, topic: string, x: Target): (r: seq<Pending>)
    ensures |r| == |queue| && forall i :: 0 <= i < |r| ==> r[i] == WithoutTarget(queue[i], topic, x)
  {
    seq(|queue|, i requires 0 <= i < |queue| => WithoutTarget(queue[i], topic, x))
  }

  // ---- What the publish thread runs ----

  function LocalRuns(p: Pending, es: seq<Entry>): seq<Run> {
    if es == [] then []
    else
      var k := |es| - 1;
      LocalRuns(p, es[..k]) +
      if es[k].ignoreLocal && p.publisher == es[k].nUuid then []
      else [Run(p.id, p.topic, es[k].nUuid, es[k].hUuid, false)]
  }

  /** Raw handlers run even for messages of their own node. */
  function RawRuns(p: Pending, es: seq<Entry>): seq<Run> {
    if es == [] then []
    else
      var k := |es| - 1;
      RawRuns(p, es[..k]) + [Run(p.id, p.topic, es[k].nUuid, es[k].hUuid, true)]
  }

  function RunsOf(p: Pending): seq<Run> {
    LocalRuns(p, p.local) + RawRuns(p, p.raw)
  }

  /** Everything the thread runs for a queue, oldest message first. */
  function AllRuns(queue: seq<Pending>): seq<Run> {
    if queue == [] then [] else RunsOf(queue[0]) + AllRuns(queue[1..])
  }

  // ---- The steps of the publish thread and of its callers ----

  /** `todo` is what the thread still has to run of the message it took: that
      message is no longer in the queue, and the queue's mutex is free. */
  datatype State = State(queue: seq<Pending>, todo: seq<Run>, ran: seq<Run>)

  datatype Event = Publish(p: Pending) | Take | RunOne | Remove(topic: string, x: Target)

  function Step(s: State, e: Event): State {
    match e
    case Publish(p) => s.(queue := s.queue + [p])
    case Take => if s.todo == [] && s.queue != [] then State(s.queue[1..], RunsOf(s.queue[0]), s.ran) else s
    case RunOne => if s.todo == [] then s else s.(todo := s.todo[1..], ran := s.ran + [s.todo[0]])
    case Remove(topic, x) => s.(queue := Removed(s.queue, topic, x))
  }

  function Steps(s: State, events: seq<Event>): State
    decreases |events|
  {
    if events == [] then s
    else Steps(Step(s, events[0]), events[1..])
  }

  class Queue {
    var pubQueue: seq<Pending>
    ghost var todo: seq<Run>
    var ran: seq<Run>

    ghost function Now(): State
      reads this
    {
      State(pubQueue, todo, ran)
    }

    constructor ()
      ensures Now() == State([], [], [])
    {
      pubQueue, todo, ran := [], [], [];
    }

    method Publish(p: Pending)
      modifies this`pubQueue
      ensures Now() == Step(old(Now()), Event.Publish(p))
    {
      pubQueue := pubQueue + [p];
    }

    /** The locked part of a turn of PublishThread. */
    method TakeMessage() returns (p: Pending)
      requires pubQueue != [] && todo == []
      modifies this`pubQueue, this`todo
      ensures Now() == Step(old(Now()), Take) && p == old(pubQueue)[0]
    {
      p := pubQueue[0];
      pubQueue := pubQueue[1..];
      todo := RunsOf(p);
    }

    method RunCallback(r: Run)
      requires todo != [] && todo[0] == r
      modifies this`ran, this`todo
      ensures Now() == Step(old(Now()), RunOne)
    {
      ran, todo := ran + [r], todo[1..];
    }

    /** One turn of the first loop. */
    method RunLocalCallback(p: Pending, i: nat)
      requires i < |p.local| && todo == LocalRuns(p, p.local[i..]) + RawRuns(p, p.raw)
      modifies this`ran, this`todo
      ensures todo == LocalRuns(p, p.local[i + 1..]) + RawRuns(p, p.raw)
      ensures ran == old(ran) + LocalRuns(p, [p.local[i]])
    {
      hide RawRuns;
      LocalRunsCons(p, p.local[i..]);
      assert p.local[i..][0] == p.local[i] && p.local[i..][1..] == p.local[i + 1..];
      hide LocalRuns;
      var handler := p.local[i];
      if handler.ignoreLocal && p.publisher == handler.nUuid {
        return;
      }
      DropFirst(Run(p.id, p.topic, handler.nUuid, handler.hUuid, false),
                LocalRuns(p, p.local[i + 1..]), RawRuns(p, p.raw));
      RunCallback(Run(p.id, p.topic, handler.nUuid, handler.hUuid, false));
    }

    method RunLocalCallbacks(p: Pending)
      requires todo == RunsOf(p)
      modifies this`ran, this`todo
      ensures todo == RawRuns(p, p.raw) && ran == old(ran) + LocalRuns(p, p.local)
    {
      assert p.local[0..] == p.local && LocalRuns(p, []) == [];
      hide LocalRuns, RawRuns;
      for i := 0 to |p.local|
        invariant todo == LocalRuns(p, p.local[i..]) + RawRuns(p, p.raw)
        invariant ran + LocalRuns(p, p.local[i..]) == old(ran) + LocalRuns(p, p.local)
      {
        LocalRunsCons(p, p.local[i..]);
        assert p.local[i..][0] == p.local[i] && p.local[i..][1..] == p.local[i + 1..];
        Regroup(ran, LocalRuns(p, [p.local[i]]), LocalRuns(p, p.local[i + 1..]));
        RunLocalCallback(p, i);
      }
    }

    method RunRawCallbacks(p: Pending)
      requires todo == RawRuns(p, p.raw)
      modifies this`ran, this`todo
      ensures todo == [] && ran == old(ran) + RawRuns(p, p.raw)
    {
      assert p.raw[0..] == p.raw && RawRuns(p, []) == [];
      hide RawRuns;
      for i := 0 to |p.raw|
        invariant todo == RawRuns(p, p.raw[i..])
        invariant ran + todo == old(ran) + RawRuns(p, p.raw)
      {
        RawRunsCons(p, p.raw[i..]);
        assert p.raw[i..][1..] == p.raw[i + 1..];
        MoveFirst(ran, todo);
        RunCallback(Run(p.id, p.topic, p.raw[i].nUuid, p.raw[i].hUuid, true));
      }
    }

    /** The two loops that follow, without the mutex: one step per callback. */
    method RunCallbacks(p: Pending)
      requires todo == RunsOf(p)
      modifies this`ran, this`todo
      ensures todo == [] && ran == old(ran) + RunsOf(p)
    {
      RunLocalCallbacks(p);
      RunRawCallbacks(p);
    }

    /** A turn with which nothing interleaves. */
    method PublishNext()
      requires pubQueue != [] && todo == []
      modifies this
      ensures pubQueue == old(pubQueue)[1..] && todo == [] && ran == old(ran) + RunsOf(old(pubQueue)[0])
    {
      var p := TakeMessage();
      RunCallbacks(p);
    }

    /** RemoveHandlersFromPubQueue and RemoveHandlerFromPubQueue: the message
        the thread has already taken is out of their reach. */
    method RemoveHandlers(topic: string, x: Target)
      modifies this`pubQueue
      ensures Now() == Step(old(Now()), Remove(topic, x))
    {
      for i := 0 to |pubQueue|
        invariant |pubQueue| == |old(pubQueue)|
        invariant forall j :: 0 <= j < i ==> pubQueue[j] == WithoutTarget(old(pubQueue)[j], topic, x)
        invariant forall j :: i <= j < |pubQueue| ==> pubQueue[j] == old(pubQueue)[j]
      {
        if pubQueue[i].topic != topic {
          continue;
        }
        var local := Erased(pubQueue[i].local, x);
        pubQueue := pubQueue[i := pubQueue[i].(local := local)];
        var raw := Erased(pubQueue[i].raw, x);
        pubQueue := pubQueue[i := pubQueue[i].(raw := raw)];
      }
    }
  }

  lemma DropFirst(r: Run, a: seq<Run>, b: seq<Run>)
    ensures ([r] + a + b)[0] == r && ([r] + a + b)[1..] == a + b && ([r] + a)[0] == r && ([r] + a)[1..] == a
  {
  }

  lemma Regroup(a: seq<Run>, b: seq<Run>, c: seq<Run>)
    ensures a + (b + c) == (a + b) + c
  {
  }

  lemma MoveFirst(a: seq<Run>, b: seq<Run>)
    requires b != []
    ensures a + [b[0]] + b[1..] == a + b
  {
  }

  lemma {:induction false} LocalRunsCons(p: Pending, es: seq<Entry>)
    requires es != []
    ensures LocalRuns(p, es) == LocalRuns(p, [es[0]]) + LocalRuns(p, es[1..])
    ensures LocalRuns(p, [es[0]]) == if es[0].ignoreLocal && p.publisher == es[0].nUuid then []
                                     else [Run(p.id, p.topic, es[0].nUuid, es[0].hUuid, false)]
  {
    assert [es[0]][..0] == [];
    if |es| == 1 {
      assert es == [es[0]];
    } else {
      var k := |es| - 1;
      LocalRunsCons(p, es[..k]);
      assert es[..k][1..] == es[1..][..k - 1];
    }
  }

  lemma {:induction false} RawRunsCons(p: Pending, es: seq<Entry>)
    requires es != []
    ensures RawRuns(p, es) == [Run(p.id, p.topic, es[0].nUuid, es[0].hUuid, true)] + RawRuns(p, es[1..])
  {
    if |es| == 1 {
      assert es[..0] == [] && es[1..] == [];
    } else {
      var k := |es| - 1;
      RawRunsCons(p, es[..k]);
      assert es[..k][1..] == es[1..][..k - 1];
    }
  }

  /** The loop that erases from a vector while it walks it. */
  method Erased(entries: seq<Entry>, x: Target) returns (es: seq<Entry>)
    ensures es == Kept(entries, x)
  {
    es := entries;
    var i := 0;
    ghost var done := 0;
    while i < |es|
      invariant i <= |es| && done <= |entries|
      invariant es[..i] == Kept(entries[..done], x)
      invariant es[i..] == entries[done..]
      decreases |es| - i
    {
      assert es[i] == es[i..][0] == entries[done];
      assert entries[..done + 1][..done] == entries[..done];
      assert es[i + 1..] == es[i..][1..] == entries[done + 1..];
      if Matches(es[i], x) {
        es := es[..i] + es[i + 1..];
      } else {
        assert es[..i + 1] == es[..i] + [es[i]];
        i := i + 1;
      }
      done := done + 1;
    }
    assert entries[..done] == entries && es[..i] == es;
  }

  // ---- Exactly the target's entries go ----

  /** The kept entries are the ones that do not match, each as often as
      before. */
  lemma {:induction false} KeptIs(es: seq<Entry>, x: Target)
    ensures forall e :: multiset(Kept(es, x))[e] == if Matches(e, x) then 0 else multiset(es)[e]
  {
    if es != [] {
      var k := |es| - 1;
      KeptIs(es[..k], x);
      assert es == es[..k] + [es[k]];
    }
  }

  lemma {:induction false} KeptOfConcat(a: seq<Entry>, b: seq<Entry>, x: Target)
    ensures Kept(a + b, x) == Kept(a, x) + Kept(b, x)
  {
    if b == [] {
      assert a + b == a;
    } else {
      var k := |b| - 1;
      assert (a + b)[..|a| + k] == a + b[..k];
      KeptOfConcat(a, b[..k], x);
    }
  }

  /** And they keep their order: cutting the vector anywhere cuts the kept
      part at the same place. */
  lemma KeptInOrder(es: seq<Entry>, i: nat, x: Target)
    requires i <= |es|
    ensures Kept(es, x) == Kept(es[..i], x) + Kept(es[i..], x)
  {
    assert es == es[..i] + es[i..];
    KeptOfConcat(es[..i], es[i..], x);
  }

  /** A removal takes the named entries of the topic's messages, all of the
      node or the one handler, and leaves every other entry as often as it
      was. */
  lemma RemovalIs(queue: seq<Pending>, topic: string, x: Target, i: nat)
    requires i < |queue|
    ensures var p, q := queue[i], Removed(queue, topic, x)[i];
            && q.id == p.id && q.topic == p.topic && q.publisher == p.publisher
            && forall e: Entry ::
                 var gone := p.topic == topic && e.nUuid == x.nUuid && (x.WholeNode? || e.hUuid == x.hUuid);
                 && multiset(q.local)[e] == (if gone then 0 else multiset(p.local)[e])
                 && multiset(q.raw)[e] == (if gone then 0 else multiset(p.raw)[e])
  {
    KeptIs(queue[i].local, x);
    KeptIs(queue[i].raw, x);
  }

  // ---- What removal does to the callbacks still to run ----

  function WithoutRuns(runs: seq<Run>, topic: string, x: Target): seq<Run> {
    if runs == [] then []
    else
      var k := |runs| - 1;
      WithoutRuns(runs[..k], topic, x) +
      if runs[k].topic == topic && Names(x, runs[k].nUuid, runs[k].hUuid) then [] else [runs[k]]
  }

  lemma {:induction false} WithoutRunsConcat(a: seq<Run>, b: seq<Run>, topic: string, x: Target)
    ensures WithoutRuns(a + b, topic, x) == WithoutRuns(a, topic, x) + WithoutRuns(b, topic, x)
  {
    if b == [] {
      assert a + b == a;
    } else {
      var k := |b| - 1;
      assert (a + b)[..|a| + k] == a + b[..k];
      WithoutRunsConcat(a, b[..k], topic, x);
    }
  }

  lemma WithoutRunsSnoc(a: seq<Run>, r: Run, topic: string, x: Target)
    ensures WithoutRuns(a + [r], topic, x)
         == WithoutRuns(a, topic, x) + if r.topic == topic && Names(x, r.nUuid, r.hUuid) then [] else [r]
  {
    assert (a + [r])[..|a|] == a;
  }

  lemma RunsSnoc(p: Pending, es: seq<Entry>, e: Entry)
    ensures LocalRuns(p, es + [e]) == LocalRuns(p, es) +
              if e.ignoreLocal && p.publisher == e.nUuid then [] else [Run(p.id, p.topic, e.nUuid, e.hUuid, false)]
    ensures RawRuns(p, es + [e]) == RawRuns(p, es) + [Run(p.id, p.topic, e.nUuid, e.hUuid, true)]
  {
    assert (es + [e])[..|es|] == es;
  }

  lemma {:induction false} LocalRunsKept(p: Pending, es: seq<Entry>, x: Target)
    ensures LocalRuns(p, Kept(es, x)) == WithoutRuns(LocalRuns(p, es), p.topic, x)
  {
    if es != [] {
      var k := |es| - 1;
      var kept := Kept(es[..k], x);
      LocalRunsKept(p, es[..k], x);
      assert es == es[..k] + [es[k]];
      RunsSnoc(p, es[..k], es[k]);
      if es[k].ignoreLocal && p.publisher == es[k].nUuid {
        assert LocalRuns(p, es) == LocalRuns(p, es[..k]);
      } else {
        WithoutRunsSnoc(LocalRuns(p, es[..k]), Run(p.id, p.topic, es[k].nUuid, es[k].hUuid, false), p.topic, x);
      }
      if Matches(es[k], x) {
        assert Kept(es, x) == kept;
      } else {
        RunsSnoc(p, kept, es[k]);
      }
    }
  }

  lemma {:induction false} RawRunsKept(p: Pending, es: seq<Entry>, x: Target)
    ensures RawRuns(p, Kept(es, x)) == WithoutRuns(RawRuns(p, es), p.topic, x)
  {
    if es != [] {
      var k := |es| - 1;
      RawRunsKept(p, es[..k], x);
      WithoutRunsSnoc(RawRuns(p, es[..k]), Run(p.id, p.topic, es[k].nUuid, es[k].hUuid, true), p.topic, x);
      RunsSnoc(p, Kept(es[..k], x), es[k]);
      RunsSnoc(p, es[..k], es[k]);
      assert es == es[..k] + [es[k]];
      assert Kept(es, x) == if Matches(es[k], x) then Kept(es[..k], x) else Kept(es[..k], x) + [es[k]];
    }
  }

  lemma {:induction false} OtherTopicKept(runs: seq<Run>, topic: string, x: Target)
    requires forall i :: 0 <= i < |runs| ==> runs[i].topic != topic
    ensures WithoutRuns(runs, topic, x) == runs
  {
    if runs != [] {
      OtherTopicKept(runs[..|runs| - 1], topic, x);
    }
  }

  lemma {:induction false} RunsCarryTopic(p: Pending, es: seq<Entry>)
    ensures forall i :: 0 <= i < |LocalRuns(p, es)| ==>
              LocalRuns(p, es)[i].topic == p.topic && LocalRuns(p, es)[i].id == p.id
    ensures forall i :: 0 <= i < |RawRuns(p, es)| ==> RawRuns(p, es)[i].topic == p.topic && RawRuns(p, es)[i].id == p.id
  {
    if es != [] {
      RunsCarryTopic(p, es[..|es| - 1]);
    }
  }

  /** How the runs of a message depend on the parts the loops read. */
  lemma {:induction false} SameHeaderSameRuns(p: Pending, q: Pending, es: seq<Entry>)
    requires p.id == q.id && p.topic == q.topic && p.publisher == q.publisher
    ensures LocalRuns(p, es) == LocalRuns(q, es) && RawRuns(p, es) == RawRuns(q, es)
  {
    if es != [] {
      SameHeaderSameRuns(p, q, es[..|es| - 1]);
    }
  }

  lemma RunsOfEdited(p: Pending, topic: string, x: Target)
    ensures RunsOf(WithoutTarget(p, topic, x)) == WithoutRuns(RunsOf(p), topic, x)
  {
    WithoutRunsConcat(LocalRuns(p, p.local), RawRuns(p, p.raw), topic, x);
    if p.topic == topic {
      LocalRunsKept(p, p.local, x);
      RawRunsKept(p, p.raw, x);
      SameHeaderSameRuns(p, WithoutTarget(p, topic, x), Kept(p.local, x));
      SameHeaderSameRuns(p, WithoutTarget(p, topic, x), Kept(p.raw, x));
    } else {
      RunsCarryTopic(p, p.local);
      RunsCarryTopic(p, p.raw);
      OtherTopicKept(LocalRuns(p, p.local), topic, x);
      OtherTopicKept(RawRuns(p, p.raw), topic, x);
    }
  }

  /** Removal from the queue amounts to deleting the target's callbacks for
      that topic from everything still to run: no other callback is lost,
      added or reordered. */
  lemma {:induction false} RemovalFiltersRuns(queue: seq<Pending>, topic: string, x: Target)
    ensures AllRuns(Removed(queue, topic, x)) == WithoutRuns(AllRuns(queue), topic, x)
    decreases |queue|
  {
    if queue != [] {
      RemovalFiltersRuns(queue[1..], topic, x);
      RunsOfEdited(queue[0], topic, x);
      WithoutRunsConcat(RunsOf(queue[0]), AllRuns(queue[1..]), topic, x);
      assert Removed(queue, topic, x)[1..] == Removed(queue[1..], topic, x);
    }
  }

  // ---- Whole runs ----

  /** No entry of the message is one of the target. */
  predicate Free(p: Pending, x: Target) {
    && (forall i :: 0 <= i < |p.local| ==> !Matches(p.local[i], x))
    && (forall i :: 0 <= i < |p.raw| ==> !Matches(p.raw[i], x))
  }

  predicate AllFree(queue: seq<Pending>, id: nat, x: Target) {
    forall i :: 0 <= i < |queue| && queue[i].id == id ==> Free(queue[i], x)
  }

  predicate CleanRuns(runs: seq<Run>, id: nat, x: Target) {
    forall i :: 0 <= i < |runs| && runs[i].id == id ==> !Names(x, runs[i].nUuid, runs[i].hUuid)
  }

  lemma {:induction false} KeptFree(es: seq<Entry>, x: Target)
    ensures forall i :: 0 <= i < |Kept(es, x)| ==> !Matches(Kept(es, x)[i], x) && Kept(es, x)[i] in es
  {
    if es != [] {
      KeptFree(es[..|es| - 1], x);
    }
  }

  lemma {:induction false} FreeRunsClean(p: Pending, es: seq<Entry>, x: Target)
    requires forall i :: 0 <= i < |es| ==> !Matches(es[i], x)
    ensures CleanRuns(LocalRuns(p, es), p.id, x) && CleanRuns(RawRuns(p, es), p.id, x)
  {
    if es != [] {
      FreeRunsClean(p, es[..|es| - 1], x);
    }
  }

  lemma RunsOfClean(p: Pending, id: nat, x: Target)
    requires p.id == id ==> Free(p, x)
    ensures CleanRuns(RunsOf(p), id, x)
  {
    if p.id == id {
      FreeRunsClean(p, p.local, x);
      FreeRunsClean(p, p.raw, x);
    } else {
      RunsCarryTopic(p, p.local);
      RunsCarryTopic(p, p.raw);
    }
  }

  lemma EditedStaysFree(p: Pending, topic: string, y: Target, x: Target)
    requires Free(p, x)
    ensures Free(WithoutTarget(p, topic, y), x)
  {
    KeptFree(p.local, y);
    KeptFree(p.raw, y);
  }

  lemma StepStaysFree(s: State, e: Event, id: nat, x: Target)
    requires AllFree(s.queue, id, x) && (e.Publish? ==> e.p.id != id)
    ensures AllFree(Step(s, e).queue, id, x)
  {
    match e
    case Remove(topic, y) =>
      forall i | 0 <= i < |s.queue| && s.queue[i].id == id
        ensures Free(WithoutTarget(s.queue[i], topic, y), x)
      {
        EditedStaysFree(s.queue[i], topic, y, x);
      }
    case _ =>
  }

  /** What ran during some events. */
  function RanDuring(s: State, events: seq<Event>): seq<Run> {
    var ran := Steps(s, events).ran;
    if |s.ran| <= |ran| then ran[|s.ran|..] else []
  }

  function Count(events: seq<Event>, e: Event): nat {
    if events == [] then 0 else (if events[0] == e then 1 else 0) + Count(events[1..], e)
  }

  lemma {:induction false} RanGrows(s: State, events: seq<Event>)
    ensures s.ran <= Steps(s, events).ran
    decreases |events|
  {
    if events != [] {
      RanGrows(Step(s, events[0]), events[1..]);
    }
  }

  lemma RanDuringCons(s: State, events: seq<Event>)
    requires events != []
    ensures RanDuring(s, events) == Step(s, events[0]).ran[|s.ran|..] + RanDuring(Step(s, events[0]), events[1..])
  {
    RanGrows(s, events);
    RanGrows(Step(s, events[0]), events[1..]);
  }

  /** The message the thread has taken is run to the end, in order, if the
      thread goes on, whatever is published or removed meanwhile. */
  lemma {:induction false} TakenIsRunFirst(s: State, events: seq<Event>)
    requires Count(events, RunOne) >= |s.todo|
    ensures s.todo <= RanDuring(s, events)
    decreases |events|
  {
    RanGrows(s, events);
    if events != [] && s.todo != [] {
      RanDuringCons(s, events);
      TakenIsRunFirst(Step(s, events[0]), events[1..]);
    }
  }

  /** While no queued message `id` names the target, a callback of the target
      for that message can only come from the message already taken. */
  lemma {:induction false} OnlyTakenRuns(s: State, x: Target, r: Run, events: seq<Event>)
    requires AllFree(s.queue, r.id, x) && Names(x, r.nUuid, r.hUuid)
    requires forall i :: 0 <= i < |events| && events[i].Publish? ==> events[i].p.id != r.id
    ensures r in RanDuring(s, events) ==> r in s.todo
    decreases |events|
  {
    if events != [] {
      var s1 := Step(s, events[0]);
      RanDuringCons(s, events);
      StepStaysFree(s, events[0], r.id, x);
      OnlyTakenRuns(s1, x, r, events[1..]);
      if events[0].Take? && s.todo == [] && s.queue != [] {
        RunsOfClean(s.queue[0], r.id, x);
      }
    }
  }

  lemma RemovedIsFree(queue: seq<Pending>, topic: string, x: Target, id: nat)
    requires forall i :: 0 <= i < |queue| && queue[i].id == id ==> queue[i].topic == topic
    ensures AllFree(Removed(queue, topic, x), id, x)
  {
    forall i | 0 <= i < |queue| && queue[i].id == id
      ensures Free(WithoutTarget(queue[i], topic, x), x)
    {
      KeptFree(queue[i].local, x);
      KeptFree(queue[i].raw, x);
    }
  }

  /** A callback of the target for a message published before the removal
      still runs afterwards if and only if the thread had already taken that
      message and not yet come to that callback when the handlers were removed,
      provided the thread goes on. Without that proviso it may only run less. */
  lemma RunsAfterRemovalIff(s: State, topic: string, x: Target, r: Run, events: seq<Event>)
    requires r.topic == topic && Names(x, r.nUuid, r.hUuid)
    requires forall i :: 0 <= i < |s.queue| && s.queue[i].id == r.id ==> s.queue[i].topic == topic
    requires forall i :: 0 <= i < |events| && events[i].Publish? ==> events[i].p.id != r.id
    ensures r in RanDuring(Step(s, Remove(topic, x)), events) ==> r in s.todo
    ensures Count(events, RunOne) >= |s.todo| ==>
              (r in RanDuring(Step(s, Remove(topic, x)), events) <==> r in s.todo)
  {
    var s1 := Step(s, Remove(topic, x));
    RemovedIsFree(s.queue, topic, x, r.id);
    OnlyTakenRuns(s1, x, r, events);
    if Count(events, RunOne) >= |s.todo| {
      TakenIsRunFirst(s1, events);
    }
  }

  /** Messages differ, and the one taken is not in the queue. */
  ghost predicate Distinct(s: State) {
    && (forall i, j :: 0 <= i < j < |s.queue| ==> s.queue[i].id != s.queue[j].id)
    && (forall i, j :: 0 <= i < |s.todo| && 0 <= j < |s.queue| ==> s.todo[i].id != s.queue[j].id)
  }

  /** Each publication is a new message. */
  ghost predicate AllNew(s: State, events: seq<Event>) {
    && (forall i, j :: 0 <= i < |s.queue| && 0 <= j < |events| && events[j].Publish? ==>
          s.queue[i].id != events[j].p.id)
    && (forall i, j :: 0 <= i < |s.todo| && 0 <= j < |events| && events[j].Publish? ==> s.todo[i].id != events[j].p.id)
    && (forall i, j :: 0 <= i < j < |events| && events[i].Publish? && events[j].Publish? ==>
          events[i].p.id != events[j].p.id)
  }

  lemma StepKeepsDistinct(s: State, events: seq<Event>)
    requires Distinct(s) && AllNew(s, events) && events != []
    ensures Distinct(Step(s, events[0])) && AllNew(Step(s, events[0]), events[1..])
  {
    var s1 := Step(s, events[0]);
    if events[0].Take? && s.todo == [] && s.queue != [] {
      RunsCarryTopic(s.queue[0], s.queue[0].local);
      RunsCarryTopic(s.queue[0], s.queue[0].raw);
      assert forall i :: 0 <= i < |s1.todo| ==> s1.todo[i].id == s.queue[0].id;
    }
    assert forall j :: 0 <= j < |events[1..]| ==> events[1..][j] == events[j + 1];
  }

  lemma {:induction false} RunsAreDistinct(s: State, events: seq<Event>)
    requires Distinct(s) && AllNew(s, events)
    ensures Distinct(Steps(s, events))
    decreases |events|
  {
    if events != [] {
      StepKeepsDistinct(s, events);
      RunsAreDistinct(Step(s, events[0]), events[1..]);
    }
  }

  /** In particular no callback of the target ever runs for a message of the
      topic that was still in the queue: whatever is published, taken, run or
      removed later. */
  lemma RemovedNeverRuns(s: State, topic: string, x: Target, k: nat, events: seq<Event>)
    requires Distinct(s) && AllNew(s, events) && k < |s.queue| && s.queue[k].topic == topic
    ensures CleanRuns(RanDuring(Step(s, Remove(topic, x)), events), s.queue[k].id, x)
  {
    var id := s.queue[k].id;
    var s1 := Step(s, Remove(topic, x));
    var later := RanDuring(s1, events);
    RemovedIsFree(s.queue, topic, x, id);
    forall i | 0 <= i < |later| && later[i].id == id
      ensures !Names(x, later[i].nUuid, later[i].hUuid)
    {
      if Names(x, later[i].nUuid, later[i].hUuid) {
        OnlyTakenRuns(s1, x, later[i], events);
      }
    }
  }

  /** The race happens: the thread takes a message for nodes "a" and "b" and
      calls "a"; "b" is removed; the thread still calls "b". */
  lemma RemovedMayStillRun()
    ensures var a, b := Entry("a", "1", false), Entry("b", "2", false);
            var s := Steps(State([Pending(7, "/t", "p", [a, b], [])], [], []), [Take, RunOne]);
            && s.queue == []
            && RanDuring(Step(s, Remove("/t", WholeNode("b"))), [RunOne]) == [Run(7, "/t", "b", "2", false)]
  {
    var a, b := Entry("a", "1", false), Entry("b", "2", false);
    var p := Pending(7, "/t", "p", [a, b], []);
    var s0 := State([p], [], []);
    LocalRunsCons(p, p.local);
    LocalRunsCons(p, [b]);
    assert p.local[1..] == [b] && [b][1..] == [];
    assert RunsOf(p) == [Run(7, "/t", "a", "1", false), Run(7, "/t", "b", "2", false)];
    var s1 := Step(s0, Take);
    var s := Step(s1, RunOne);
    assert [Take, RunOne][1..] == [RunOne] && [RunOne][1..] == [];
    assert Steps(s1, [RunOne]) == Steps(s, []) == s;
    assert Steps(s0, [Take, RunOne]) == s;
    var s2 := Step(s, Remove("/t", WholeNode("b")));
    assert Steps(s2, [RunOne]) == Steps(Step(s2, RunOne), []) == Step(s2, RunOne);
  }

  // ---- Publication order ----

  /** Everything the thread ran or will run, in that order. */
  function Schedule(s: State): seq<Run> {
    s.ran + s.todo + AllRuns(s.queue)
  }

  /** The callbacks of the published messages, in publication order. */
  function PublishedRuns(events: seq<Event>): seq<Run> {
    if events == [] then []
    else (if events[0].Publish? then RunsOf(events[0].p) else []) + PublishedRuns(events[1..])
  }

  lemma {:induction false} AllRunsSnoc(queue: seq<Pending>, p: Pending)
    ensures AllRuns(queue + [p]) == AllRuns(queue) + RunsOf(p)
  {
    hide RunsOf;
    if queue == [] {
      assert [p][1..] == [];
    } else {
      assert (queue + [p])[1..] == queue[1..] + [p];
      AllRunsSnoc(queue[1..], p);
      Regroup(RunsOf(queue[0]), AllRuns(queue[1..]), RunsOf(p));
    }
  }

  /** One step: publishing adds at the end, a removal filters the queued part,
      the thread itself only moves on. */
  lemma StepSchedule(s: State, e: Event)
    ensures Schedule(Step(s, e)) == match e
                                    case Publish(p) => Schedule(s) + RunsOf(p)
                                    case Remove(topic, x) => s.ran + s.todo + WithoutRuns(AllRuns(s.queue), topic, x)
                                    case _ => Schedule(s)
  {
    hide RunsOf, WithoutRuns;
    match e
    case Publish(p) =>
      AllRunsSnoc(s.queue, p);
      Regroup(s.ran + s.todo, AllRuns(s.queue), RunsOf(p));
    case Take =>
      if s.todo == [] && s.queue != [] {
        Regroup(s.ran, RunsOf(s.queue[0]), AllRuns(s.queue[1..]));
        assert s.ran + [] == s.ran;
      }
    case RunOne =>
      if s.todo != [] {
        MoveFirst(s.ran, s.todo);
      }
    case Remove(topic, x) => RemovalFiltersRuns(s.queue, topic, x);
  }

  /** First published, first run: with no removal the schedule grows by exactly
      the callbacks of the published messages, in publication order. */
  lemma {:induction false} RunsInPublicationOrder(s: State, events: seq<Event>)
    requires forall i :: 0 <= i < |events| ==> !events[i].Remove?
    ensures Schedule(Steps(s, events)) == Schedule(s) + PublishedRuns(events)
    decreases |events|
  {
    hide RunsOf, Step, Schedule;
    if events == [] {
      assert Schedule(s) + [] == Schedule(s);
    } else {
      var s1 := Step(s, events[0]);
      StepSchedule(s, events[0]);
      RunsInPublicationOrder(s1, events[1..]);
      var first := if events[0].Publish? then RunsOf(events[0].p) else [];
      assert Schedule(s) + [] == Schedule(s);
      Regroup(Schedule(s), first, PublishedRuns(events[1..]));
    }
  }

  /** `a` is `b` with some callbacks left out. */
  predicate IsPart(a: seq<Run>, b: seq<Run>) {
    a == [] || (b != [] && ((a[0] == b[0] && IsPart(a[1..], b[1..])) || IsPart(a, b[1..])))
  }

  lemma {:induction false} PartOfItself(a: seq<Run>)
    ensures IsPart(a, a)
  {
    if a != [] {
      PartOfItself(a[1..]);
    }
  }

  lemma {:induction false} PartOfPart(a: seq<Run>, b: seq<Run>, c: seq<Run>)
    requires IsPart(a, b) && IsPart(b, c)
    ensures IsPart(a, c)
    decreases |c|
  {
    if a != [] {
      if IsPart(b, c[1..]) {
        PartOfPart(a, b, c[1..]);
      } else if a[0] == b[0] && IsPart(a[1..], b[1..]) {
        PartOfPart(a[1..], b[1..], c[1..]);
      } else {
        PartOfPart(a, b[1..], c[1..]);
      }
    }
  }

  /** Parts put together. */
  lemma {:induction false} PartConcat(a: seq<Run>, b: seq<Run>, c: seq<Run>, d: seq<Run>)
    requires IsPart(a, b) && IsPart(c, d)
    ensures IsPart(a + c, b + d)
    decreases |b|
  {
    if b == [] {
      assert a + c == c && b + d == d;
    } else {
      assert (b + d)[1..] == b[1..] + d && (b + d)[0] == b[0];
      if a != [] && a[0] == b[0] && IsPart(a[1..], b[1..]) {
        PartConcat(a[1..], b[1..], c, d);
        assert (a + c)[1..] == a[1..] + c && (a + c)[0] == a[0];
      } else {
        if a == [] {
          assert IsPart(a, b[1..]);
        }
        PartConcat(a, b[1..], c, d);
      }
    }
  }

  lemma {:induction false} FilteredIsPart(runs: seq<Run>, topic: string, x: Target)
    ensures IsPart(WithoutRuns(runs, topic, x), runs)
  {
    if runs != [] {
      var k := |runs| - 1;
      FilteredIsPart(runs[..k], topic, x);
      PartOfItself([runs[k]]);
      assert runs == runs[..k] + [runs[k]];
      var kept := WithoutRuns(runs, topic, x)[|WithoutRuns(runs[..k], topic, x)|..];
      assert WithoutRuns(runs, topic, x) == WithoutRuns(runs[..k], topic, x) + kept;
      assert kept == [] || kept == [runs[k]];
      PartConcat(WithoutRuns(runs[..k], topic, x), runs[..k], kept, [runs[k]]);
    }
  }

  lemma StepIsPart(s: State, e: Event)
    ensures IsPart(Schedule(Step(s, e)), Schedule(s) + if e.Publish? then RunsOf(e.p) else [])
  {
    StepSchedule(s, e);
    PartOfItself(Schedule(s) + if e.Publish? then RunsOf(e.p) else []);
    assert Schedule(s) + [] == Schedule(s);
    if e.Remove? {
      PartOfItself(s.ran + s.todo);
      FilteredIsPart(AllRuns(s.queue), e.topic, e.x);
      PartConcat(s.ran + s.todo, s.ran + s.todo, WithoutRuns(AllRuns(s.queue), e.topic, e.x), AllRuns(s.queue));
    }
  }

  /** With removals the order is the same: callbacks only drop out. */
  lemma {:induction false} RemovalsKeepOrder(s: State, events: seq<Event>)
    ensures IsPart(Schedule(Steps(s, events)), Schedule(s) + PublishedRuns(events))
    decreases |events|
  {
    hide RunsOf, Step, Schedule, IsPart;
    if events == [] {
      assert Schedule(s) + [] == Schedule(s);
      PartOfItself(Schedule(s));
    } else {
      var s1 := Step(s, events[0]);
      var first := if events[0].Publish? then RunsOf(events[0].p) else [];
      var later := PublishedRuns(events[1..]);
      RemovalsKeepOrder(s1, events[1..]);
      StepIsPart(s, events[0]);
      PartOfItself(later);
      PartConcat(Schedule(s1), Schedule(s) + first, later, later);
      Regroup(Schedule(s), first, later);
      PartOfPart(Schedule(Steps(s, events)), Schedule(s1) + later, Schedule(s) + PublishedRuns(events));
    }
  }

  /** What no removal among the events names. */
  function NeverRemoved(runs: seq<Run>, events: seq<Event>): seq<Run> {
    if events == [] then runs
    else
      var rest := NeverRemoved(runs, events[1..]);
      if events[0].Remove? then WithoutRuns(rest, events[0].topic, events[0].x) else rest
  }

  lemma {:induction false} NeverRemovedConcat(a: seq<Run>, b: seq<Run>, events: seq<Event>)
    ensures NeverRemoved(a + b, events) == NeverRemoved(a, events) + NeverRemoved(b, events)
  {
    if events != [] {
      NeverRemovedConcat(a, b, events[1..]);
      if events[0].Remove? {
        WithoutRunsConcat(NeverRemoved(a, events[1..]), NeverRemoved(b, events[1..]), events[0].topic, events[0].x);
      }
    }
  }

  lemma AppendNothing(runs: seq<Run>)
    ensures runs + [] == runs
  {
  }

  lemma {:induction false} FiltersCommute(runs: seq<Run>, t: string, x: Target, u: string, y: Target)
    ensures WithoutRuns(WithoutRuns(runs, t, x), u, y) == WithoutRuns(WithoutRuns(runs, u, y), t, x)
  {
    if runs != [] {
      var k := |runs| - 1;
      FiltersCommute(runs[..k], t, x, u, y);
      assert runs == runs[..k] + [runs[k]];
      AppendNothing(WithoutRuns(runs[..k], t, x));
      AppendNothing(WithoutRuns(runs[..k], u, y));
      AppendNothing(WithoutRuns(WithoutRuns(runs[..k], t, x), u, y));
      WithoutRunsSnoc(runs[..k], runs[k], t, x);
      WithoutRunsSnoc(runs[..k], runs[k], u, y);
      WithoutRunsSnoc(WithoutRuns(runs[..k], t, x), runs[k], u, y);
      WithoutRunsSnoc(WithoutRuns(runs[..k], u, y), runs[k], t, x);
    }
  }

  lemma {:induction false} FilterTwice(runs: seq<Run>, t: string, x: Target)
    ensures WithoutRuns(WithoutRuns(runs, t, x), t, x) == WithoutRuns(runs, t, x)
  {
    if runs != [] {
      var k := |runs| - 1;
      FilterTwice(runs[..k], t, x);
      assert runs == runs[..k] + [runs[k]];
      AppendNothing(WithoutRuns(runs[..k], t, x));
      WithoutRunsSnoc(runs[..k], runs[k], t, x);
      WithoutRunsSnoc(WithoutRuns(runs[..k], t, x), runs[k], t, x);
    }
  }

  lemma {:induction false} FilterFirst(runs: seq<Run>, t: string, x: Target, events: seq<Event>)
    ensures NeverRemoved(WithoutRuns(runs, t, x), events) == WithoutRuns(NeverRemoved(runs, events), t, x)
  {
    if events != [] {
      FilterFirst(runs, t, x, events[1..]);
      if events[0].Remove? {
        FiltersCommute(NeverRemoved(runs, events[1..]), t, x, events[0].topic, events[0].x);
      }
    }
  }

  /** And nothing drops out but what some removal names: filtered by all the
      removals, the schedule is that of the published messages. */
  lemma {:induction false} OnlyRemovedDropOut(s: State, events: seq<Event>)
    ensures NeverRemoved(Schedule(Steps(s, events)), events)
         == NeverRemoved(Schedule(s) + PublishedRuns(events), events)
    decreases |events|
  {
    hide RunsOf, Step, Schedule, WithoutRuns;
    if events == [] {
      assert Schedule(s) + [] == Schedule(s);
    } else {
      var s1 := Step(s, events[0]);
      var e := events[0];
      var first := if e.Publish? then RunsOf(e.p) else [];
      var later := PublishedRuns(events[1..]);
      OnlyRemovedDropOut(s1, events[1..]);
      Regroup(Schedule(s), first, later);
      StepSchedule(s, e);
      assert Schedule(s) + [] == Schedule(s);
      if e.Remove? {
        RemovedStep(s, e.topic, e.x, later, events[1..]);
      }
    }
  }

  /** A filter over the whole schedule makes up for one over its queued part. */
  lemma RemovedStep(s: State, t: string, x: Target, later: seq<Run>, events: seq<Event>)
    ensures WithoutRuns(NeverRemoved(Schedule(Step(s, Remove(t, x))) + later, events), t, x)
         == WithoutRuns(NeverRemoved(Schedule(s) + later, events), t, x)
  {
    StepSchedule(s, Remove(t, x));
    var done, waiting := s.ran + s.todo, AllRuns(s.queue);
    var a, b := done + WithoutRuns(waiting, t, x) + later, done + waiting + later;
    FilterFirst(a, t, x, events);
    FilterFirst(b, t, x, events);
    hide WithoutRuns, AllRuns;
    WithoutRunsConcat(done + WithoutRuns(waiting, t, x), later, t, x);
    WithoutRunsConcat(done, WithoutRuns(waiting, t, x), t, x);
    WithoutRunsConcat(done + waiting, later, t, x);
    WithoutRunsConcat(done, waiting, t, x);
    FilterTwice(waiting, t, x);
  }

  /** No callback of message `p` comes after one of message `q`. */
  predicate NeverAfter(runs: seq<Run>, p: nat, q: nat) {
    forall i, j :: 0 <= i < j < |runs| && runs[i].id == q ==> runs[j].id != p
  }

  lemma {:induction false} PartKeepsOrder(a: seq<Run>, b: seq<Run>, p: nat, q: nat)
    requires IsPart(a, b) && NeverAfter(b, p, q)
    ensures NeverAfter(a, p, q)
    decreases |b|
  {
    if a != [] {
      assert forall i, j :: 0 <= i < j < |b[1..]| ==> b[1..][i] == b[i + 1] && b[1..][j] == b[j + 1];
      if a[0] == b[0] && IsPart(a[1..], b[1..]) {
        PartKeepsOrder(a[1..], b[1..], p, q);
        PartMembers(a[1..], b[1..]);
        forall i, j | 0 <= i < j < |a| && a[i].id == q
          ensures a[j].id != p
        {
          if i == 0 {
            assert a[j] in a[1..];
            var n :| 0 <= n < |b[1..]| && b[1..][n] == a[j];
            assert b[n + 1] == a[j];
          } else {
            assert a[1..][i - 1] == a[i] && a[1..][j - 1] == a[j];
          }
        }
      } else {
        PartKeepsOrder(a, b[1..], p, q);
      }
    }
  }

  lemma {:induction false} PartMembers(a: seq<Run>, b: seq<Run>)
    requires IsPart(a, b)
    ensures forall r :: r in a ==> r in b
    decreases |b|
  {
    if a != [] {
      assert a == [a[0]] + a[1..] && b == [b[0]] + b[1..];
      if a[0] == b[0] && IsPart(a[1..], b[1..]) {
        PartMembers(a[1..], b[1..]);
      } else {
        PartMembers(a, b[1..]);
      }
    }
  }

  lemma {:induction false} PublishedIds(events: seq<Event>)
    ensures forall r :: r in PublishedRuns(events) ==>
              exists i :: 0 <= i < |events| && events[i].Publish? && events[i].p.id == r.id
  {
    if events != [] {
      PublishedIds(events[1..]);
      forall r | r in PublishedRuns(events)
        ensures exists i :: 0 <= i < |events| && events[i].Publish? && events[i].p.id == r.id
      {
        if r in PublishedRuns(events[1..]) {
          var i :| 0 <= i < |events[1..]| && events[1..][i].Publish? && events[1..][i].p.id == r.id;
          assert events[i + 1].p.id == r.id;
        } else {
          RunsCarryTopic(events[0].p, events[0].p.local);
          RunsCarryTopic(events[0].p, events[0].p.raw);
          assert events[0].p.id == r.id;
        }
      }
    }
  }

  /** Publications have different ids. */
  ghost predicate AllDifferent(events: seq<Event>) {
    forall i, j :: 0 <= i < j < |events| && events[i].Publish? && events[j].Publish? ==>
      events[i].p.id != events[j].p.id
  }

  lemma AllDifferentTail(events: seq<Event>)
    requires AllDifferent(events) && events != []
    ensures AllDifferent(events[1..])
    ensures events[0].Publish? ==> forall r :: r in PublishedRuns(events[1..]) ==> r.id != events[0].p.id
  {
    assert forall j :: 0 <= j < |events[1..]| ==> events[1..][j] == events[j + 1];
    PublishedIds(events[1..]);
  }

  lemma OrderConcat(a: seq<Run>, b: seq<Run>, p: nat, q: nat)
    requires NeverAfter(a, p, q) && NeverAfter(b, p, q)
    requires (forall r :: r in a ==> r.id != q) || (forall r :: r in b ==> r.id != p)
    ensures NeverAfter(a + b, p, q)
  {
  }

  lemma {:induction false} PublishedOrder(events: seq<Event>, i: nat, j: nat)
    requires AllDifferent(events) && i < j < |events| && events[i].Publish? && events[j].Publish?
    ensures NeverAfter(PublishedRuns(events), events[i].p.id, events[j].p.id)
    decreases |events|
  {
    var p, q := events[i].p.id, events[j].p.id;
    var first := if events[0].Publish? then RunsOf(events[0].p) else [];
    var later := PublishedRuns(events[1..]);
    AllDifferentTail(events);
    if events[0].Publish? {
      RunsCarryTopic(events[0].p, events[0].p.local);
      RunsCarryTopic(events[0].p, events[0].p.raw);
    }
    hide RunsOf, AllDifferent;
    if i == 0 {
      OrderConcat(first, later, p, q);
    } else {
      PublishedOrder(events[1..], i - 1, j - 1);
      FirstIsOther(events, i, j);
      OrderConcat(first, later, p, q);
    }
  }

  lemma FirstIsOther(events: seq<Event>, i: nat, j: nat)
    requires AllDifferent(events) && 0 < i < j < |events| && events[i].Publish? && events[j].Publish?
    ensures events[0].Publish? ==> events[0].p.id != events[i].p.id && events[0].p.id != events[j].p.id
  {
  }

  /** So no callback of an earlier message comes after one of a later message,
      over any run of publications, turns of the thread and removals. */
  lemma EarlierRunsFirst(events: seq<Event>, i: nat, j: nat)
    requires AllDifferent(events) && i < j < |events| && events[i].Publish? && events[j].Publish?
    ensures NeverAfter(Schedule(Steps(State([], [], []), events)), events[i].p.id, events[j].p.id)
  {
    var s := State([], [], []);
    RemovalsKeepOrder(s, events);
    PublishedOrder(events, i, j);
    assert Schedule(s) + PublishedRuns(events) == PublishedRuns(events);
    PartKeepsOrder(Schedule(Steps(s, events)), PublishedRuns(events), events[i].p.id, events[j].p.id);
  }

  // ---- What one message runs ----

  /** The callback an entry stands for. */
  function RunFor(p: Pending, e: Entry, raw: bool): Run {
    Run(p.id, p.topic, e.nUuid, e.hUuid, raw)
  }

  lemma {:induction false} RawRunsAt(p: Pending, es: seq<Entry>)
    ensures |RawRuns(p, es)| == |es| && forall i :: 0 <= i < |es| ==> RawRuns(p, es)[i] == RunFor(p, es[i], true)
  {
    if es != [] {
      RawRunsAt(p, es[..|es| - 1]);
    }
  }

  /** One after the other, what each local entry runs. */
  lemma {:induction false} LocalRunsAt(p: Pending, es: seq<Entry>, i: nat)
    requires i < |es|
    ensures LocalRuns(p, es) == LocalRuns(p, es[..i]) + LocalRuns(p, [es[i]]) + LocalRuns(p, es[i + 1..])
    ensures LocalRuns(p, [es[i]]) == if es[i].ignoreLocal && es[i].nUuid == p.publisher then []
                                     else [RunFor(p, es[i], false)]
  {
    assert [es[i]][..0] == [] && LocalRuns(p, []) == [];
    LocalRunsConcat(p, es[..i] + [es[i]], es[i + 1..]);
    LocalRunsConcat(p, es[..i], [es[i]]);
    assert es == es[..i] + [es[i]] + es[i + 1..];
  }

  lemma {:induction false} LocalRunsConcat(p: Pending, a: seq<Entry>, b: seq<Entry>)
    ensures LocalRuns(p, a + b) == LocalRuns(p, a) + LocalRuns(p, b)
  {
    if b == [] {
      assert a + b == a;
    } else {
      var k := |b| - 1;
      assert (a + b)[..|a| + k] == a + b[..k];
      LocalRunsConcat(p, a, b[..k]);
    }
  }

  lemma {:induction false} LocalRunsAreNotRaw(p: Pending, es: seq<Entry>)
    ensures forall r :: r in LocalRuns(p, es) ==> !r.raw
  {
    if es != [] {
      LocalRunsAreNotRaw(p, es[..|es| - 1]);
    }
  }

  /** A message runs its local callbacks first and then every raw one, in the
      order of the entries. */
  lemma LocalBeforeRaw(p: Pending)
    ensures var n := |RunsOf(p)| - |p.raw|;
            && n >= 0 && (forall i :: 0 <= i < n ==> !RunsOf(p)[i].raw)
            && RunsOf(p)[..n] == LocalRuns(p, p.local)
            && forall i :: 0 <= i < |p.raw| ==> RunsOf(p)[n + i] == RunFor(p, p.raw[i], true)
  {
    RawRunsAt(p, p.raw);
    LocalRunsAreNotRaw(p, p.local);
  }

  // ---- Which argument works ----

  /** The topic of a queued message, from its qualified name. */
  function QueuedTopic(name: string): string {
    match Decompose(name)
    case None => ""
    case Some((partition, topic)) => topic
  }

  /** A topic argument matches the messages of its own qualified name if and
      only if it is already absolute: it starts with a slash and does not end
      with one. */
  lemma ArgumentMatchesIff(partition: string, ns: string, topic: string)
    requires QualifiedName(partition, ns, topic).Some?
    ensures QueuedTopic(QualifiedName(partition, ns, topic).value) == topic
       <==> StartsWithSlash(topic) && !EndsWithSlash(topic)
  {
    QualifiedDecomposes(partition, ns, topic);
  }

  /** Some call of FullyQualifiedName gave the name of this message. */
  ghost predicate HasQualifiedName(p: Pending) {
    exists partition, ns, topic ::
      QualifiedName(partition, ns, topic).Some? && QueuedTopic(QualifiedName(partition, ns, topic).value) == p.topic
  }

  /** With any other argument, such as "t" or "/t/", the removal leaves the
      whole queue as it is, and every queued callback still to run. */
  lemma RelativeArgumentRemovesNothing(queue: seq<Pending>, topic: string, x: Target)
    requires forall i :: 0 <= i < |queue| ==> HasQualifiedName(queue[i])
    requires !(StartsWithSlash(topic) && !EndsWithSlash(topic))
    ensures Removed(queue, topic, x) == queue && AllRuns(Removed(queue, topic, x)) == AllRuns(queue)
  {
    forall i | 0 <= i < |queue|
      ensures queue[i].topic != topic
    {
      var partition, ns, t :|
        QualifiedName(partition, ns, t).Some? && QueuedTopic(QualifiedName(partition, ns, t).value) == queue[i].topic;
      QualifiedDecomposes(partition, ns, t);
    }
  }

  lemma NameOfT()
    ensures QualifiedName("", "", "t") == Some("@@/t")
  {
    assert AbsoluteTopic("", "t") == NamespacePrefix("") + "t" == "/t" && NormalPartition("") == "";
    assert Compose("", "/t") == "@@/t";
    hide AbsoluteTopic, NormalPartition, Compose, NamespacePrefix;
  }

  /** Node "b" unsubscribes from "t", as it subscribed: its callback for the
      message queued under "/t" stays. */
  lemma RelativeArgumentExample(x: Target)
    ensures QualifiedName("", "", "t") == Some("@@/t") && QueuedTopic("@@/t") == "/t"
    ensures var queue := [Pending(7, "/t", "p", [Entry("b", "2", false)], [])];
            Removed(queue, "t", x) == queue
  {
    NameOfT();
    assert AbsoluteTopic("", "t") == NamespacePrefix("") + "t" == "/t";
    hide QualifiedName, AbsoluteTopic, Decompose;
    QualifiedDecomposes("", "", "t");
  }
}
