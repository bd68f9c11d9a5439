// The recorder's queue between the topic callbacks and the data writer
// (log/src/Recorder.cc).
module RecorderQueue {

  datatype Item = Item(stamp: int, topic: string, data: string)

  /** `received`, `handed` and `dropped` are histories: everything queued,
      everything popped to be written, everything overwritten. */
  datatype State = State(queue: seq<Item>, bufferSize: int, maxBufferSize: nat,
                         received: seq<Item>, handed: seq<Item>, dropped: seq<Item>)

  function Bytes(items: seq<Item>): nat {
    if items == [] then 0 else |items[0].data| + Bytes(items[1..])
  }

  lemma {:induction false} BytesConcat(a: seq<Item>, b: seq<Item>)
    ensures Bytes(a + b) == Bytes(a) + Bytes(b)
  {
    if a == [] {
      assert a + b == b;
    } else {
      assert (a + b)[1..] == a[1..] + b;
      BytesConcat(a[1..], b);
    }
  }

  /** DecrementBufferSize, with its branch that "should not happen". */
  function Decremented(size: int, len: nat): int {
    if size >= len then size - len else 0
  }

  predicate Overflows(s: State, item: Item) {
    s.maxBufferSize > 0 && s.bufferSize + |item.data| > s.maxBufferSize && s.queue != []
  }

  function Trimmed(s: State, item: Item): State {
    if Overflows(s, item)
    then s.(queue := s.queue[1..], bufferSize := Decremented(s.bufferSize, |s.queue[0].data|),
            dropped := s.dropped + [s.queue[0]])
    else s
  }

  /** The locked part of OnMessageReceived. */
  function Received(s: State, item: Item): State {
    var t := Trimmed(s, item);
    t.(queue := t.queue + [item], bufferSize := t.bufferSize + |item.data|, received := t.received + [item])
  }

  /** The writer thread, or a flush, takes the front. */
  function Taken(s: State): State {
    if s.queue == [] then s else s.(queue := s.queue[1..], handed := s.handed + [s.queue[0]])
  }

  // ---- The invariant ----

  /** `a` is `b` with some elements left out. */
  predicate IsSubsequence(a: seq<Item>, b: seq<Item>) {
    if a == [] then true
    else if b == [] then false
    else if a[|a| - 1] == b[|b| - 1] && IsSubsequence(a[..|a| - 1], b[..|b| - 1]) then true
    else IsSubsequence(a, b[..|b| - 1])
  }

  /** The received items that left the queue. */
  function Gone(s: State): seq<Item>
    requires |s.queue| <= |s.received|
  {
    s.received[..|s.received| - |s.queue|]
  }

  ghost predicate Inv(s: State) {
    && |s.queue| <= |s.received|
    && s.queue == s.received[|s.received| - |s.queue|..]
    && IsSubsequence(s.handed, Gone(s))
    && multiset(s.handed) + multiset(s.dropped) == multiset(Gone(s))
    && s.bufferSize == Bytes(s.queue) + Bytes(s.handed)
  }

  lemma SubsequenceSnocBoth(a: seq<Item>, b: seq<Item>, x: Item)
    requires IsSubsequence(a, b)
    ensures IsSubsequence(a + [x], b + [x])
  {
    assert (a + [x])[..|a|] == a && (b + [x])[..|b|] == b;
  }

  lemma {:induction false} SubsequenceSnocRight(a: seq<Item>, b: seq<Item>, x: Item)
    requires IsSubsequence(a, b)
    ensures IsSubsequence(a, b + [x])
  {
    assert (b + [x])[..|b|] == b;
  }

  lemma PopFront(s: State)
    requires Inv(s) && s.queue != []
    ensures var n := |s.received| - |s.queue|;
            && s.queue[0] == s.received[n]
            && s.queue[1..] == s.received[n + 1..]
            && s.received[..n + 1] == Gone(s) + [s.queue[0]]
    ensures Bytes(s.queue) == |s.queue[0].data| + Bytes(s.queue[1..])
    ensures s.bufferSize >= |s.queue[0].data|
  {
  }

  lemma BytesOfOne(x: Item)
    ensures Bytes([x]) == |x.data|
  {
    assert [x][1..] == [];
  }

  lemma TakeKeepsInv(s: State)
    requires Inv(s)
    ensures Inv(Taken(s))
  {
    hide IsSubsequence, Bytes;
    if s.queue != [] {
      var x, t := s.queue[0], Taken(s);
      PopFront(s);
      SubsequenceSnocBoth(s.handed, Gone(s), x);
      BytesConcat(s.handed, [x]);
      BytesOfOne(x);
      assert Gone(t) == Gone(s) + [x];
      assert multiset(t.handed) == multiset(s.handed) + multiset{x};
    }
  }

  lemma TrimKeepsInv(s: State, item: Item)
    requires Inv(s)
    ensures Inv(Trimmed(s, item))
  {
    if Overflows(s, item) {
      PopFront(s);
      SubsequenceSnocRight(s.handed, Gone(s), s.queue[0]);
    }
  }

  lemma AppendKeepsInv(t: State, item: Item)
    requires Inv(t)
    ensures Inv(t.(queue := t.queue + [item], bufferSize := t.bufferSize + |item.data|,
                   received := t.received + [item]))
  {
    BytesConcat(t.queue, [item]);
    var s := t.(queue := t.queue + [item], bufferSize := t.bufferSize + |item.data|, received := t.received + [item]);
    assert Gone(s) == Gone(t);
  }

  lemma ReceiveKeepsInv(s: State, item: Item)
    requires Inv(s)
    ensures Inv(Received(s, item))
  {
    hide Inv;
    TrimKeepsInv(s, item);
    AppendKeepsInv(Trimmed(s, item), item);
  }

  // ---- Whole runs ----

  datatype Event = Receive(item: Item) | Take | Resize(max: nat)

  function After(s: State, e: Event): State {
    match e
    case Receive(item) => Received(s, item)
    case Take => Taken(s)
    case Resize(max) => s.(maxBufferSize := max)
  }

  function AfterAll(s: State, events: seq<Event>): State {
    if events == [] then s else After(AfterAll(s, events[..|events| - 1]), events[|events| - 1])
  }

  function Start(max: nat): State {
    State([], 0, max, [], [], [])
  }

  lemma {:induction false} RunsKeepInv(max: nat, events: seq<Event>)
    ensures Inv(AfterAll(Start(max), events))
  {
    if events == [] {
    } else {
      hide Inv;
      var s := AfterAll(Start(max), events[..|events| - 1]);
      RunsKeepInv(max, events[..|events| - 1]);
      match events[|events| - 1]
      case Receive(item) => ReceiveKeepsInv(s, item);
      case Take => TakeKeepsInv(s);
      case Resize(size) => ResizeKeepsInv(s, size);
    }
  }

  lemma ResizeKeepsInv(s: State, max: nat)
    requires Inv(s)
    ensures Inv(s.(maxBufferSize := max))
  {
  }

  lemma {:induction false} SubsequenceConcat(a: seq<Item>, b: seq<Item>, c: seq<Item>)
    requires IsSubsequence(a, b)
    ensures IsSubsequence(a + c, b + c)
  {
    if c == [] {
      assert a + c == a && b + c == b;
    } else {
      var k := |c| - 1;
      SubsequenceConcat(a, b, c[..k]);
      SubsequenceSnocBoth(a + c[..k], b + c[..k], c[k]);
      assert a + c == (a + c[..k]) + [c[k]] && b + c == (b + c[..k]) + [c[k]];
    }
  }

  lemma InvMeansOrder(s: State)
    requires Inv(s)
    ensures IsSubsequence(s.handed + s.queue, s.received)
    ensures multiset(s.handed) + multiset(s.queue) + multiset(s.dropped) == multiset(s.received)
  {
    SubsequenceConcat(s.handed, Gone(s), s.queue);
    assert s.received == Gone(s) + s.queue;
  }

  /** The items of the callbacks, in order. */
  function ItemsOf(events: seq<Event>): seq<Item> {
    if events == [] then []
    else
      var k := |events| - 1;
      ItemsOf(events[..k]) + if events[k].Receive? then [events[k].item] else []
  }

  /** The history of received items is that of the callbacks, and the limit the
      one set last. */
  lemma {:induction false} ReceivedAreEvents(max: nat, events: seq<Event>)
    ensures var s := AfterAll(Start(max), events);
            s.received == ItemsOf(events) && s.maxBufferSize == LimitAfter(max, events)
  {
    if events != [] {
      ReceivedAreEvents(max, events[..|events| - 1]);
    }
  }

  function LimitAfter(max: nat, events: seq<Event>): nat {
    if events == [] then max
    else if events[|events| - 1].Resize? then events[|events| - 1].max
    else LimitAfter(max, events[..|events| - 1])
  }

  /** In every run: what was handed to the writer followed by what is queued
      is an in-order part of what was received; the queue is its newest end;
      nothing is lost but the overwritten items; and `bufferSize` counts the
      queued bytes plus everything ever handed over. */
  lemma QueueKeepsOrder(max: nat, events: seq<Event>)
    ensures var s := AfterAll(Start(max), events);
            && s.received == ItemsOf(events)
            && IsSubsequence(s.handed + s.queue, s.received)
            && |s.queue| <= |s.received| && s.queue == s.received[|s.received| - |s.queue|..]
            && multiset(s.handed) + multiset(s.queue) + multiset(s.dropped) == multiset(s.received)
            && s.bufferSize == Bytes(s.queue) + Bytes(s.handed)
  {
    RunsKeepInv(max, events);
    ReceivedAreEvents(max, events);
    InvMeansOrder(AfterAll(Start(max), events));
  }

  /** The branch that "should not happen" does not: a trim never asks for more
      than the counter holds. */
  lemma UnderflowIsUnreachable(max: nat, events: seq<Event>)
    ensures var s := AfterAll(Start(max), events);
            s.queue != [] ==> Decremented(s.bufferSize, |s.queue[0].data|) == s.bufferSize - |s.queue[0].data|
  {
    RunsKeepInv(max, events);
    var s := AfterAll(Start(max), events);
    if s.queue != [] {
      PopFront(s);
    }
  }

  /** The counter is the size of the queue, as documented, if and only if no
      byte was ever handed to the writer. */
  lemma CounterIsQueueSizeIff(max: nat, events: seq<Event>)
    ensures var s := AfterAll(Start(max), events);
            s.bufferSize == Bytes(s.queue) <==> Bytes(s.handed) == 0
  {
    RunsKeepInv(max, events);
  }

  /** So an item is overwritten if and only if there is one and the bytes of
      the whole recording exceed the limit, not those of the queue. */
  lemma OverwritesIff(max: nat, events: seq<Event>, item: Item)
    ensures var s := AfterAll(Start(max), events);
            Received(s, item).dropped != s.dropped <==>
              && s.maxBufferSize > 0 && s.queue != []
              && Bytes(s.handed) + Bytes(s.queue) + |item.data| > s.maxBufferSize
    ensures var s := AfterAll(Start(max), events);
            Received(s, item).dropped == s.dropped || Received(s, item).dropped == s.dropped + [s.queue[0]]
  {
    RunsKeepInv(max, events);
  }

  lemma MoveOne(a: seq<Item>, b: seq<Item>)
    requires b != []
    ensures (a + [b[0]]) + b[1..] == a + b
  {
  }

  // ---- The queue, updated in place ----

  class Recorder {
    var dataQueue: seq<Item>
    var bufferSize: int
    var maxBufferSize: nat
    var dataWriterState: bool
    ghost var received: seq<Item>
    var handed: seq<Item>
    ghost var dropped: seq<Item>

    ghost function Now(): State
      reads this
    {
      State(dataQueue, bufferSize, maxBufferSize, received, handed, dropped)
    }

    constructor (max: nat)
      ensures Now() == Start(max) && !dataWriterState
    {
      dataQueue, bufferSize, maxBufferSize, dataWriterState := [], 0, max, false;
      received, handed, dropped := [], [], [];
    }

    method DecrementBufferSize(len: nat)
      modifies this`bufferSize
      ensures bufferSize == Decremented(old(bufferSize), len)
    {
      if bufferSize >= len {
        bufferSize := bufferSize - len;
      } else {
        bufferSize := 0;
      }
    }

    method OnMessageReceived(item: Item)
      requires Inv(Now())
      modifies this
      ensures Inv(Now()) && dataWriterState == old(dataWriterState)
      ensures Now() == if dataWriterState then Received(old(Now()), item) else old(Now())
    {
      hide Inv;
      ReceiveKeepsInv(Now(), item);
      if dataWriterState {
        if maxBufferSize > 0 {
          if bufferSize + |item.data| > maxBufferSize && dataQueue != [] {
            DecrementBufferSize(|dataQueue[0].data|);
            dropped := dropped + [dataQueue[0]];
            dataQueue := dataQueue[1..];
          }
        }
        bufferSize := bufferSize + |item.data|;
        dataQueue := dataQueue + [item];
        received := received + [item];
      }
    }

    /** One turn of DataWriterThread with an item to take. */
    method WriteNext()
      requires Inv(Now()) && dataQueue != []
      modifies this`dataQueue, this`handed
      ensures Inv(Now()) && Now() == Taken(old(Now()))
    {
      hide Inv;
      TakeKeepsInv(Now());
      var logData := dataQueue[0];
      dataQueue := dataQueue[1..];
      handed := handed + [logData];
    }

    /** Flushing ends, with everything handed over in order. */
    method FlushDataQueue()
      requires Inv(Now())
      modifies this`dataQueue, this`handed
      ensures Inv(Now()) && dataQueue == [] && handed == old(handed) + old(dataQueue)
    {
      hide Inv;
      while dataQueue != []
        invariant Inv(Now())
        invariant handed + dataQueue == old(handed) + old(dataQueue)
        decreases |dataQueue|
      {
        MoveOne(handed, dataQueue);
        WriteNext();
      }
    }
  }
}
