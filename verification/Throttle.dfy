// Rate limits of subscription callbacks and of publishers
// (src/SubscriptionHandler.cc, src/Node.cc). Times are in nanoseconds of a
// steady clock that starts at 0.
module Throttle {
  const UNTHROTTLED: nat := 0xFFFF_FFFF_FFFF_FFFF
  const NS_PER_S := 1_000_000_000

  /** `elapsed` is at least the period 1e9 / msgsPerSec, which is infinite for
      0 messages per second. */
  predicate PeriodOver(msgsPerSec: nat, elapsed: int) {
    msgsPerSec > 0 && elapsed as real >= NS_PER_S as real / msgsPerSec as real
  }

  lemma PeriodOverIff(msgsPerSec: nat, elapsed: int)
    ensures PeriodOver(msgsPerSec, elapsed) <==> msgsPerSec > 0 && elapsed * msgsPerSec >= NS_PER_S
  {
    if msgsPerSec > 0 {
      var m, e := msgsPerSec as real, elapsed as real;
      assert NS_PER_S as real / m * m == NS_PER_S as real;
      if e >= NS_PER_S as real / m {
        assert e * m >= NS_PER_S as real / m * m;
      } else {
        assert e * m < NS_PER_S as real / m * m;
      }
      assert (elapsed * msgsPerSec) as real == e * m;
    }
  }

  /** One attempt: a subscription reads the clock once, a publisher reads it
      once to decide and again to record. */
  datatype Tick = Tick(ready: int, stamp: int)

  predicate Ordered(ticks: seq<Tick>) {
    && (forall i :: 0 <= i < |ticks| ==> 0 <= ticks[i].ready <= ticks[i].stamp)
    && (forall i, j :: 0 <= i < j < |ticks| ==> ticks[i].stamp <= ticks[j].ready)
  }

  /** The stamps of the accepted attempts. */
  function Accepted(msgsPerSec: nat, ticks: seq<Tick>): seq<int> {
    if ticks == [] then []
    else
      var k := |ticks| - 1;
      var before := Accepted(msgsPerSec, ticks[..k]);
      if PeriodOver(msgsPerSec, ticks[k].ready - LastOf(before)) then before + [ticks[k].stamp] else before
  }

  /** The recorded timestamp: that of the last accepted attempt, 0 before. */
  function LastOf(accepted: seq<int>): int {
    if accepted == [] then 0 else accepted[|accepted| - 1]
  }

  class SubscriptionHandler {
    const msgsPerSec: nat
    var lastCbTimestamp: int
    ghost var ticks: seq<Tick>

    ghost predicate Valid()
      reads this
    {
      msgsPerSec != UNTHROTTLED ==> lastCbTimestamp == LastOf(Accepted(msgsPerSec, ticks))
    }

    constructor (msgsPerSec: nat)
      ensures Valid() && ticks == [] && this.msgsPerSec == msgsPerSec
    {
      this.msgsPerSec := msgsPerSec;
      lastCbTimestamp := 0;
      ticks := [];
    }

    method UpdateThrottling(now: int) returns (ok: bool)
      requires Valid()
      modifies this
      ensures Valid() && ticks == old(ticks) + [Tick(now, now)]
      ensures msgsPerSec != UNTHROTTLED ==>
                Accepted(msgsPerSec, ticks) == Accepted(msgsPerSec, old(ticks)) + (if ok then [now] else [])
      ensures msgsPerSec == UNTHROTTLED ==> ok
    {
      ticks := ticks + [Tick(now, now)];
      assert ticks[..|ticks| - 1] == old(ticks);
      if msgsPerSec == UNTHROTTLED {
        return true;
      }
      var elapsed := now - lastCbTimestamp;
      if msgsPerSec == 0 || elapsed as real < NS_PER_S as real / msgsPerSec as real {
        return false;
      }
      lastCbTimestamp := now;
      ok := true;
    }
  }

  class Publisher {
    const msgsPerSec: nat
    var lastCbTimestamp: int
    ghost var ticks: seq<Tick>

    ghost predicate Valid()
      reads this
    {
      msgsPerSec != UNTHROTTLED ==> lastCbTimestamp == LastOf(Accepted(msgsPerSec, ticks))
    }

    constructor (msgsPerSec: nat)
      ensures Valid() && ticks == [] && this.msgsPerSec == msgsPerSec
    {
      this.msgsPerSec := msgsPerSec;
      lastCbTimestamp := 0;
      ticks := [];
    }

    method ThrottledUpdateReady(now: int) returns (ready: bool)
      ensures ready <==> msgsPerSec == UNTHROTTLED || PeriodOver(msgsPerSec, now - lastCbTimestamp)
    {
      if msgsPerSec == UNTHROTTLED {
        return true;
      }
      ready := msgsPerSec > 0 && (now - lastCbTimestamp) as real >= NS_PER_S as real / msgsPerSec as real;
    }

    /** The clock is read at `ready` and again at `stamp`. */
    method UpdateThrottling(ready: int, stamp: int) returns (ok: bool)
      requires Valid()
      modifies this
      ensures Valid() && ticks == old(ticks) + [Tick(ready, stamp)]
      ensures msgsPerSec != UNTHROTTLED ==>
                Accepted(msgsPerSec, ticks) == Accepted(msgsPerSec, old(ticks)) + (if ok then [stamp] else [])
      ensures msgsPerSec == UNTHROTTLED ==> ok
    {
      ticks := ticks + [Tick(ready, stamp)];
      assert ticks[..|ticks| - 1] == old(ticks);
      if msgsPerSec == UNTHROTTLED {
        return true;
      }
      var mayPublish := ThrottledUpdateReady(ready);
      if !mayPublish {
        return false;
      }
      lastCbTimestamp := stamp;
      ok := true;
    }
  }

  // ---- The rate bound ----

  /** Consecutive accepted stamps are at least a period apart. */
  predicate Spaced(m: nat, ts: seq<int>) {
    forall i :: 0 < i < |ts| ==> (ts[i] - ts[i - 1]) * m >= NS_PER_S
  }

  lemma {:induction false} AcceptedAreSpaced(m: nat, ticks: seq<Tick>)
    requires Ordered(ticks)
    ensures Spaced(m, Accepted(m, ticks))
  {
    if ticks != [] {
      var k := |ticks| - 1;
      var before := Accepted(m, ticks[..k]);
      AcceptedAreSpaced(m, ticks[..k]);
      PeriodOverIff(m, ticks[k].ready - LastOf(before));
      if before != [] && PeriodOver(m, ticks[k].ready - LastOf(before)) {
        MulMonotone(ticks[k].ready - LastOf(before), ticks[k].stamp - LastOf(before), m);
      }
    }
  }

  lemma MulMonotone(a: int, b: int, m: nat)
    requires a <= b
    ensures a * m <= b * m
  {
  }

  function CountIn(ts: seq<int>, from: int, to: int): nat {
    if ts == [] then 0
    else
      var k := |ts| - 1;
      CountIn(ts[..k], from, to) + if from <= ts[k] <= to then 1 else 0
  }

  lemma {:induction false} CountBound(m: nat, ts: seq<int>, from: int, to: int) returns (e: int)
    requires Spaced(m, ts)
    ensures CountIn(ts, from, to) > 0 ==>
              from <= e <= to && e <= ts[|ts| - 1] && (CountIn(ts, from, to) - 1) * NS_PER_S <= (e - from) * m
  {
    e := from;
    if ts != [] {
      var k := |ts| - 1;
      assert Spaced(m, ts[..k]) by {
        assert forall i :: 0 <= i < k ==> ts[..k][i] == ts[i];
      }
      e := CountBound(m, ts[..k], from, to);
      if k > 0 {
        assert (ts[k] - ts[k - 1]) * m >= NS_PER_S;
        IncreasingBySpacing(ts[k - 1], ts[k], m);
      }
      if from <= ts[k] <= to {
        if CountIn(ts[..k], from, to) > 0 {
          MulMonotone(ts[k] - ts[k - 1], ts[k] - e, m);
          assert (ts[k] - from) * m == (ts[k] - e) * m + (e - from) * m;
        } else {
          MulMonotone(0, ts[k] - from, m);
        }
        e := ts[k];
      }
    }
  }

  lemma IncreasingBySpacing(a: int, b: int, m: nat)
    requires (b - a) * m >= NS_PER_S
    ensures a < b
  {
    if a >= b {
      MulMonotone(b - a, 0, m);
    }
  }

  /** Any window of `width` ns holds at most width * m / 1e9 + 1 accepted
      callbacks (or sequential publishes), in every run. */
  lemma RateBound(m: nat, ticks: seq<Tick>, from: int, width: nat)
    requires Ordered(ticks)
    ensures CountIn(Accepted(m, ticks), from, from + width) * NS_PER_S <= width * m + NS_PER_S
  {
    AcceptedAreSpaced(m, ticks);
    var e := CountBound(m, Accepted(m, ticks), from, from + width);
    if CountIn(Accepted(m, ticks), from, from + width) > 0 {
      MulMonotone(e - from, width, m);
    }
  }

  /** And nothing is dropped needlessly: an attempt is refused if and only if
      it comes less than a period after the last accepted one (after the
      clock's zero when none was), or the rate is 0. */
  lemma DroppedIff(m: nat, ticks: seq<Tick>, next: Tick)
    ensures Accepted(m, ticks + [next]) == Accepted(m, ticks)
       <==> m == 0 || (next.ready - LastOf(Accepted(m, ticks))) * m < NS_PER_S
  {
    assert (ticks + [next])[..|ticks|] == ticks;
    PeriodOverIff(m, next.ready - LastOf(Accepted(m, ticks)));
  }
}
