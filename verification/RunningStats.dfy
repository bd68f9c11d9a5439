// Running statistics of samples and of topics (src/TopicStatistics.cc,
// include/gz/transport/TopicStatistics.hh), over the reals.
module RunningStats {

  // ---- The samples' own statistics ----

  function Sum(xs: seq<real>): real {
    if xs == [] then 0.0 else Sum(xs[..|xs| - 1]) + xs[|xs| - 1]
  }

  /** A product, named so that proofs about sums can treat it as one term. */
  function Times(a: real, b: real): real {
    a * b
  }

  /** Sum of the squared distances from `m`. */
  function SquaredDistance(xs: seq<real>, m: real): real {
    if xs == [] then 0.0
    else SquaredDistance(xs[..|xs| - 1], m) + Times(xs[|xs| - 1] - m, xs[|xs| - 1] - m)
  }

  function PowerOfTwo(n: nat): (r: real)
    ensures r >= 1.0
  {
    if n == 0 then 1.0 else 2.0 * PowerOfTwo(n - 1)
  }

  /** The smallest positive normal double and the largest double. */
  const DBL_MIN := 1.0 / PowerOfTwo(1022)
  const DBL_MAX := (2.0 - 1.0 / PowerOfTwo(52)) * PowerOfTwo(1023)

  // ---- The running form ----

  datatype Stats = Stats(count: nat, average: real, sumSquareMeanDist: real, min: real, max: real)

  /** Note the initial maximum: the smallest positive double, not the lowest. */
  const FRESH := Stats(0, 0.0, 0.0, DBL_MAX, DBL_MIN)

  function Updated(s: Stats, x: real): Stats {
    var count := s.count + 1;
    var average := s.average + (x - s.average) / count as real;
    Stats(count, average, s.sumSquareMeanDist + (x - s.average) * (x - average),
          if x < s.min then x else s.min, if s.max < x then x else s.max)
  }

  function AllUpdated(xs: seq<real>): Stats {
    if xs == [] then FRESH else Updated(AllUpdated(xs[..|xs| - 1]), xs[|xs| - 1])
  }

  // ---- Welford's algorithm ----

  /** The algebra of moving the centre, for one more sample. */
  lemma ShiftAlgebra(sum: real, a: real, b: real, n: real, x: real)
    ensures Times(2.0 * (a - b), sum - Times(a, n)) + Times(n, Times(a - b, a - b)) + Times(x - b, x - b)
         == Times(x - a, x - a) + Times(2.0 * (a - b), sum + x - Times(a, n + 1.0))
              + Times(n + 1.0, Times(a - b, a - b))
  {
    var d := a - b;
    assert Times(x - b, x - b) == (x - a) * (x - a) + 2.0 * d * (x - a) + d * d;
    assert 2.0 * d * (sum - a * n) + 2.0 * d * (x - a) == 2.0 * d * (sum - a * n + (x - a));
    assert sum - a * n + (x - a) == sum + x - a * (n + 1.0);
  }

  /** Measuring from `b` instead of `a`. */
  lemma {:induction false} ShiftCentre(xs: seq<real>, a: real, b: real)
    ensures SquaredDistance(xs, b) ==
            SquaredDistance(xs, a) + Times(2.0 * (a - b), Sum(xs) - Times(a, |xs| as real)) +
            Times(|xs| as real, Times(a - b, a - b))
  {
    hide Times;
    if xs == [] {
      assert |xs| as real == 0.0;
      TimesZero(a);
      TimesZero(2.0 * (a - b));
      TimesZero(Times(a - b, a - b));
    } else {
      var k := |xs| - 1;
      ShiftCentre(xs[..k], a, b);
      ShiftAlgebra(Sum(xs[..k]), a, b, k as real, xs[k]);
      assert |xs| as real == k as real + 1.0;
    }
  }

  /** The algebra of one step from mean m to mean m'. */
  lemma WelfordAlgebra(n: real, m: real, x: real, m': real)
    requires Times(m' - m, n + 1.0) == x - m
    ensures Times(n, Times(m - m', m - m')) + Times(x - m', x - m') == Times(x - m, x - m')
    ensures Times(m, n) + x == Times(m', n + 1.0)
  {
    var e := m' - m;
    assert x - m' == n * e && x - m == n * e + e;
    assert Times(n, Times(m - m', m - m')) == (n * e) * e;
    assert (n * e) * e + (n * e) * (n * e) == (n * e) * (e + n * e);
  }

  lemma TimesZero(a: real)
    ensures Times(a, 0.0) == 0.0 && Times(0.0, a) == 0.0
  {
  }

  ghost predicate MeanOf(m: real, xs: seq<real>) {
    Times(m, |xs| as real) == Sum(xs)
  }

  ghost predicate Refines(s: Stats, xs: seq<real>) {
    && s.count == |xs|
    && MeanOf(s.average, xs)
    && s.sumSquareMeanDist == SquaredDistance(xs, s.average)
  }

  lemma SnocSums(xs: seq<real>, x: real, m: real)
    ensures Sum(xs + [x]) == Sum(xs) + x
    ensures SquaredDistance(xs + [x], m) == SquaredDistance(xs, m) + Times(x - m, x - m)
  {
    hide Times;
    assert (xs + [x])[..|xs|] == xs;
  }

  /** One more sample moves the mean, and adds Welford's term to the squared
      distances. */
  lemma OneMoreSample(xs: seq<real>, m: real, x: real, m': real)
    requires MeanOf(m, xs) && Times(m' - m, |xs| as real + 1.0) == x - m
    ensures MeanOf(m', xs + [x])
    ensures SquaredDistance(xs + [x], m') == SquaredDistance(xs, m) + Times(x - m, x - m')
  {
    hide Times;
    ShiftCentre(xs, m, m');
    TimesZero(2.0 * (m - m'));
    WelfordAlgebra(|xs| as real, m, x, m');
    SnocSums(xs, x, m');
    assert |xs + [x]| as real == |xs| as real + 1.0;
  }

  /** What Update does to the fields, without the division. */
  lemma UpdateMovesMean(s: Stats, x: real)
    ensures var s' := Updated(s, x);
            && Times(s'.average - s.average, s.count as real + 1.0) == x - s.average
            && s'.sumSquareMeanDist == s.sumSquareMeanDist + Times(x - s.average, x - s'.average)
  {
    var c := (s.count + 1) as real;
    assert c == s.count as real + 1.0;
    var e := (x - s.average) / c;
    assert Times(e, c) == x - s.average;
    assert Updated(s, x).average - s.average == e;
  }

  lemma UpdateRefines(s: Stats, xs: seq<real>, x: real)
    requires Refines(s, xs)
    ensures Refines(Updated(s, x), xs + [x])
  {
    hide Times;
    UpdateMovesMean(s, x);
    var s' := Updated(s, x);
    assert s'.count == s.count + 1;
    OneMoreSample(xs, s.average, x, s'.average);
  }

  lemma SquareNotNegative(r: real)
    ensures Times(r, r) >= 0.0
  {
    if r < 0.0 {
      assert r * r == (-r) * (-r);
    }
  }

  lemma {:induction false} SquaredDistanceNotNegative(xs: seq<real>, m: real)
    ensures SquaredDistance(xs, m) >= 0.0
  {
    if xs != [] {
      SquaredDistanceNotNegative(xs[..|xs| - 1], m);
      SquareNotNegative(xs[|xs| - 1] - m);
    }
  }

  /** After any samples: `average` times `count` is their sum, and
      `sumSquareMeanDist` is the sum of the squared distances from the final
      mean, hence never negative. */
  lemma {:induction false} RunningRefinesDefinition(xs: seq<real>)
    ensures Refines(AllUpdated(xs), xs)
    ensures AllUpdated(xs).sumSquareMeanDist >= 0.0
  {
    if xs != [] {
      var k := |xs| - 1;
      RunningRefinesDefinition(xs[..k]);
      UpdateRefines(AllUpdated(xs[..k]), xs[..k], xs[k]);
      assert xs == xs[..k] + [xs[k]];
    }
    SquaredDistanceNotNegative(xs, AllUpdated(xs).average);
  }

  // ---- Bounds ----

  lemma {:induction false} BoundsHold(xs: seq<real>)
    ensures forall i :: 0 <= i < |xs| ==> AllUpdated(xs).min <= xs[i] <= AllUpdated(xs).max
    ensures AllUpdated(xs).min == DBL_MAX || AllUpdated(xs).min in xs
    ensures AllUpdated(xs).max == DBL_MIN || AllUpdated(xs).max in xs
    ensures AllUpdated(xs).min <= DBL_MAX && AllUpdated(xs).max >= DBL_MIN
  {
    if xs != [] {
      var k := |xs| - 1;
      BoundsHold(xs[..k]);
      assert xs == xs[..k] + [xs[k]];
    }
  }

  /** The minimum of finite samples is one of them, ... */
  lemma MinIsAttained(xs: seq<real>)
    requires xs != [] && forall i :: 0 <= i < |xs| ==> xs[i] <= DBL_MAX
    ensures AllUpdated(xs).min in xs
  {
    BoundsHold(xs);
    assert xs[0] in xs;
    assert AllUpdated(xs).min <= xs[0] <= DBL_MAX;
  }

  /** ... but the maximum is one of them if and only if some sample reaches
      the smallest positive double: it starts there. */
  lemma MaxIsAttainedIff(xs: seq<real>)
    ensures AllUpdated(xs).max in xs <==> exists i :: 0 <= i < |xs| && xs[i] >= DBL_MIN
  {
    BoundsHold(xs);
    if i :| 0 <= i < |xs| && xs[i] >= DBL_MIN {
      assert xs[i] in xs;
    }
  }

  /** A single sample of zero, for one, is not its own maximum. */
  lemma MaxOfZero()
    ensures AllUpdated([0.0]).max == DBL_MIN > 0.0
  {
    assert [0.0][..0] == [];
    assert 1.0 / PowerOfTwo(1022) > 0.0;
  }

  class Statistics {
    var count: nat
    var average: real
    var sumSquareMeanDist: real
    var min: real
    var max: real

    ghost function Now(): Stats
      reads this
    {
      Stats(count, average, sumSquareMeanDist, min, max)
    }

    constructor ()
      ensures Now() == FRESH
    {
      count, average, sumSquareMeanDist, min, max := 0, 0.0, 0.0, DBL_MAX, DBL_MIN;
    }

    method Update(stat: real)
      modifies this
      ensures Now() == Updated(old(Now()), stat)
    {
      count := count + 1;
      var currentAvg := average;
      average := currentAvg + (stat - currentAvg) / count as real;
      if stat < min {
        min := stat;
      }
      if max < stat {
        max := stat;
      }
      sumSquareMeanDist := sumSquareMeanDist + (stat - currentAvg) * (stat - average);
    }
  }

  // ---- Topic statistics ----

  const TWO_64 := 0x1_0000_0000_0000_0000

  /** Subtraction of unsigned 64-bit numbers. */
  function Minus(a: int, b: int): int {
    (a - b) % TWO_64
  }

  /** One call of TopicStatistics::Update, with the clock it reads. */
  datatype Arrival = Arrival(sender: string, stamp: int, seqNo: int, now: int)

  datatype Topic = Topic(seqNo: map<string, int>, publication: Stats, reception: Stats, age: Stats,
                         dropped: nat, prevStamp: int, prevNow: int)

  const FRESH_TOPIC := Topic(map[], FRESH, FRESH, FRESH, 0, 0, 0)

  function Arrived(t: Topic, a: Arrival): Topic {
    var last := if a.sender in t.seqNo then t.seqNo[a.sender] else 0;
    var counted :=
      if t.prevStamp == 0 then t
      else t.(publication := Updated(t.publication, Minus(a.stamp, t.prevStamp) as real),
              reception := Updated(t.reception, Minus(a.now, t.prevNow) as real),
              age := Updated(t.age, Minus(a.now, a.stamp) as real),
              dropped := if (last + 1) % TWO_64 != a.seqNo then t.dropped + 1 else t.dropped);
    counted.(prevStamp := a.stamp, prevNow := a.now, seqNo := t.seqNo[a.sender := a.seqNo])
  }

  function AllArrived(arrivals: seq<Arrival>): Topic {
    if arrivals == [] then FRESH_TOPIC
    else Arrived(AllArrived(arrivals[..|arrivals| - 1]), arrivals[|arrivals| - 1])
  }

  /** The sender's number before position `k`: its latest arrival, or 0. */
  function LastSeq(arrivals: seq<Arrival>, sender: string, k: nat): int
    requires k <= |arrivals|
  {
    if k == 0 then 0
    else if arrivals[k - 1].sender == sender then arrivals[k - 1].seqNo
    else LastSeq(arrivals, sender, k - 1)
  }

  /** Arrival `k` breaks the numbering of its sender; the first one, and any
      that follows a zero stamp, is not looked at. */
  predicate Gap(arrivals: seq<Arrival>, k: nat)
    requires k < |arrivals|
  {
    k > 0 && arrivals[k - 1].stamp != 0 &&
    (LastSeq(arrivals, arrivals[k].sender, k) + 1) % TWO_64 != arrivals[k].seqNo
  }

  function Gaps(arrivals: seq<Arrival>, k: nat): nat
    requires k <= |arrivals|
  {
    if k == 0 then 0 else Gaps(arrivals, k - 1) + if Gap(arrivals, k - 1) then 1 else 0
  }

  lemma {:induction false} LastSeqOfPrefix(arrivals: seq<Arrival>, sender: string, k: nat, n: nat)
    requires k <= n <= |arrivals|
    ensures LastSeq(arrivals[..n], sender, k) == LastSeq(arrivals, sender, k)
  {
    if k > 0 {
      LastSeqOfPrefix(arrivals, sender, k - 1, n);
    }
  }

  lemma {:induction false} GapsOfPrefix(arrivals: seq<Arrival>, k: nat, n: nat)
    requires k <= n <= |arrivals|
    ensures Gaps(arrivals[..n], k) == Gaps(arrivals, k)
  {
    if k > 0 {
      GapsOfPrefix(arrivals, k - 1, n);
      LastSeqOfPrefix(arrivals, arrivals[k - 1].sender, k - 1, n);
    }
  }

  /** The per-sender map holds each sender's latest number, and the counter is
      the number of breaks in the senders' numberings: one per break, however
      many messages it skips. */
  lemma {:induction false} DroppedCountsGaps(arrivals: seq<Arrival>)
    ensures var t := AllArrived(arrivals);
            && t.dropped == Gaps(arrivals, |arrivals|)
            && (forall s :: (if s in t.seqNo then t.seqNo[s] else 0) == LastSeq(arrivals, s, |arrivals|))
            && t.prevStamp == (if arrivals == [] then 0 else arrivals[|arrivals| - 1].stamp)
  {
    if arrivals != [] {
      var k := |arrivals| - 1;
      DroppedCountsGaps(arrivals[..k]);
      GapsOfPrefix(arrivals, k, k);
      forall s
        ensures LastSeq(arrivals[..k], s, k) == LastSeq(arrivals, s, k)
      {
        LastSeqOfPrefix(arrivals, s, k, k);
      }
    }
  }

  /** The publication periods: the wrapped differences of consecutive stamps,
      except after a zero stamp. */
  function Periods(arrivals: seq<Arrival>): seq<real> {
    if |arrivals| < 2 then []
    else
      var k := |arrivals| - 1;
      Periods(arrivals[..k]) +
      if arrivals[k - 1].stamp == 0 then [] else [Minus(arrivals[k].stamp, arrivals[k - 1].stamp) as real]
  }

  lemma AllUpdatedSnoc(xs: seq<real>, x: real)
    ensures AllUpdated(xs + [x]) == Updated(AllUpdated(xs), x)
  {
    hide Updated;
    assert (xs + [x])[..|xs|] == xs;
  }

  /** The publication statistics are the running form of these periods, ... */
  lemma {:induction false} PublicationIsOfPeriods(arrivals: seq<Arrival>)
    ensures AllArrived(arrivals).publication == AllUpdated(Periods(arrivals))
  {
    if arrivals == [] {
    } else {
      hide Updated, AllUpdated;
      var k := |arrivals| - 1;
      PublicationIsOfPeriods(arrivals[..k]);
      DroppedCountsGaps(arrivals[..k]);
      assert AllArrived(arrivals) == Arrived(AllArrived(arrivals[..k]), arrivals[k]);
      if k > 0 && arrivals[k - 1].stamp != 0 {
        AllUpdatedSnoc(Periods(arrivals[..k]), Minus(arrivals[k].stamp, arrivals[k - 1].stamp) as real);
      } else {
        assert Periods(arrivals) == Periods(arrivals[..k]);
      }
    }
  }

  /** ... so they are what the definition says of the periods. */
  lemma PublicationRefinesPeriods(arrivals: seq<Arrival>)
    ensures Refines(AllArrived(arrivals).publication, Periods(arrivals))
  {
    hide Refines;
    PublicationIsOfPeriods(arrivals);
    RunningRefinesDefinition(Periods(arrivals));
  }

  /** The reception periods and the ages of the same arrivals. */
  function ReceptionPeriods(arrivals: seq<Arrival>): seq<real> {
    if |arrivals| < 2 then []
    else
      var k := |arrivals| - 1;
      ReceptionPeriods(arrivals[..k]) +
      if arrivals[k - 1].stamp == 0 then [] else [Minus(arrivals[k].now, arrivals[k - 1].now) as real]
  }

  function Ages(arrivals: seq<Arrival>): seq<real> {
    if |arrivals| < 2 then []
    else
      var k := |arrivals| - 1;
      Ages(arrivals[..k]) +
      if arrivals[k - 1].stamp == 0 then [] else [Minus(arrivals[k].now, arrivals[k].stamp) as real]
  }

  /** The reception and age statistics are the running form of these. */
  lemma {:induction false} ReceptionIsOfPeriods(arrivals: seq<Arrival>)
    ensures var t := AllArrived(arrivals);
            && t.reception == AllUpdated(ReceptionPeriods(arrivals)) && t.age == AllUpdated(Ages(arrivals))
            && (arrivals != [] ==> t.prevNow == arrivals[|arrivals| - 1].now)
  {
    if arrivals == [] {
    } else {
      hide Updated, AllUpdated;
      var k := |arrivals| - 1;
      ReceptionIsOfPeriods(arrivals[..k]);
      DroppedCountsGaps(arrivals[..k]);
      assert AllArrived(arrivals) == Arrived(AllArrived(arrivals[..k]), arrivals[k]);
      if k > 0 && arrivals[k - 1].stamp != 0 {
        AllUpdatedSnoc(ReceptionPeriods(arrivals[..k]), Minus(arrivals[k].now, arrivals[k - 1].now) as real);
        AllUpdatedSnoc(Ages(arrivals[..k]), Minus(arrivals[k].now, arrivals[k].stamp) as real);
      } else {
        assert ReceptionPeriods(arrivals) == ReceptionPeriods(arrivals[..k]) && Ages(arrivals) == Ages(arrivals[..k]);
      }
    }
  }

  /** So these too are what the definition says. */
  lemma ReceptionRefinesPeriods(arrivals: seq<Arrival>)
    ensures Refines(AllArrived(arrivals).reception, ReceptionPeriods(arrivals))
    ensures Refines(AllArrived(arrivals).age, Ages(arrivals))
  {
    hide Refines;
    ReceptionIsOfPeriods(arrivals);
    RunningRefinesDefinition(ReceptionPeriods(arrivals));
    RunningRefinesDefinition(Ages(arrivals));
  }

  class TopicStatistics {
    var seqNo: map<string, int>
    const publication: Statistics
    const reception: Statistics
    const age: Statistics
    var droppedMsgCount: nat
    var prevPublicationStamp: int
    var prevReceptionStamp: int

    ghost predicate Valid() {
      publication != reception && reception != age && age != publication
    }

    ghost function Now(): Topic
      reads this, publication, reception, age
    {
      Topic(seqNo, publication.Now(), reception.Now(), age.Now(), droppedMsgCount, prevPublicationStamp,
            prevReceptionStamp)
    }

    constructor ()
      ensures Valid() && Now() == FRESH_TOPIC && fresh(publication) && fresh(reception) && fresh(age)
    {
      publication := new Statistics();
      reception := new Statistics();
      age := new Statistics();
      seqNo, droppedMsgCount, prevPublicationStamp, prevReceptionStamp := map[], 0, 0, 0;
    }

    /** The clock reads `now`. */
    method Update(sender: string, stamp: int, number: int, now: int)
      requires Valid()
      modifies this, publication, reception, age
      ensures Now() == Arrived(old(Now()), Arrival(sender, stamp, number, now))
    {
      hide Updated;
      if prevPublicationStamp != 0 {
        publication.Update(Minus(stamp, prevPublicationStamp) as real);
        reception.Update(Minus(now, prevReceptionStamp) as real);
        age.Update(Minus(now, stamp) as real);
        var last := if sender in seqNo then seqNo[sender] else 0;
        if (last + 1) % TWO_64 != number {
          droppedMsgCount := droppedMsgCount + 1;
        }
      }
      prevPublicationStamp := stamp;
      prevReceptionStamp := now;
      seqNo := seqNo[sender := number];
    }
  }
}
