// The string operations TopicUtils.cc builds on: searching for a character,
// splitting on a separator, joining, and replacing one character by another.
module Strings {

  /** Position of the first `c` in `s`, or `|s|` when there is none. */
  function IndexOf(s: string, c: char): (i: nat)
    ensures i <= |s|
    ensures i < |s| ==> s[i] == c
    ensures c !in s[..i]
    ensures i < |s| <==> c in s
  {
    if s == "" then 0
    else if s[0] == c then 0
    else
      var j := IndexOf(s[1..], c);
      assert s[..j + 1] == [s[0]] + s[1..][..j];
      assert s == [s[0]] + s[1..];
      j + 1
  }

  /** Position of the last `c` in `s`, or `|s|` when there is none. */
  function LastIndexOf(s: string, c: char): (i: nat)
    ensures i <= |s|
    ensures i < |s| ==> s[i] == c && c !in s[i + 1..] && forall k :: i < k < |s| ==> s[k] != c
    ensures i < |s| <==> c in s
  {
    if s == "" then 0
    else
      var n := |s| - 1;
      assert s == s[..n] + [s[n]];
      if s[n] == c then n
      else
        var i := LastIndexOf(s[..n], c);
        if i < n then (TailSnoc(s, i + 1); i) else |s|
  }

  lemma TailSnoc(s: string, i: nat)
    requires i < |s|
    ensures s[i..] == s[..|s| - 1][i..] + [s[|s| - 1]]
  {
  }

  /** Two adjacent characters `a`, `b` somewhere in `s`. */
  predicate HasPair(s: string, a: char, b: char) {
    exists i :: 0 <= i < |s| - 1 && s[i] == a && s[i + 1] == b
  }

  predicate PairAt(s: string, i: nat, a: char, b: char) {
    i + 1 < |s| && s[i] == a && s[i + 1] == b
  }

  lemma HasPairTail(s: string, a: char, b: char)
    requires s != ""
    ensures HasPair(s, a, b) <==> PairAt(s, 0, a, b) || HasPair(s[1..], a, b)
  {
    var t := s[1..];
    if HasPair(s, a, b) && !PairAt(s, 0, a, b) {
      var i :| 0 <= i < |s| - 1 && s[i] == a && s[i + 1] == b;
      assert t[i - 1] == a && t[i - 1 + 1] == b;
    }
    if HasPair(t, a, b) {
      var i :| 0 <= i < |t| - 1 && t[i] == a && t[i + 1] == b;
      assert s[i + 1] == a && s[i + 1 + 1] == b;
    }
  }

  lemma NoPairAt(s: string, i: nat, a: char, b: char)
    requires i + 1 < |s| && !HasPair(s, a, b)
    ensures !(s[i] == a && s[i + 1] == b)
  {
  }

  function Replace(s: string, a: char, b: char): (r: string)
    ensures |r| == |s|
    ensures forall i :: 0 <= i < |s| ==> r[i] == if s[i] == a then b else s[i]
  {
    seq(|s|, i requires 0 <= i < |s| => if s[i] == a then b else s[i])
  }

  function Count(s: string, c: char): nat {
    if s == "" then 0 else (if s[0] == c then 1 else 0) + Count(s[1..], c)
  }

  /** The fields of `s` between separators: always at least one. */
  function Split(s: string, sep: char): (fields: seq<string>)
    ensures fields != []
    decreases |s|
  {
    var i := IndexOf(s, sep);
    if i == |s| then [s] else [s[..i]] + Split(s[i + 1..], sep)
  }

  function Join(fields: seq<string>, sep: char): string
    requires fields != []
  {
    if |fields| == 1 then fields[0] else fields[0] + [sep] + Join(fields[1..], sep)
  }

  /** Every field followed by a separator, as code that appends
      `field + sep` in a row writes them. */
  function Terminated(fields: seq<string>, sep: char): string {
    if fields == [] then "" else
      var n := |fields| - 1;
      Terminated(fields[..n], sep) + fields[n] + [sep]
  }

  predicate Free(s: string, c: char) {
    c !in s
  }

  predicate AllFree(fields: seq<string>, c: char) {
    forall i :: 0 <= i < |fields| ==> Free(fields[i], c)
  }

  lemma {:induction false} SplitFieldsAreFree(s: string, sep: char)
    ensures AllFree(Split(s, sep), sep)
    decreases |s|
  {
    var i := IndexOf(s, sep);
    if i == |s| {
      assert s[..i] == s;
    } else {
      SplitFieldsAreFree(s[i + 1..], sep);
    }
  }

  lemma JoinCons(field: string, rest: seq<string>, sep: char)
    requires rest != []
    ensures Join([field] + rest, sep) == field + [sep] + Join(rest, sep)
  {
    assert ([field] + rest)[1..] == rest;
  }

  lemma Cut(s: string, i: nat)
    requires i < |s|
    ensures s == s[..i] + [s[i]] + s[i + 1..]
  {
  }

  /** One step of Split. */
  lemma SplitStep(s: string, sep: char)
    ensures var i := IndexOf(s, sep);
            Split(s, sep) == if i == |s| then [s] else [s[..i]] + Split(s[i + 1..], sep)
  {
  }

  lemma {:induction false} JoinOfSplit(s: string, sep: char)
    ensures Join(Split(s, sep), sep) == s
    decreases |s|
  {
    SplitStep(s, sep);
    var i := IndexOf(s, sep);
    if i < |s| {
      hide Split, Join;
      JoinOfSplit(s[i + 1..], sep);
      JoinCons(s[..i], Split(s[i + 1..], sep), sep);
      Cut(s, i);
    }
  }

  /** One separator-free field in front of a separator is the first field. */
  lemma SplitCons(field: string, rest: string, sep: char)
    requires Free(field, sep)
    ensures Split(field + [sep] + rest, sep) == [field] + Split(rest, sep)
  {
    var s := field + [sep] + rest;
    assert s[|field|] == sep;
    var i := IndexOf(s, sep);
    assert forall k :: 0 <= k < |field| ==> s[k] == field[k] && field[k] != sep;
    assert forall k :: 0 <= k < i ==> s[..i][k] == s[k] && s[k] != sep;
    assert s[..i] == field;
    assert s[i + 1..] == rest;
  }

  lemma {:induction false} SplitOfJoin(fields: seq<string>, sep: char)
    requires fields != [] && AllFree(fields, sep)
    ensures Split(Join(fields, sep), sep) == fields
  {
    if |fields| == 1 {
      assert fields == [fields[0]];
    } else {
      SplitOfJoin(fields[1..], sep);
      SplitCons(fields[0], Join(fields[1..], sep), sep);
      assert fields == [fields[0]] + fields[1..];
    }
  }

  lemma TerminatedSnoc(fields: seq<string>, last: string, sep: char)
    ensures Terminated(fields + [last], sep) == Terminated(fields, sep) + last + [sep]
  {
    assert (fields + [last])[..|fields|] == fields;
  }

  lemma Regroup(a: string, b: string, c: string, d: string)
    ensures ((a + b) + c) + d == a + ((b + c) + d)
  {
  }

  lemma RegroupFields(a: seq<string>, b: string, c: seq<string>)
    ensures a + ([b] + c) == (a + [b]) + c
  {
  }

  /** Terminated fields in front of a string are the first fields of it. */
  lemma {:induction false} SplitTerminated(fields: seq<string>, rest: string, sep: char)
    requires AllFree(fields, sep)
    ensures Split(Terminated(fields, sep) + rest, sep) == fields + Split(rest, sep)
  {
    if fields == [] {
      assert Terminated(fields, sep) + rest == rest;
    } else {
      var n := |fields| - 1;
      assert Free(fields[n], sep);
      assert Terminated(fields, sep) == Terminated(fields[..n], sep) + fields[n] + [sep];
      hide Split, Terminated;
      SplitTerminated(fields[..n], fields[n] + [sep] + rest, sep);
      SplitCons(fields[n], rest, sep);
      Regroup(Terminated(fields[..n], sep), fields[n], [sep], rest);
      RegroupFields(fields[..n], fields[n], Split(rest, sep));
      assert fields == fields[..n] + [fields[n]];
    }
  }

  lemma {:induction false} TerminatedIsJoin(fields: seq<string>, sep: char)
    requires fields != []
    ensures Terminated(fields, sep) == Join(fields, sep) + [sep]
  {
    var n := |fields| - 1;
    if n == 0 {
      assert Terminated(fields[..0], sep) == "";
    } else {
      TerminatedIsJoin(fields[..n], sep);
      JoinSnoc(fields[..n], fields[n], sep);
      assert fields == fields[..n] + [fields[n]];
    }
  }

  lemma {:induction false} JoinSnoc(fields: seq<string>, last: string, sep: char)
    requires fields != []
    ensures Join(fields + [last], sep) == Join(fields, sep) + [sep] + last
  {
    if |fields| > 1 {
      JoinSnoc(fields[1..], last, sep);
      assert (fields + [last])[1..] == fields[1..] + [last];
    } else {
      assert (fields + [last])[1..] == [last];
    }
  }

  lemma {:induction false} CountIsFieldsMinusOne(s: string, sep: char)
    ensures Count(s, sep) == |Split(s, sep)| - 1
    decreases |s|
  {
    var i := IndexOf(s, sep);
    CountSkip(s, sep, i);
    if i < |s| {
      CountIsFieldsMinusOne(s[i + 1..], sep);
      assert s[i..][1..] == s[i + 1..];
    }
  }

  lemma {:induction false} CountSkip(s: string, c: char, i: nat)
    requires i <= |s| && c !in s[..i]
    ensures Count(s, c) == Count(s[i..], c)
  {
    if i == 0 {
      assert s[0..] == s;
    } else {
      assert s[..i][0] == s[0];
      assert forall x :: x in s[1..][..i - 1] ==> x in s[..i];
      CountSkip(s[1..], c, i - 1);
      assert s[1..][i - 1..] == s[i..];
    }
  }

  lemma ReplaceThereAndBack(s: string, a: char, b: char)
    ensures Replace(Replace(s, a, b), b, a) == s <==> b !in s || a == b
  {
    var r := Replace(Replace(s, a, b), b, a);
    if b !in s {
      assert r == s;
    } else if a != b {
      var i :| 0 <= i < |s| && s[i] == b;
      assert r[i] == a;
    } else {
      assert r == s;
    }
  }

  lemma ReplaceRemoves(s: string, a: char, b: char)
    requires a != b
    ensures a !in Replace(s, a, b)
  {
  }

  // ---- Dictionary order ----

  /** The order in which std::map keeps its keys. */
  predicate AtMost(a: string, b: string) {
    a == "" || (b != "" && (a[0] < b[0] || (a[0] == b[0] && AtMost(a[1..], b[1..]))))
  }

  lemma AtMostTail(a: string, b: string)
    requires a != "" && b != "" && a[0] == b[0]
    ensures AtMost(a, b) <==> AtMost(a[1..], b[1..])
  {
  }

  /** The first character that differs decides; a prefix comes first. */
  lemma {:induction false} FirstDifferenceDecides(common: string, c: char, d: char, a: string, b: string)
    requires c < d
    ensures AtMost(common + [c] + a, common + [d] + b) && !AtMost(common + [d] + b, common + [c] + a)
    ensures AtMost(common, common + a)
  {
    if common == "" {
      assert common + a == a && common + [c] + a == [c] + a && common + [d] + b == [d] + b;
    } else {
      hide AtMost;
      FirstDifferenceDecides(common[1..], c, d, a, b);
      AtMostTail(common + [c] + a, common + [d] + b);
      AtMostTail(common + [d] + b, common + [c] + a);
      AtMostTail(common, common + a);
      assert (common + [c] + a)[1..] == common[1..] + [c] + a && (common + [d] + b)[1..] == common[1..] + [d] + b;
      assert (common + a)[1..] == common[1..] + a;
    }
  }

  lemma {:induction false} AtMostIsTotal(a: string, b: string)
    ensures AtMost(a, b) || AtMost(b, a)
    ensures AtMost(a, b) && AtMost(b, a) ==> a == b
  {
    if a != "" && b != "" {
      AtMostIsTotal(a[1..], b[1..]);
      assert a == [a[0]] + a[1..] && b == [b[0]] + b[1..];
    }
  }

  lemma {:induction false} AtMostIsTransitive(a: string, b: string, c: string)
    requires AtMost(a, b) && AtMost(b, c)
    ensures AtMost(a, c)
  {
    if a != "" && a[0] == b[0] == c[0] {
      AtMostIsTransitive(a[1..], b[1..], c[1..]);
    }
  }

  predicate IsLeast(a: string, names: set<string>) {
    a in names && forall b :: b in names ==> AtMost(a, b)
  }

  lemma {:induction false} LeastExists(names: set<string>) returns (least: string)
    requires names != {}
    ensures IsLeast(least, names)
  {
    var a :| a in names;
    AtMostIsTotal(a, a);
    if names == {a} {
      least := a;
    } else {
      var other := LeastExists(names - {a});
      AtMostIsTotal(a, other);
      least := if AtMost(a, other) then a else other;
      forall b | b in names
        ensures AtMost(least, b)
      {
        if b != a && least == a {
          AtMostIsTransitive(a, other, b);
        }
      }
    }
  }
}
