// SQL statements with positional parameters, and what their WHERE clause
// means: a parser for the clauses and an evaluator on one message row,
// independent of the generators.
module QueryText {
  import opened Options

  datatype Op = GE | GT | LE | LT

  /** The pieces of statement text. `Preamble` is the SELECT ... JOIN ... ON
      text that every query starts with, `OrderByTime` the closing clause. */
  datatype Token =
    | Preamble | Where | Open | Close | And | Comma | Mark
    | TopicId | In | TimeRecv | Cmp(op: Op) | OrderByTime

  datatype Statement = Statement(text: seq<Token>, params: seq<int>)

  /** SqlStatement::Append. */
  function Append(a: Statement, b: Statement): Statement {
    Statement(a.text + b.text, a.params + b.params)
  }

  /** Placeholders of a statement text. */
  function Marks(text: seq<Token>): nat {
    if text == [] then 0 else (if text[0] == Mark then 1 else 0) + Marks(text[1..])
  }

  // ---- Conditions ----

  /** A condition; a placeholder is known by its position, counted from 0. */
  datatype Cond =
    | TopicIn(first: nat, count: nat)
    | Compare(op: Op, mark: nat)
    | Both(left: Cond, right: Cond)

  predicate Compares(op: Op, a: int, b: int) {
    match op
    case GE => a >= b
    case GT => a > b
    case LE => a <= b
    case LT => a < b
  }

  /** A placeholder that was never bound is NULL: nothing compares with it. */
  predicate Holds(c: Cond, params: seq<int>, topicId: int, time: int) {
    match c
    case TopicIn(first, count) => exists i :: first <= i < first + count && i < |params| && params[i] == topicId
    case Compare(op, mark) => mark < |params| && Compares(op, time, params[mark])
    case Both(left, right) => Holds(left, params, topicId, time) && Holds(right, params, topicId, time)
  }

  // ---- Parsing ----

  /** A parsed prefix: its condition, the tokens after it, and the position of
      the next placeholder. */
  datatype Parsed = Parsed(cond: Cond, rest: seq<Token>, next: nat)

  /** The rest of a list of placeholders, up to and with the closing bracket. */
  function ParseMarks(ts: seq<Token>, n: nat): (r: Option<(nat, seq<Token>)>)
    ensures r.Some? ==> |r.value.1| < |ts|
  {
    if ts == [] then None
    else if ts[0] == Close then Some((n, ts[1..]))
    else if |ts| >= 2 && ts[0] == Comma && ts[1] == Mark then ParseMarks(ts[2..], n + 1)
    else None
  }

  function ParseList(ts: seq<Token>): (r: Option<(nat, seq<Token>)>)
    ensures r.Some? ==> |r.value.1| < |ts|
  {
    if ts != [] && ts[0] == Mark then ParseMarks(ts[1..], 1)
    else if ts != [] && ts[0] == Close then Some((0, ts[1..]))
    else None
  }

  function ParseTerm(ts: seq<Token>, next: nat): (r: Option<Parsed>)
    ensures r.Some? ==> |r.value.rest| < |ts|
    decreases |ts|, 0
  {
    if |ts| >= 1 && ts[0] == Open then
      match ParseConj(ts[1..], next)
      case None => None
      case Some(p) => if p.rest != [] && p.rest[0] == Close then Some(p.(rest := p.rest[1..])) else None
    else if |ts| >= 3 && ts[0] == TopicId && ts[1] == In && ts[2] == Open then
      match ParseList(ts[3..])
      case None => None
      case Some((count, rest)) => Some(Parsed(TopicIn(next, count), rest, next + count))
    else if |ts| >= 3 && ts[0] == TimeRecv && ts[1].Cmp? && ts[2] == Mark then
      Some(Parsed(Compare(ts[1].op, next), ts[3..], next + 1))
    else None
  }

  function ParseConj(ts: seq<Token>, next: nat): (r: Option<Parsed>)
    ensures r.Some? ==> |r.value.rest| < |ts|
    decreases |ts|, 1
  {
    match ParseTerm(ts, next)
    case None => None
    case Some(p) =>
      if p.rest != [] && p.rest[0] == And then
        match ParseConj(p.rest[1..], p.next)
        case None => None
        case Some(q) => Some(Parsed(Both(p.cond, q.cond), q.rest, q.next))
      else Some(p)
  }

  /** A whole query: an optional WHERE clause between the fixed parts. */
  datatype Query = Malformed | Everything | Filtered(cond: Cond)

  function ParseQuery(text: seq<Token>): Query {
    if |text| < 2 || text[0] != Preamble then Malformed
    else if text[1] == OrderByTime && |text| == 2 then Everything
    else if text[1] == Where then
      match ParseConj(text[2..], 0)
      case None => Malformed
      case Some(p) => if p.rest == [OrderByTime] then Filtered(p.cond) else Malformed
    else Malformed
  }

  /** Whether the statement keeps a row. */
  predicate Selects(s: Statement, topicId: int, time: int) {
    match ParseQuery(s.text)
    case Malformed => false
    case Everything => true
    case Filtered(c) => Holds(c, s.params, topicId, time)
  }

  // ---- Binding ----

  /** The loop of PrepareNextStatement: placeholder i, counted from 1, gets
      the i-th parameter. */
  method Bind(params: seq<int>) returns (bound: map<int, int>)
    ensures forall i :: i in bound <==> 1 <= i <= |params|
    ensures forall i :: 1 <= i <= |params| ==> bound[i] == params[i - 1]
  {
    bound := map[];
    var i := 1;
    for n := 0 to |params|
      invariant i == n + 1
      invariant forall k :: k in bound <==> 1 <= k <= n
      invariant forall k :: 1 <= k <= n ==> bound[k] == params[k - 1]
    {
      bound := bound[i := params[n]];
      i := i + 1;
    }
  }

  lemma {:induction false} MarksConcat(a: seq<Token>, b: seq<Token>)
    ensures Marks(a + b) == Marks(a) + Marks(b)
  {
    if a == [] {
      assert a + b == b;
    } else {
      assert (a + b)[1..] == a[1..] + b;
      MarksConcat(a[1..], b);
    }
  }
}
