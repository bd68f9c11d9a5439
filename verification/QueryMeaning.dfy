// The generated statements select what was asked for: they parse, their
// placeholders get their own values, and their rows are the requested ones.
module QueryMeaning {
  import opened Options
  import opened Descriptors
  import opened LogStore
  import opened QueryText
  import opened Queries

  // ---- The id list ----

  function MoreMarks(n: nat): seq<Token> {
    if n == 0 then [] else [Comma, Mark] + MoreMarks(n - 1)
  }

  lemma {:induction false} MoreMarksSnoc(n: nat)
    ensures MoreMarks(n + 1) == MoreMarks(n) + [Comma, Mark]
  {
    if n > 0 {
      MoreMarksSnoc(n - 1);
      assert MoreMarks(n + 1) == [Comma, Mark] + (MoreMarks(n - 1) + [Comma, Mark]);
    }
  }

  lemma {:induction false} MarkListIs(n: nat)
    requires n > 0
    ensures MarkList(n) == [Mark] + MoreMarks(n - 1)
  {
    if n > 1 {
      MarkListIs(n - 1);
      MoreMarksSnoc(n - 2);
      assert MarkList(n) == [Mark] + (MoreMarks(n - 2) + [Comma, Mark]);
    }
  }

  lemma {:induction false} MoreMarksParse(n: nat, rest: seq<Token>, m: nat)
    ensures ParseMarks(MoreMarks(n) + ([Close] + rest), m) == Some((m + n, rest))
  {
    if n == 0 {
      assert MoreMarks(0) + ([Close] + rest) == [Close] + rest;
      assert ([Close] + rest)[1..] == rest;
    } else {
      assert MoreMarks(n) == [Comma, Mark] + MoreMarks(n - 1);
      hide MoreMarks;
      var ts := MoreMarks(n) + ([Close] + rest);
      assert ts[0] == Comma && ts[1] == Mark;
      assert ts[2..] == MoreMarks(n - 1) + ([Close] + rest);
      assert ParseMarks(ts, m) == ParseMarks(ts[2..], m + 1);
      MoreMarksParse(n - 1, rest, m + 1);
    }
  }

  lemma MarkListParses(n: nat, rest: seq<Token>)
    ensures ParseList(MarkList(n) + ([Close] + rest)) == Some((n, rest))
  {
    var ts := MarkList(n) + ([Close] + rest);
    if n == 0 {
      assert ts == [Close] + rest && ts[1..] == rest;
    } else {
      MarkListIs(n);
      MoreMarksParse(n - 1, rest, 1);
      assert ts[0] == Mark && ts[1..] == MoreMarks(n - 1) + ([Close] + rest);
    }
  }

  /** The bracketed id list is one term. */
  lemma ListTermParses(ids: seq<int>, rest: seq<Token>)
    ensures ParseTerm([Open] + TopicListClause(ids).text + [Close] + rest, 0)
         == Some(Parsed(TopicIn(0, |ids|), rest, |ids|))
  {
    var ts := [Open] + TopicListClause(ids).text + [Close] + rest;
    var inner := [Close] + rest;
    var clause := [TopicId, In, Open] + (MarkList(|ids|) + ([Close] + inner));
    assert ts[1..] == clause;
    assert clause[3..] == MarkList(|ids|) + ([Close] + inner);
    MarkListParses(|ids|, inner);
    assert ParseTerm(clause, 0) == Some(Parsed(TopicIn(0, |ids|), inner, |ids|));
    assert ParseConj(clause, 0) == Some(Parsed(TopicIn(0, |ids|), inner, |ids|));
    assert inner[1..] == rest;
  }

  // ---- The time conditions ----

  function BeginningOp(t: QualifiedTime): Op
    requires t.Instant?
  {
    if t.inclusive then GE else GT
  }

  function EndingOp(t: QualifiedTime): Op
    requires t.Instant?
  {
    if t.inclusive then LE else LT
  }

  /** The condition the time text stands for, with its first placeholder at
      `next`. */
  function TimeCond(range: TimeRange, next: nat): Option<Cond> {
    match (range.beginning, range.ending)
    case (Indeterminate, Indeterminate) => None
    case (Instant(_, _), Indeterminate) => Some(Compare(BeginningOp(range.beginning), next))
    case (Indeterminate, Instant(_, _)) => Some(Compare(EndingOp(range.ending), next))
    case (Instant(_, _), Instant(_, _)) =>
      Some(Both(Compare(BeginningOp(range.beginning), next), Compare(EndingOp(range.ending), next + 1)))
  }

  lemma TimeTextIff(range: TimeRange, next: nat)
    ensures TimeCond(range, next).Some? <==> TimeConditions(range).text != []
  {
  }

  lemma CompareParses(op: Op, rest: seq<Token>, next: nat)
    ensures ParseTerm([TimeRecv, Cmp(op), Mark] + rest, next) == Some(Parsed(Compare(op, next), rest, next + 1))
  {
    assert ([TimeRecv, Cmp(op), Mark] + rest)[3..] == rest;
  }

  lemma TimeParses(range: TimeRange, rest: seq<Token>, next: nat)
    requires TimeConditions(range).text != [] && (rest == [] || rest[0] != And)
    ensures TimeCond(range, next).Some?
    ensures ParseConj(TimeConditions(range).text + rest, next)
         == Some(Parsed(TimeCond(range, next).value, rest, next + |TimeConditions(range).params|))
  {
    hide ParseTerm;
    var ts := TimeConditions(range).text + rest;
    if range.beginning.Instant? && range.ending.Instant? {
      var second := [TimeRecv, Cmp(EndingOp(range.ending)), Mark] + rest;
      assert ts == [TimeRecv, Cmp(BeginningOp(range.beginning)), Mark] + ([And] + second);
      CompareParses(BeginningOp(range.beginning), [And] + second, next);
      CompareParses(EndingOp(range.ending), rest, next + 1);
      assert ([And] + second)[1..] == second;
    } else if range.beginning.Instant? {
      CompareParses(BeginningOp(range.beginning), rest, next);
      assert ts == [TimeRecv, Cmp(BeginningOp(range.beginning)), Mark] + rest;
    } else {
      CompareParses(EndingOp(range.ending), rest, next);
      assert ts == [TimeRecv, Cmp(EndingOp(range.ending)), Mark] + rest;
    }
  }

  /** Whatever stands before the time parameters. */
  lemma TimeHolds(range: TimeRange, before: seq<int>, topicId: int, time: int)
    requires TimeCond(range, |before|).Some?
    ensures Holds(TimeCond(range, |before|).value, before + TimeConditions(range).params, topicId, time)
       <==> InRange(range, time)
  {
  }

  // ---- Whole statements ----

  /** The bracketed time condition is one term, and ends the clause. */
  lemma TimeTermParses(range: TimeRange, next: nat)
    requires TimeConditions(range).text != []
    ensures TimeCond(range, next).Some?
    ensures ParseConj([Open] + (TimeConditions(range).text + [Close, OrderByTime]), next)
         == Some(Parsed(TimeCond(range, next).value, [OrderByTime], next + |TimeConditions(range).params|))
  {
    var time := TimeConditions(range).text;
    var bracketed := [Open] + (time + [Close, OrderByTime]);
    TimeParses(range, [Close, OrderByTime], next);
    assert bracketed[1..] == time + [Close, OrderByTime];
    assert [Close, OrderByTime][1..] == [OrderByTime];
  }

  lemma ConjAfterTerm(ts: seq<Token>, next: nat, more: seq<Token>)
    requires ParseTerm(ts, next).Some? && ParseTerm(ts, next).value.rest == [And] + more
    requires ParseConj(more, ParseTerm(ts, next).value.next).Some?
    ensures var p := ParseTerm(ts, next).value;
            var q := ParseConj(more, p.next).value;
            ParseConj(ts, next) == Some(Parsed(Both(p.cond, q.cond), q.rest, q.next))
  {
    hide ParseTerm;
    assert ([And] + more)[1..] == more;
  }

  lemma ForIdsTextIs(ids: seq<int>, range: TimeRange)
    ensures var text := ForIds(ids, range).text;
            var time := TimeConditions(range).text;
            var head := [Open] + TopicListClause(ids).text + [Close];
            && text[..2] == [Preamble, Where]
            && text[2..] == if time == [] then head + [OrderByTime]
                            else head + ([And] + ([Open] + (time + [Close, OrderByTime])))
  {
    hide TopicListClause, TimeConditions;
  }

  lemma ForIdsParses(ids: seq<int>, range: TimeRange)
    ensures ParseQuery(ForIds(ids, range).text) ==
            match TimeCond(range, |ids|)
            case None => Filtered(TopicIn(0, |ids|))
            case Some(c) => Filtered(Both(TopicIn(0, |ids|), c))
  {
    TimeTextIff(range, |ids|);
    ForIdsTextIs(ids, range);
    hide ForIds, ParseTerm, TopicListClause, TimeConditions, TimeCond;
    var time := TimeConditions(range).text;
    assert ForIds(ids, range).text[0] == [Preamble, Where][0] && ForIds(ids, range).text[1] == [Preamble, Where][1];
    if time == [] {
      ListTermParses(ids, [OrderByTime]);
    } else {
      hide ParseConj;
      var bracketed := [Open] + (time + [Close, OrderByTime]);
      ListTermParses(ids, [And] + bracketed);
      TimeTermParses(range, |ids|);
      ConjAfterTerm([Open] + TopicListClause(ids).text + [Close] + ([And] + bracketed), 0, bracketed);
    }
  }

  lemma ForAllParses(range: TimeRange)
    ensures ParseQuery(ForAll(range).text) ==
            match TimeCond(range, 0) case None => Everything case Some(c) => Filtered(c)
  {
    var time := TimeConditions(range);
    if time.text != [] {
      TimeParses(range, [OrderByTime], 0);
      assert ForAll(range).text[2..] == time.text + [OrderByTime];
    }
  }

  /** The statement for a list of ids keeps exactly the rows with one of these
      ids and a time in the range: each placeholder got its own value. */
  lemma ForIdsSelects(ids: seq<int>, range: TimeRange, topicId: int, time: int)
    ensures Selects(ForIds(ids, range), topicId, time) <==> topicId in ids && InRange(range, time)
  {
    ForIdsParses(ids, range);
    var params := ForIds(ids, range).params;
    assert forall i :: 0 <= i < |ids| ==> params[i] == ids[i];
    assert Holds(TopicIn(0, |ids|), params, topicId, time) <==> topicId in ids;
    if TimeCond(range, |ids|).Some? {
      TimeHolds(range, ids, topicId, time);
      assert params == ids + TimeConditions(range).params;
    }
  }

  lemma ForAllSelects(range: TimeRange, topicId: int, time: int)
    ensures Selects(ForAll(range), topicId, time) <==> InRange(range, time)
  {
    ForAllParses(range);
    if TimeCond(range, 0).Some? {
      TimeHolds(range, [], topicId, time);
      assert [] + TimeConditions(range).params == TimeConditions(range).params;
    }
  }

  lemma {:induction false} MarkListMarks(n: nat)
    ensures Marks(MarkList(n)) == n
  {
    if n >= 2 {
      MarkListMarks(n - 1);
      MarksConcat(MarkList(n - 1), [Comma, Mark]);
      assert [Comma, Mark][1..] == [Mark];
    }
  }

  /** As many placeholders as parameters: none is left unbound. */
  lemma MarksMatchParams(ids: seq<int>, range: TimeRange)
    ensures Marks(ForIds(ids, range).text) == |ForIds(ids, range).params|
    ensures Marks(ForAll(range).text) == |ForAll(range).params|
  {
    TimeMarks(range);
    MarkListMarks(|ids|);
    var time, list := TimeConditions(range).text, TopicListClause(ids).text;
    MarksConcat([TopicId, In, Open], MarkList(|ids|));
    MarksConcat([TopicId, In, Open] + MarkList(|ids|), [Close]);
    MarksConcat([Preamble, Where, Open], list);
    MarksConcat([Preamble, Where, Open] + list, [Close, OrderByTime]);
    MarksConcat([Preamble, Where, Open] + list, [Close, And, Open]);
    MarksConcat([Preamble, Where, Open] + list + [Close, And, Open], time);
    MarksConcat([Preamble, Where, Open] + list + [Close, And, Open] + time, [Close, OrderByTime]);
    MarksConcat([Preamble, Where], time);
    MarksConcat([Preamble, Where] + time, [OrderByTime]);
    FixedMarks();
  }

  lemma FixedMarks()
    ensures Marks([TopicId, In, Open]) == Marks([Preamble, Where, Open]) == Marks([Close, And, Open]) == 0
    ensures Marks([Preamble, Where]) == Marks([Close, OrderByTime]) == Marks([Preamble, OrderByTime]) == 0
    ensures Marks([Close]) == Marks([OrderByTime]) == 0
  {
    assert [TopicId, In, Open][1..] == [In, Open] && [In, Open][1..] == [Open];
    assert [Preamble, Where, Open][1..] == [Where, Open] && [Where, Open][1..] == [Open];
    assert [Close, And, Open][1..] == [And, Open] && [And, Open][1..] == [Open];
    assert [Preamble, Where][1..] == [Where] && [Close, OrderByTime][1..] == [OrderByTime];
    assert [Preamble, OrderByTime][1..] == [OrderByTime];
  }

  lemma OneCompareMarks(op: Op)
    ensures Marks([TimeRecv, Cmp(op), Mark]) == 1
  {
    assert [TimeRecv, Cmp(op), Mark][1..] == [Cmp(op), Mark] && [Cmp(op), Mark][1..] == [Mark];
    assert [Mark][1..] == [] && Marks([Mark]) == 1;
    assert Marks([Cmp(op), Mark]) == 1;
  }

  lemma TimeMarks(range: TimeRange)
    ensures Marks(TimeConditions(range).text) == |TimeConditions(range).params|
  {
    var a, b := BeginningCondition(range.beginning).text, EndingCondition(range.ending).text;
    if range.beginning.Instant? {
      OneCompareMarks(BeginningOp(range.beginning));
    }
    if range.ending.Instant? {
      OneCompareMarks(EndingOp(range.ending));
    }
    MarksConcat(a, b);
    MarksConcat([And], b);
    MarksConcat(a, [And] + b);
  }

  // ---- Rows ----

  /** The join keeps a message when it has a topic row, and that row a type. */
  ghost predicate HasTopic(t: Tables, m: MessageRow) {
    exists i :: 0 <= i < |t.topics| && t.topics[i].id == m.topicId && KeyOf(t, t.topics[i]).Some?
  }

  ghost predicate OfTopic(t: Tables, wanted: iset<string>, m: MessageRow) {
    exists i :: 0 <= i < |t.topics| && t.topics[i].id == m.topicId && t.topics[i].name in wanted
  }

  ghost function KeptRows(ms: seq<MessageRow>, keep: iset<MessageRow>): seq<MessageRow> {
    if ms == [] then [] else (if ms[0] in keep then [ms[0]] else []) + KeptRows(ms[1..], keep)
  }

  predicate SortedByTime(ms: seq<MessageRow>) {
    forall i, j :: 0 <= i < j < |ms| ==> ms[i].time <= ms[j].time
  }

  /** SQLite's answer: the kept rows, each once, ordered by time; ties may
      come in any order. */
  ghost predicate Answers(t: Tables, s: Statement, out: seq<MessageRow>) {
    && SortedByTime(out)
    && multiset(out) == multiset(KeptRows(t.messages, iset m | HasTopic(t, m) && Selects(s, m.topicId, m.time)))
  }

  /** What the caller asked for. */
  ghost predicate IsRequested(t: Tables, wanted: iset<string>, range: TimeRange, out: seq<MessageRow>) {
    && SortedByTime(out)
    && multiset(out) == multiset(KeptRows(t.messages, iset m | OfTopic(t, wanted, m) && InRange(range, m.time)))
  }

  lemma IdIsFound(t: Tables, index: NameToMap, id: int, topic: string)
    requires WellFormed(t) && IndexedByTopic(index, ColumnsIn(t)) && IsIdOf(id, index, topic)
    ensures exists i :: 0 <= i < |t.topics| && t.topics[i].id == id && t.topics[i].name == topic
  {
    ColumnsAreTopics(t);
    var typeName :| At(index, topic, typeName) == Some(id);
    assert Lookup(ColumnsIn(t), TopicKey(topic, typeName)) == Some(id);
    var i :| 0 <= i < |t.topics| && KeyOf(t, t.topics[i]) == Some(TopicKey(topic, typeName));
    assert t.topics[i].id == id && t.topics[i].name == topic;
  }

  lemma TopicIsIndexed(t: Tables, index: NameToMap, i: nat)
    requires WellFormed(t) && IndexedByTopic(index, ColumnsIn(t)) && i < |t.topics|
    ensures IsIdOf(t.topics[i].id, index, t.topics[i].name)
  {
    ColumnsAreTopics(t);
    var k := KeyOf(t, t.topics[i]).value;
    assert At(index, k.topic, k.typeName) == Lookup(ColumnsIn(t), k) == Some(t.topics[i].id);
  }

  /** A descriptor that matches the tables turns topic names into exactly the
      ids of their rows. */
  lemma IdsMatchTopics(t: Tables, index: NameToMap, ids: seq<int>, wanted: iset<string>, m: MessageRow)
    requires WellFormed(t) && IndexedByTopic(index, ColumnsIn(t)) && IdsOf(ids, index, wanted)
    ensures m.topicId in ids <==> OfTopic(t, wanted, m)
  {
    if m.topicId in ids {
      var topic :| topic in wanted && IsIdOf(m.topicId, index, topic);
      IdIsFound(t, index, m.topicId, topic);
    }
    if OfTopic(t, wanted, m) {
      var i :| 0 <= i < |t.topics| && t.topics[i].id == m.topicId && t.topics[i].name in wanted;
      TopicIsIndexed(t, index, i);
    }
  }

  lemma ForIdsKeeps(t: Tables, index: NameToMap, ids: seq<int>, wanted: iset<string>, range: TimeRange, m: MessageRow)
    requires WellFormed(t) && IndexedByTopic(index, ColumnsIn(t)) && IdsOf(ids, index, wanted)
    ensures HasTopic(t, m) && Selects(ForIds(ids, range), m.topicId, m.time)
       <==> OfTopic(t, wanted, m) && InRange(range, m.time)
  {
    ForIdsSelects(ids, range, m.topicId, m.time);
    IdsMatchTopics(t, index, ids, wanted, m);
    assert OfTopic(t, wanted, m) ==> HasTopic(t, m) by {
      assert forall i :: 0 <= i < |t.topics| ==> KeyOf(t, t.topics[i]).Some?;
    }
    hide Selects, InRange, WellFormed, IndexedByTopic, IdsOf, ForIds, HasTopic, OfTopic;
  }

  lemma ForIdsAnswers(t: Tables, index: NameToMap, ids: seq<int>, wanted: iset<string>, range: TimeRange)
    requires WellFormed(t) && IndexedByTopic(index, ColumnsIn(t)) && IdsOf(ids, index, wanted)
    ensures forall out :: Answers(t, ForIds(ids, range), out) <==> IsRequested(t, wanted, range, out)
  {
    hide Selects, InRange, WellFormed, IndexedByTopic, IdsOf, ForIds, HasTopic, OfTopic, KeptRows, SortedByTime;
    var s := ForIds(ids, range);
    forall m: MessageRow
      ensures HasTopic(t, m) && Selects(s, m.topicId, m.time) <==> OfTopic(t, wanted, m) && InRange(range, m.time)
    {
      ForIdsKeeps(t, index, ids, wanted, range, m);
    }
    assert (iset m | HasTopic(t, m) && Selects(s, m.topicId, m.time))
        == (iset m | OfTopic(t, wanted, m) && InRange(range, m.time));
  }

  /** AllTopics asks for every topic. */
  lemma ForAllAnswers(t: Tables, range: TimeRange, every: iset<string>)
    requires WellFormed(t) && forall name :: name in every
    ensures forall out :: Answers(t, ForAll(range), out) <==> IsRequested(t, every, range, out)
  {
    forall m: MessageRow
      ensures HasTopic(t, m) && Selects(ForAll(range), m.topicId, m.time)
         <==> OfTopic(t, every, m) && InRange(range, m.time)
    {
      ForAllSelects(range, m.topicId, m.time);
      assert forall i :: 0 <= i < |t.topics| ==> KeyOf(t, t.topics[i]).Some?;
    }
    assert (iset m | HasTopic(t, m) && Selects(ForAll(range), m.topicId, m.time))
        == (iset m | OfTopic(t, every, m) && InRange(range, m.time));
  }

  // ---- Recorded messages ----

  /** The name and type a row of the join shows for a topic id. */
  function KeyOfId(t: Tables, rows: seq<TopicRow>, id: int): Option<TopicKey> {
    if rows == [] then None
    else if rows[0].id == id then KeyOf(t, rows[0])
    else KeyOfId(t, rows[1..], id)
  }

  lemma {:induction false} KeyOfIdIs(t: Tables, rows: seq<TopicRow>, i: nat)
    requires i < |rows| && forall j, k :: 0 <= j < k < |rows| ==> rows[j].id != rows[k].id
    ensures KeyOfId(t, rows, rows[i].id) == KeyOf(t, rows[i])
  {
    if i > 0 {
      KeyOfIdIs(t, rows[1..], i - 1);
    }
  }

  /** The message a row of the answer shows. */
  function Shown(t: Tables, m: MessageRow): Option<Insert> {
    match KeyOfId(t, t.topics, m.topicId)
    case None => None
    case Some(k) => Some(Insert(m.time, k.topic, k.typeName, m.data))
  }

  function AllShown(t: Tables, rows: seq<MessageRow>): seq<Option<Insert>> {
    if rows == [] then [] else [Shown(t, rows[0])] + AllShown(t, rows[1..])
  }

  /** The recorded messages the caller asked for. */
  ghost function Wanted(ms: seq<Insert>, wanted: iset<string>, range: TimeRange): seq<Option<Insert>> {
    if ms == [] then []
    else
      (if ms[0].topic in wanted && InRange(range, ms[0].time) then [Some(ms[0])] else [])
      + Wanted(ms[1..], wanted, range)
  }

  lemma HeldIsShown(t: Tables, row: MessageRow, m: Insert, wanted: iset<string>)
    requires WellFormed(t) && IsRowOf(t, row, m)
    ensures Shown(t, row) == Some(m) && (OfTopic(t, wanted, row) <==> m.topic in wanted)
  {
    var i :| 0 <= i < |t.topics| && t.topics[i].id == row.topicId
             && KeyOf(t, t.topics[i]) == Some(TopicKey(m.topic, m.typeName));
    KeyOfIdIs(t, t.topics, i);
    if OfTopic(t, wanted, row) {
      var j :| 0 <= j < |t.topics| && t.topics[j].id == row.topicId && t.topics[j].name in wanted;
      assert i == j;
    }
  }

  lemma {:induction false} KeptAreWanted(t: Tables, rows: seq<MessageRow>, ms: seq<Insert>, keep: iset<MessageRow>,
                                         wanted: iset<string>, range: TimeRange)
    requires |rows| == |ms|
    requires forall i :: 0 <= i < |rows| ==> Shown(t, rows[i]) == Some(ms[i])
    requires forall i :: 0 <= i < |rows| ==> (rows[i] in keep <==> ms[i].topic in wanted && InRange(range, ms[i].time))
    ensures AllShown(t, KeptRows(rows, keep)) == Wanted(ms, wanted, range)
  {
    if rows != [] {
      hide Shown, InRange;
      assert rows[0] in keep <==> ms[0].topic in wanted && InRange(range, ms[0].time);
      KeptAreWanted(t, rows[1..], ms[1..], keep, wanted, range);
      var rest := KeptRows(rows[1..], keep);
      if rows[0] in keep {
        assert KeptRows(rows, keep) == [rows[0]] + rest;
        assert ([rows[0]] + rest)[1..] == rest;
      } else {
        assert KeptRows(rows, keep) == rest;
      }
    }
  }

  lemma {:induction false} AllShownConcat(t: Tables, a: seq<MessageRow>, b: seq<MessageRow>)
    ensures AllShown(t, a + b) == AllShown(t, a) + AllShown(t, b)
  {
    if a == [] {
      assert a + b == b;
    } else {
      assert (a + b)[1..] == a[1..] + b;
      AllShownConcat(t, a[1..], b);
    }
  }

  /** The same rows in another order show the same messages. */
  lemma {:induction false} SameRowsShowSame(t: Tables, a: seq<MessageRow>, b: seq<MessageRow>)
    requires multiset(a) == multiset(b)
    ensures multiset(AllShown(t, a)) == multiset(AllShown(t, b))
    decreases |a|
  {
    if a == [] {
      assert |multiset(b)| == 0;
      assert b == [];
    } else {
      var x := a[0];
      assert x in multiset(b);
      var i :| 0 <= i < |b| && b[i] == x;
      var rest := b[..i] + b[i + 1..];
      TakeOut(a, b, i);
      SameRowsShowSame(t, a[1..], rest);
      AllShownConcat(t, b[..i], b[i + 1..]);
      AllShownConcat(t, b[..i], b[i..]);
      assert b == b[..i] + b[i..] && b[i..][1..] == b[i + 1..];
      PutBack(Shown(t, x), AllShown(t, a[1..]), AllShown(t, b[..i]), AllShown(t, b[i + 1..]));
      hide Shown, AllShown;
    }
  }

  lemma PutBack(x: Option<Insert>, a: seq<Option<Insert>>, b: seq<Option<Insert>>, c: seq<Option<Insert>>)
    requires multiset(a) == multiset(b + c)
    ensures multiset([x] + a) == multiset(b + ([x] + c))
  {
    assert multiset(b + c) == multiset(b) + multiset(c);
    assert multiset(b + ([x] + c)) == multiset(b) + (multiset{x} + multiset(c));
  }

  lemma TakeOut(a: seq<MessageRow>, b: seq<MessageRow>, i: nat)
    requires multiset(a) == multiset(b) && a != [] && i < |b| && b[i] == a[0]
    ensures multiset(a[1..]) == multiset(b[..i] + b[i + 1..])
  {
    var rest := b[..i] + b[i + 1..];
    assert a == [a[0]] + a[1..];
    assert b == b[..i] + ([b[i]] + b[i + 1..]);
    assert multiset(a) == multiset{a[0]} + multiset(a[1..]);
    assert multiset(b) == multiset(b[..i]) + (multiset{b[i]} + multiset(b[i + 1..]));
    assert multiset(rest) == multiset(b[..i]) + multiset(b[i + 1..]);
    assert multiset(a[1..]) == multiset(a) - multiset{a[0]};
    assert multiset(rest) == multiset(b) - multiset{a[0]};
  }

  /** A log recorded from empty gives back, to a statement of the given
      meaning and whatever the order of ties, exactly the recorded messages of
      the wanted topics in the range, each with its time, topic, type and data,
      ordered by time. */
  lemma QueriesGiveBackMessages(ms: seq<Insert>, sql: Statement, index: NameToMap, wanted: iset<string>,
                                range: TimeRange, out: seq<MessageRow>)
    requires Means(sql, index, wanted, range)
    requires var e := AllInserted(EMPTY, ms); IndexedByTopic(index, ColumnsIn(e)) && Answers(e, sql, out)
    ensures SortedByTime(out)
    ensures multiset(AllShown(AllInserted(EMPTY, ms), out)) == multiset(Wanted(Recorded(ms), wanted, range))
  {
    var e, recorded := AllInserted(EMPTY, ms), Recorded(ms);
    var keep := iset m | OfTopic(e, wanted, m) && InRange(range, m.time);
    InsertsAreRecorded(EMPTY, ms);
    RowsHoldMessages(EMPTY, ms);
    assert IsRequested(e, wanted, range, out);
    hide Means, IsRowOf, IsRowUnder, WellFormed, IndexedByTopic, ColumnsIn, AllInserted, Shown, OfTopic, InRange;
    forall i | 0 <= i < |recorded|
      ensures Shown(e, e.messages[i]) == Some(recorded[i])
      ensures e.messages[i] in keep <==> recorded[i].topic in wanted && InRange(range, recorded[i].time)
    {
      assert IsRowOf(e, e.messages[0 + i], recorded[i]);
      SameTime(e, e.messages[i], recorded[i]);
      HeldIsShown(e, e.messages[i], recorded[i], wanted);
    }
    KeptAreWanted(e, e.messages, recorded, keep, wanted, range);
    SameRowsShowSame(e, out, KeptRows(e.messages, keep));
  }

  lemma SameTime(t: Tables, row: MessageRow, m: Insert)
    requires IsRowOf(t, row, m)
    ensures row.time == m.time
  {
  }

  // ---- The options ----

  ghost predicate Means(sql: Statement, index: NameToMap, wanted: iset<string>, range: TimeRange) {
    forall t :: WellFormed(t) && IndexedByTopic(index, ColumnsIn(t)) ==>
      forall out :: Answers(t, sql, out) <==> IsRequested(t, wanted, range, out)
  }

  /** TopicList::GenerateStatements: for every list of topics (known or not,
      even empty) and every time range. */
  method TopicList(topics: set<string>, range: TimeRange, index: NameToMap) returns (sql: Statement)
    ensures Means(sql, index, (iset name | name in topics), range)
    ensures Marks(sql.text) == |sql.params|
  {
    var ids := TopicListIds(topics, index);
    sql := GenerateForIds(ids, range);
    MarksMatchParams(ids, range);
    forall t | WellFormed(t) && IndexedByTopic(index, ColumnsIn(t))
      ensures forall out :: Answers(t, sql, out) <==> IsRequested(t, (iset name | name in topics), range, out)
    {
      ForIdsAnswers(t, index, ids, (iset name | name in topics), range);
    }
  }

  /** TopicPattern::GenerateStatements, with the pattern as a predicate. */
  method TopicPattern(pattern: string -> bool, range: TimeRange, index: NameToMap) returns (sql: Statement)
    ensures Means(sql, index, (iset name | pattern(name)), range)
    ensures Marks(sql.text) == |sql.params|
  {
    var ids := TopicPatternIds(pattern, index);
    sql := GenerateForIds(ids, range);
    MarksMatchParams(ids, range);
    forall t | WellFormed(t) && IndexedByTopic(index, ColumnsIn(t))
      ensures forall out :: Answers(t, sql, out) <==> IsRequested(t, (iset name | pattern(name)), range, out)
    {
      ForIdsAnswers(t, index, ids, (iset name | pattern(name)), range);
    }
  }
}
