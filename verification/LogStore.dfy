// The log file: its tables, and the caches the Log object keeps over them
// (log/src/Log.cc, log/sql/0.1.0.sql).
module LogStore {
  import opened Options
  import opened Descriptors

  datatype TypeRow = TypeRow(id: int, name: string)
  datatype TopicRow = TopicRow(id: int, name: string, typeId: int)
  datatype MessageRow = MessageRow(id: int, time: int, topicId: int, data: string)

  /** The three tables, in row order. */
  datatype Tables = Tables(types: seq<TypeRow>, topics: seq<TopicRow>, messages: seq<MessageRow>)

  const EMPTY := Tables([], [], [])

  // ---- Reading the tables ----

  function TypeName(types: seq<TypeRow>, id: int): Option<string> {
    if types == [] then None
    else if types[0].id == id then Some(types[0].name)
    else TypeName(types[1..], id)
  }

  /** The id of the first type row of that name. */
  function TypeId(types: seq<TypeRow>, name: string): Option<int> {
    if types == [] then None
    else if types[0].name == name then Some(types[0].id)
    else TypeId(types[1..], name)
  }

  /** The row of topics JOIN message_types that a topic gives, if any. */
  function KeyOf(t: Tables, row: TopicRow): Option<TopicKey> {
    match TypeName(t.types, row.typeId)
    case None => None
    case Some(name) => Some(TopicKey(row.name, name))
  }

  /** The ids read by the descriptor's query; a later row overwrites. */
  function ColumnsOf(t: Tables, rows: seq<TopicRow>): Columns {
    if rows == [] then map[]
    else
      var before := ColumnsOf(t, rows[..|rows| - 1]);
      match KeyOf(t, rows[|rows| - 1])
      case None => before
      case Some(k) => before[k := rows[|rows| - 1].id]
  }

  function ColumnsIn(t: Tables): Columns {
    ColumnsOf(t, t.topics)
  }

  /** MIN(time_recv), read as 0 when there is no message. */
  function MinTime(messages: seq<MessageRow>): int {
    if messages == [] then 0
    else if |messages| == 1 then messages[0].time
    else
      var k := |messages| - 1;
      if messages[k].time < MinTime(messages[..k]) then messages[k].time else MinTime(messages[..k])
  }

  function MaxTime(messages: seq<MessageRow>): int {
    if messages == [] then 0
    else if |messages| == 1 then messages[0].time
    else
      var k := |messages| - 1;
      if messages[k].time > MaxTime(messages[..k]) then messages[k].time else MaxTime(messages[..k])
  }

  lemma {:induction false} MinTimeIs(messages: seq<MessageRow>)
    requires messages != []
    ensures forall i :: 0 <= i < |messages| ==> MinTime(messages) <= messages[i].time <= MaxTime(messages)
    ensures exists i :: 0 <= i < |messages| && messages[i].time == MinTime(messages)
    ensures exists i :: 0 <= i < |messages| && messages[i].time == MaxTime(messages)
  {
    if |messages| == 1 {
      assert messages[0].time == MinTime(messages) == MaxTime(messages);
    } else {
      var k := |messages| - 1;
      MinTimeIs(messages[..k]);
      var i :| 0 <= i < k && messages[..k][i].time == MinTime(messages[..k]);
      var j :| 0 <= j < k && messages[..k][j].time == MaxTime(messages[..k]);
      assert messages[i].time == MinTime(messages[..k]) && messages[j].time == MaxTime(messages[..k]);
      assert forall n :: 0 <= n < k ==> messages[n] == messages[..k][n];
      assert messages[k].time == messages[|messages| - 1].time;
    }
  }

  // ---- Well-formed tables ----

  /** The next id of an AUTOINCREMENT column. */
  function NextTypeId(rows: seq<TypeRow>): int {
    if rows == [] then 1
    else if rows[|rows| - 1].id < NextTypeId(rows[..|rows| - 1]) then NextTypeId(rows[..|rows| - 1])
    else rows[|rows| - 1].id + 1
  }

  function NextTopicId(rows: seq<TopicRow>): int {
    if rows == [] then 1
    else if rows[|rows| - 1].id < NextTopicId(rows[..|rows| - 1]) then NextTopicId(rows[..|rows| - 1])
    else rows[|rows| - 1].id + 1
  }

  function NextMessageId(rows: seq<MessageRow>): int {
    if rows == [] then 1
    else if rows[|rows| - 1].id < NextMessageId(rows[..|rows| - 1]) then NextMessageId(rows[..|rows| - 1])
    else rows[|rows| - 1].id + 1
  }

  lemma {:induction false} NextTypeIdIsFresh(rows: seq<TypeRow>)
    ensures NextTypeId(rows) >= 1 && forall i :: 0 <= i < |rows| ==> rows[i].id < NextTypeId(rows)
  {
    if rows != [] {
      var k := |rows| - 1;
      NextTypeIdIsFresh(rows[..k]);
      assert forall i :: 0 <= i < k ==> rows[i] == rows[..k][i];
    }
  }

  lemma {:induction false} NextTopicIdIsFresh(rows: seq<TopicRow>)
    ensures NextTopicId(rows) >= 1 && forall i :: 0 <= i < |rows| ==> rows[i].id < NextTopicId(rows)
  {
    if rows != [] {
      var k := |rows| - 1;
      NextTopicIdIsFresh(rows[..k]);
      assert forall i :: 0 <= i < k ==> rows[i] == rows[..k][i];
    }
  }

  ghost predicate DistinctTypes(t: Tables) {
    forall i, j :: 0 <= i < j < |t.types| ==> t.types[i].id != t.types[j].id
  }

  /** Ids are unique, every topic has its type, and no two topics agree on
      both names. */
  ghost predicate WellFormed(t: Tables) {
    && DistinctTypes(t)
    && (forall i :: 0 <= i < |t.topics| ==> KeyOf(t, t.topics[i]).Some? && t.topics[i].id >= 1)
    && (forall i, j :: 0 <= i < j < |t.topics| ==> t.topics[i].id != t.topics[j].id)
    && (forall i, j :: 0 <= i < j < |t.topics| ==> KeyOf(t, t.topics[i]) != KeyOf(t, t.topics[j]))
  }

  lemma {:induction false} ColumnsOfPrefix(t: Tables, k: nat)
    requires WellFormed(t) && k <= |t.topics|
    ensures forall i :: 0 <= i < k ==>
              KeyOf(t, t.topics[i]).value in ColumnsOf(t, t.topics[..k])
              && ColumnsOf(t, t.topics[..k])[KeyOf(t, t.topics[i]).value] == t.topics[i].id
    ensures forall key :: key in ColumnsOf(t, t.topics[..k]) ==>
              exists i :: 0 <= i < k && KeyOf(t, t.topics[i]) == Some(key)
  {
    if k > 0 {
      hide KeyOf, DistinctTypes;
      ColumnsOfPrefix(t, k - 1);
      var rows := t.topics[..k];
      assert rows[..k - 1] == t.topics[..k - 1] && rows[k - 1] == t.topics[k - 1];
      assert KeyOf(t, t.topics[k - 1]).Some?;
    }
  }

  /** The descriptor's query names every topic row once, with its own id. */
  lemma ColumnsAreTopics(t: Tables)
    requires WellFormed(t)
    ensures forall i :: 0 <= i < |t.topics| ==>
              KeyOf(t, t.topics[i]).value in ColumnsIn(t)
              && ColumnsIn(t)[KeyOf(t, t.topics[i]).value] == t.topics[i].id
    ensures forall key :: key in ColumnsIn(t) ==> exists i :: 0 <= i < |t.topics| && KeyOf(t, t.topics[i]) == Some(key)
  {
    ColumnsOfPrefix(t, |t.topics|);
    assert t.topics[..|t.topics|] == t.topics;
  }

  // ---- Inserting ----

  /** INSERT OR IGNORE INTO message_types: the name column is not unique, so
      there is nothing to ignore and a row is always added. */
  function WithType(t: Tables, name: string): Tables {
    t.(types := t.types + [TypeRow(NextTypeId(t.types), name)])
  }

  /** INSERT INTO topics ... SELECT ... LIMIT 1. */
  function WithTopicRow(t: Tables, name: string, typeName: string): Tables {
    match TypeId(t.types, typeName)
    case None => t
    case Some(id) => t.(topics := t.topics + [TopicRow(NextTopicId(t.topics), name, id)])
  }

  /** InsertOrGetTopicId on the tables: the tables after it, and the id. */
  function TopicIdFor(t: Tables, name: string, typeName: string): (Tables, int) {
    var k := TopicKey(name, typeName);
    if k in ColumnsIn(t) then (t, ColumnsIn(t)[k])
    else (WithTopicRow(WithType(t, typeName), name, typeName), NextTopicId(t.topics))
  }

  function WithMessage(t: Tables, time: int, topicId: int, data: string): Tables {
    t.(messages := t.messages + [MessageRow(NextMessageId(t.messages), time, topicId, data)])
  }

  lemma {:induction false} TypeNameOfFirst(types: seq<TypeRow>, name: string)
    requires forall i, j :: 0 <= i < j < |types| ==> types[i].id != types[j].id
    requires exists i :: 0 <= i < |types| && types[i].name == name
    ensures TypeId(types, name).Some? && TypeName(types, TypeId(types, name).value) == Some(name)
  {
    if types[0].name != name {
      var i :| 0 <= i < |types| && types[i].name == name;
      assert types[1..][i - 1].name == name;
      TypeNameOfFirst(types[1..], name);
      TypeIdIsInside(types[1..], name);
    }
  }

  lemma {:induction false} TypeIdIsInside(types: seq<TypeRow>, name: string)
    requires TypeId(types, name).Some?
    ensures exists i :: 0 <= i < |types| && types[i].id == TypeId(types, name).value && types[i].name == name
  {
    if types[0].name != name {
      TypeIdIsInside(types[1..], name);
      var i :| 0 <= i < |types[1..]| && types[1..][i].id == TypeId(types, name).value && types[1..][i].name == name;
      assert types[i + 1].id == TypeId(types, name).value;
    }
  }

  /** Appending a type changes the name of no known id. */
  lemma {:induction false} AppendKeepsNames(types: seq<TypeRow>, row: TypeRow, id: int)
    ensures TypeName(types, id).Some? ==> TypeName(types + [row], id) == TypeName(types, id)
  {
    if types != [] {
      AppendKeepsNames(types[1..], row, id);
      assert (types + [row])[1..] == types[1..] + [row];
    }
  }

  ghost predicate SameKeys(t: Tables, t': Tables) {
    forall i :: 0 <= i < |t.topics| ==> KeyOf(t', t.topics[i]) == KeyOf(t, t.topics[i])
  }

  lemma AppendTopicColumns(t: Tables, t': Tables, row: TopicRow, k: TopicKey)
    requires t'.topics == t.topics + [row] && SameKeys(t, t') && KeyOf(t', row) == Some(k)
    ensures ColumnsIn(t') == ColumnsIn(t)[k := row.id]
  {
    var n := |t.topics|;
    assert forall i :: 0 <= i < n ==> t'.topics[i] == t.topics[i];
    SameKeysSameColumns(t, t', n);
    assert t'.topics[..n] == t.topics[..n] == t.topics;
    assert t'.topics[n] == row;
  }

  lemma AppendTopicWellFormed(t: Tables, t': Tables, row: TopicRow, k: TopicKey)
    requires WellFormed(t) && DistinctTypes(t')
    requires t'.topics == t.topics + [row] && SameKeys(t, t') && KeyOf(t', row) == Some(k)
    requires forall i :: 0 <= i < |t.topics| ==> KeyOf(t, t.topics[i]) != Some(k)
    requires row.id >= 1 && forall i :: 0 <= i < |t.topics| ==> t.topics[i].id < row.id
    ensures WellFormed(t')
  {
    forall i | 0 <= i < |t'.topics|
      ensures KeyOf(t', t'.topics[i]) == if i < |t.topics| then KeyOf(t, t.topics[i]) else Some(k)
    {
      if i < |t.topics| {
        assert t'.topics[i] == t.topics[i];
      }
    }
  }

  /** Inserting keeps every row and every key, adds exactly the new key, and
      the tables stay well formed: no (name, type) pair gets a second row. */
  lemma InsertTopicIs(t: Tables, name: string, typeName: string)
    requires WellFormed(t)
    ensures var (t', id) := TopicIdFor(t, name, typeName);
            var k := TopicKey(name, typeName);
            && WellFormed(t') && t'.messages == t.messages
            && ColumnsIn(t') == (if k in ColumnsIn(t) then ColumnsIn(t) else ColumnsIn(t)[k := id])
            && ColumnsIn(t')[k] == id && id >= 1
            && |t'.topics| == |t.topics| + (if k in ColumnsIn(t) then 0 else 1)
  {
    var k := TopicKey(name, typeName);
    if k in ColumnsIn(t) {
      ColumnsAreTopics(t);
    } else {
      var t1 := WithType(t, typeName);
      NextTypeIdIsFresh(t.types);
      NextTopicIdIsFresh(t.topics);
      assert t1.types[|t.types|].name == typeName;
      assert DistinctTypes(t1);
      TypeNameOfFirst(t1.types, typeName);
      var t2 := WithTopicRow(t1, name, typeName);
      forall i | 0 <= i < |t.topics|
        ensures KeyOf(t2, t.topics[i]) == KeyOf(t, t.topics[i])
      {
        AppendKeepsNames(t.types, t1.types[|t.types|], t.topics[i].typeId);
      }
      ColumnsAreTopics(t);
      AppendTopicColumns(t, t2, t2.topics[|t.topics|], k);
      AppendTopicWellFormed(t, t2, t2.topics[|t.topics|], k);
    }
  }

  lemma {:induction false} SameKeysSameColumns(a: Tables, b: Tables, k: nat)
    requires k <= |a.topics| && k <= |b.topics|
    requires forall i :: 0 <= i < k ==> a.topics[i] == b.topics[i] && KeyOf(a, a.topics[i]) == KeyOf(b, b.topics[i])
    ensures ColumnsOf(a, a.topics[..k]) == ColumnsOf(b, b.topics[..k])
  {
    if k > 0 {
      SameKeysSameColumns(a, b, k - 1);
      assert a.topics[..k][..k - 1] == a.topics[..k - 1];
      assert b.topics[..k][..k - 1] == b.topics[..k - 1];
    }
  }

  /** Whether every type name is stored once. */
  ghost predicate TypesUnique(t: Tables) {
    forall i, j :: 0 <= i < j < |t.types| ==> t.types[i].name != t.types[j].name
  }

  /** The type rows are not deduplicated: a new topic keeps the type names
      unique if and only if no earlier topic brought its type. */
  lemma TypesStayUniqueIff(t: Tables, name: string, typeName: string)
    requires TypesUnique(t) && TopicKey(name, typeName) !in ColumnsIn(t)
    ensures TypesUnique(TopicIdFor(t, name, typeName).0)
       <==> forall i :: 0 <= i < |t.types| ==> t.types[i].name != typeName
  {
    var t' := TopicIdFor(t, name, typeName).0;
    assert t'.types == t.types + [TypeRow(NextTypeId(t.types), typeName)];
    if i :| 0 <= i < |t.types| && t.types[i].name == typeName {
      assert t'.types[i].name == t'.types[|t.types|].name;
    }
  }

  // ---- Whole runs ----

  datatype Insert = Insert(time: int, topic: string, typeName: string, data: string)

  /** Log::InsertMessage on the tables: an empty message is refused, but only
      after its topic was stored. */
  function Inserted(t: Tables, m: Insert): Tables {
    var (t', id) := TopicIdFor(t, m.topic, m.typeName);
    if m.data == "" then t' else WithMessage(t', m.time, id, m.data)
  }

  function AllInserted(t: Tables, ms: seq<Insert>): Tables {
    if ms == [] then t else Inserted(AllInserted(t, ms[..|ms| - 1]), ms[|ms| - 1])
  }

  lemma MessagesDoNotMatter(t: Tables, time: int, topicId: int, data: string)
    ensures ColumnsIn(WithMessage(t, time, topicId, data)) == ColumnsIn(t)
    ensures WellFormed(t) ==> WellFormed(WithMessage(t, time, topicId, data))
  {
    var t' := WithMessage(t, time, topicId, data);
    forall i | 0 <= i < |t.topics|
      ensures KeyOf(t', t.topics[i]) == KeyOf(t, t.topics[i])
    {
    }
    SameKeysSameColumns(t, t', |t.topics|);
    assert t.topics[..|t.topics|] == t.topics;
  }

  /** Every pair of `before` still has its id. */
  ghost predicate Keeps(before: Columns, after: Columns) {
    forall k :: k in before ==> k in after && after[k] == before[k]
  }

  lemma KeepsItself(a: Columns)
    ensures Keeps(a, a)
  {
  }

  lemma KeepsTwice(a: Columns, b: Columns, c: Columns)
    requires Keeps(a, b) && Keeps(b, c)
    ensures Keeps(a, c)
  {
  }

  lemma KeepsKey(a: Columns, b: Columns, k: TopicKey)
    requires Keeps(a, b) && k in a
    ensures k in b
  {
  }

  lemma InsertedColumns(t: Tables, m: Insert)
    requires WellFormed(t)
    ensures WellFormed(Inserted(t, m))
    ensures TopicKey(m.topic, m.typeName) in ColumnsIn(Inserted(t, m))
    ensures Keeps(ColumnsIn(t), ColumnsIn(Inserted(t, m)))
  {
    hide ColumnsIn, WellFormed, TopicIdFor, WithMessage;
    var (t', id) := TopicIdFor(t, m.topic, m.typeName);
    InsertTopicIs(t, m.topic, m.typeName);
    MessagesDoNotMatter(t', m.time, id, m.data);
  }

  /** An id, once given, is given forever: over any sequence of inserts, every
      (name, type) pair keeps its first id, and no pair ever has two rows. */
  lemma {:induction false} IdsAreStable(t: Tables, ms: seq<Insert>)
    requires WellFormed(t)
    ensures WellFormed(AllInserted(t, ms))
    ensures Keeps(ColumnsIn(t), ColumnsIn(AllInserted(t, ms)))
    ensures forall i :: 0 <= i < |ms| ==> TopicKey(ms[i].topic, ms[i].typeName) in ColumnsIn(AllInserted(t, ms))
  {
    hide ColumnsIn, WellFormed, Inserted, Keeps;
    KeepsItself(ColumnsIn(t));
    if ms != [] {
      var k := |ms| - 1;
      IdsAreStable(t, ms[..k]);
      var before := AllInserted(t, ms[..k]);
      InsertedColumns(before, ms[k]);
      KeepsTwice(ColumnsIn(t), ColumnsIn(before), ColumnsIn(AllInserted(t, ms)));
      forall i | 0 <= i < k
        ensures TopicKey(ms[i].topic, ms[i].typeName) in ColumnsIn(AllInserted(t, ms))
      {
        assert ms[i] == ms[..k][i];
        KeepsKey(ColumnsIn(before), ColumnsIn(AllInserted(t, ms)), TopicKey(ms[i].topic, ms[i].typeName));
      }
    }
  }

  // ---- What is recorded ----

  /** The inserts that get a message row: an empty message is refused. */
  function Recorded(ms: seq<Insert>): seq<Insert> {
    if ms == [] then []
    else
      var k := |ms| - 1;
      Recorded(ms[..k]) + if ms[k].data == "" then [] else [ms[k]]
  }

  /** The row holds the message, and names its topic and type. */
  ghost predicate IsRowOf(t: Tables, row: MessageRow, m: Insert) {
    && row.time == m.time && row.data == m.data
    && exists i :: 0 <= i < |t.topics| && t.topics[i].id == row.topicId
                   && KeyOf(t, t.topics[i]) == Some(TopicKey(m.topic, m.typeName))
  }

  ghost predicate IsRowUnder(cols: Columns, row: MessageRow, m: Insert) {
    && row.time == m.time && row.data == m.data
    && TopicKey(m.topic, m.typeName) in cols && cols[TopicKey(m.topic, m.typeName)] == row.topicId
  }

  lemma RowUnderIsRowOf(t: Tables, row: MessageRow, m: Insert)
    requires WellFormed(t) && IsRowUnder(ColumnsIn(t), row, m)
    ensures IsRowOf(t, row, m)
  {
    ColumnsAreTopics(t);
    var key := TopicKey(m.topic, m.typeName);
    var i :| 0 <= i < |t.topics| && KeyOf(t, t.topics[i]) == Some(key);
    assert ColumnsIn(t)[KeyOf(t, t.topics[i]).value] == t.topics[i].id;
  }

  lemma StaysRow(before: Columns, after: Columns, row: MessageRow, m: Insert)
    requires Keeps(before, after) && IsRowUnder(before, row, m)
    ensures IsRowUnder(after, row, m)
  {
  }

  lemma {:induction false} NextMessageIdIsFresh(rows: seq<MessageRow>)
    ensures NextMessageId(rows) >= 1 && forall i :: 0 <= i < |rows| ==> rows[i].id < NextMessageId(rows)
  {
    if rows != [] {
      var k := |rows| - 1;
      NextMessageIdIsFresh(rows[..k]);
      assert forall i :: 0 <= i < k ==> rows[i] == rows[..k][i];
    }
  }

  /** One insert adds at most one message row, with a new id. */
  lemma InsertedRow(t: Tables, m: Insert)
    requires WellFormed(t)
    ensures var t' := Inserted(t, m);
            && |t'.messages| == |t.messages| + (if m.data == "" then 0 else 1) && t.messages <= t'.messages
            && (m.data != "" ==> IsRowUnder(ColumnsIn(t'), t'.messages[|t.messages|], m))
            && (m.data != "" ==> forall i :: 0 <= i < |t.messages| ==> t.messages[i].id < t'.messages[|t.messages|].id)
  {
    hide ColumnsIn, WellFormed, TopicIdFor, NextMessageId;
    var (t', id) := TopicIdFor(t, m.topic, m.typeName);
    InsertTopicIs(t, m.topic, m.typeName);
    MessagesDoNotMatter(t', m.time, id, m.data);
    NextMessageIdIsFresh(t.messages);
  }

  /** Over any sequence of inserts, the added message rows are the recorded
      messages, in order, each with its own time, data, topic and type. */
  lemma {:induction false} InsertsAreRecorded(t: Tables, ms: seq<Insert>)
    requires WellFormed(t)
    ensures var e, n := AllInserted(t, ms), |t.messages|;
            && WellFormed(e) && t.messages <= e.messages && |e.messages| == n + |Recorded(ms)|
            && forall i :: 0 <= i < |Recorded(ms)| ==> IsRowUnder(ColumnsIn(e), e.messages[n + i], Recorded(ms)[i])
  {
    hide ColumnsIn, WellFormed, Inserted, IsRowUnder;
    if ms != [] {
      var k := |ms| - 1;
      var before, e, n := AllInserted(t, ms[..k]), AllInserted(t, ms), |t.messages|;
      InsertsAreRecorded(t, ms[..k]);
      InsertedRow(before, ms[k]);
      InsertedColumns(before, ms[k]);
      forall i | 0 <= i < |Recorded(ms)|
        ensures IsRowUnder(ColumnsIn(e), e.messages[n + i], Recorded(ms)[i])
      {
        if i < |Recorded(ms[..k])| {
          assert e.messages[n + i] == before.messages[n + i] && Recorded(ms)[i] == Recorded(ms[..k])[i];
          StaysRow(ColumnsIn(before), ColumnsIn(e), e.messages[n + i], Recorded(ms)[i]);
        }
      }
    }
  }

  /** The same, read off the topic and type tables. */
  lemma RowsHoldMessages(t: Tables, ms: seq<Insert>)
    requires WellFormed(t)
    ensures var e, n := AllInserted(t, ms), |t.messages|;
            && t.messages <= e.messages && |e.messages| == n + |Recorded(ms)|
            && forall i :: 0 <= i < |Recorded(ms)| ==> IsRowOf(e, e.messages[n + i], Recorded(ms)[i])
  {
    InsertsAreRecorded(t, ms);
    hide WellFormed, IsRowUnder, IsRowOf, ColumnsIn, AllInserted, Recorded;
    AllRowsHold(AllInserted(t, ms), |t.messages|, Recorded(ms));
  }

  lemma AllRowsHold(t: Tables, n: nat, ms: seq<Insert>)
    requires WellFormed(t) && n + |ms| <= |t.messages|
    requires forall i :: 0 <= i < |ms| ==> IsRowUnder(ColumnsIn(t), t.messages[n + i], ms[i])
    ensures forall i :: 0 <= i < |ms| ==> IsRowOf(t, t.messages[n + i], ms[i])
  {
    hide WellFormed, IsRowUnder, IsRowOf, ColumnsIn;
    forall i | 0 <= i < |ms|
      ensures IsRowOf(t, t.messages[n + i], ms[i])
    {
      RowUnderIsRowOf(t, t.messages[n + i], ms[i]);
    }
  }

  /** Message ids grow. */
  lemma {:induction false} MessageIdsGrow(t: Tables, ms: seq<Insert>)
    requires WellFormed(t) && forall i, j :: 0 <= i < j < |t.messages| ==> t.messages[i].id < t.messages[j].id
    ensures var e := AllInserted(t, ms).messages; forall i, j :: 0 <= i < j < |e| ==> e[i].id < e[j].id
  {
    if ms != [] {
      var k := |ms| - 1;
      MessageIdsGrow(t, ms[..k]);
      IdsAreStable(t, ms[..k]);
      InsertedRow(AllInserted(t, ms[..k]), ms[k]);
      hide Inserted, WellFormed, IsRowUnder, ColumnsIn, Keeps;
    }
  }

  /** Asking twice gives the same id and stores nothing the second time. */
  lemma SecondAskChangesNothing(t: Tables, ms: seq<Insert>, name: string, typeName: string)
    requires WellFormed(t)
    ensures var (t1, id) := TopicIdFor(t, name, typeName);
            TopicIdFor(AllInserted(t1, ms), name, typeName) == (AllInserted(t1, ms), id)
  {
    InsertTopicIs(t, name, typeName);
    IdsAreStable(TopicIdFor(t, name, typeName).0, ms);
  }
}
