// The query generators (log/src/QueryOptions.cc) and the meaning of the
// statements they produce.
module Queries {
  import opened Options
  import opened Descriptors
  import opened LogStore
  import opened QueryText

  datatype QualifiedTime = Indeterminate | Instant(time: int, inclusive: bool)

  datatype TimeRange = TimeRange(beginning: QualifiedTime, ending: QualifiedTime)

  // ---- What a time range means ----

  predicate InRange(range: TimeRange, time: int) {
    && (match range.beginning
        case Indeterminate => true
        case Instant(t, inclusive) => if inclusive then t <= time else t < time)
    && (match range.ending
        case Indeterminate => true
        case Instant(t, inclusive) => if inclusive then time <= t else time < t)
  }

  // ---- The generators ----

  /** The text of the id list, after "topic_id in (". */
  function MarkList(n: nat): seq<Token> {
    if n == 0 then [] else if n == 1 then [Mark] else MarkList(n - 1) + [Comma, Mark]
  }

  function TopicListClause(ids: seq<int>): Statement {
    Statement([TopicId, In, Open] + MarkList(|ids|) + [Close], ids)
  }

  method AppendTopicListClause(sql: Statement, ids: seq<int>) returns (result: Statement)
    ensures result == Append(sql, TopicListClause(ids))
  {
    result := sql.(text := sql.text + [TopicId, In, Open]);
    var first := true;
    for i := 0 to |ids|
      invariant first <==> i == 0
      invariant result.text == sql.text + ([TopicId, In, Open] + MarkList(i))
      invariant result.params == sql.params + ids[..i]
    {
      if first {
        result := result.(text := result.text + [Mark]);
        first := false;
      } else {
        result := result.(text := result.text + [Comma, Mark]);
      }
      result := result.(params := result.params + [ids[i]]);
    }
    result := result.(text := result.text + [Close]);
    assert ids[..|ids|] == ids;
    assert result.text == sql.text + ([TopicId, In, Open] + MarkList(|ids|) + [Close]);
  }

  function BeginningCondition(t: QualifiedTime): Statement {
    match t
    case Indeterminate => Statement([], [])
    case Instant(time, inclusive) => Statement([TimeRecv, Cmp(if inclusive then GE else GT), Mark], [time])
  }

  function EndingCondition(t: QualifiedTime): Statement {
    match t
    case Indeterminate => Statement([], [])
    case Instant(time, inclusive) => Statement([TimeRecv, Cmp(if inclusive then LE else LT), Mark], [time])
  }

  function TimeConditions(range: TimeRange): Statement {
    var a, b := BeginningCondition(range.beginning), EndingCondition(range.ending);
    if a.text != [] && b.text != [] then Append(a, Append(Statement([And], []), b)) else Append(a, b)
  }

  method GenerateTimeConditions(range: TimeRange) returns (sql: Statement)
    ensures sql == TimeConditions(range)
  {
    sql := Statement([], []);
    if range.beginning.Indeterminate? && range.ending.Indeterminate? {
      return;
    }
    var startCompare, finishCompare: Option<Op> := None, None;
    if range.beginning.Instant? {
      startCompare := Some(if range.beginning.inclusive then GE else GT);
    }
    if range.ending.Instant? {
      finishCompare := Some(if range.ending.inclusive then LE else LT);
    }
    if startCompare.Some? {
      sql := Statement(sql.text + [TimeRecv, Cmp(startCompare.value), Mark], sql.params + [range.beginning.time]);
      if finishCompare.Some? {
        sql := sql.(text := sql.text + [And]);
      }
    }
    if finishCompare.Some? {
      sql := Statement(sql.text + [TimeRecv, Cmp(finishCompare.value), Mark], sql.params + [range.ending.time]);
    }
  }

  /** TopicList and TopicPattern, once the ids are known. */
  function ForIds(ids: seq<int>, range: TimeRange): Statement {
    var list := TopicListClause(ids);
    var time := TimeConditions(range);
    if time.text == [] then
      Statement([Preamble, Where, Open] + list.text + [Close, OrderByTime], ids)
    else
      Statement([Preamble, Where, Open] + list.text + [Close, And, Open] + time.text + [Close, OrderByTime],
                ids + time.params)
  }

  function ForAll(range: TimeRange): Statement {
    var time := TimeConditions(range);
    if time.text == [] then Statement([Preamble, OrderByTime], [])
    else Statement([Preamble, Where] + time.text + [OrderByTime], time.params)
  }

  method WithTimeAndClose(sql: Statement, range: TimeRange) returns (result: Statement)
    ensures var time := TimeConditions(range);
            result == if time.text == [] then Append(sql, Statement([OrderByTime], []))
                      else Append(sql, Statement([And, Open] + time.text + [Close, OrderByTime], time.params))
  {
    result := sql;
    var timeCondition := GenerateTimeConditions(range);
    if timeCondition.text != [] {
      result := result.(text := result.text + [And, Open]);
      result := Append(result, timeCondition);
      result := result.(text := result.text + [Close]);
      assert result.text + [OrderByTime] == sql.text + ([And, Open] + timeCondition.text + [Close, OrderByTime]);
    }
    result := Append(result, Statement([OrderByTime], []));
  }

  method GenerateForIds(ids: seq<int>, range: TimeRange) returns (sql: Statement)
    ensures sql == ForIds(ids, range)
  {
    sql := Statement([Preamble, Where, Open], []);
    sql := AppendTopicListClause(sql, ids);
    sql := sql.(text := sql.text + [Close]);
    sql := WithTimeAndClose(sql, range);
    var list, time := TopicListClause(ids), TimeConditions(range);
    if time.text == [] {
      assert sql.text == [Preamble, Where, Open] + list.text + [Close, OrderByTime];
    } else {
      assert sql.text == [Preamble, Where, Open] + list.text + [Close, And, Open] + time.text + [Close, OrderByTime];
    }
  }

  /** AllTopics::GenerateStatements. */
  method AllTopics(range: TimeRange) returns (sql: Statement)
    ensures sql == ForAll(range)
  {
    sql := Statement([Preamble], []);
    var timeCondition := GenerateTimeConditions(range);
    if timeCondition.text != [] {
      sql := sql.(text := sql.text + [Where]);
      sql := Append(sql, timeCondition);
      assert sql.text + [OrderByTime] == [Preamble, Where] + timeCondition.text + [OrderByTime];
    }
    sql := Append(sql, Statement([OrderByTime], []));
  }

  /** Some row of the topic has this id. */
  ghost predicate IsIdOf(id: int, index: NameToMap, topic: string) {
    exists typeName :: At(index, topic, typeName) == Some(id)
  }

  /** The ids of all rows of the wanted topics. */
  ghost predicate IdsOf(ids: seq<int>, index: NameToMap, wanted: iset<string>) {
    forall id :: id in ids <==> exists topic :: topic in wanted && IsIdOf(id, index, topic)
  }

  method IdsOfTopic(index: NameToMap, topic: string) returns (ids: seq<int>)
    requires topic in index
    ensures forall id :: id in ids <==> IsIdOf(id, index, topic)
  {
    ids := [];
    var todo := index[topic].Keys;
    while todo != {}
      invariant todo <= index[topic].Keys
      invariant forall id :: id in ids ==> IsIdOf(id, index, topic)
      invariant forall typeName :: typeName in index[topic] && typeName !in todo ==> index[topic][typeName] in ids
      decreases |todo|
    {
      var typeName :| typeName in todo;
      assert At(index, topic, typeName) == Some(index[topic][typeName]);
      ids := ids + [index[topic][typeName]];
      todo := todo - {typeName};
    }
  }

  /** TopicList: the named topics that the log knows. */
  method TopicListIds(topics: set<string>, index: NameToMap) returns (ids: seq<int>)
    ensures IdsOf(ids, index, iset t | t in topics)
  {
    ids := [];
    var todo := topics;
    while todo != {}
      invariant todo <= topics
      invariant IdsOf(ids, index, (iset t | t in topics && t !in todo))
      decreases |todo|
    {
      var topic :| topic in todo;
      var more := [];
      if topic in index {
        more := IdsOfTopic(index, topic);
      }
      MoreIds(ids, more, index, (iset t | t in topics && t !in todo), topic);
      assert (iset t | t in topics && t !in todo - {topic}) == (iset t | t in topics && t !in todo) + iset{topic};
      ids := ids + more;
      todo := todo - {topic};
    }
    assert (iset t | t in topics && t !in todo) == (iset t | t in topics);
  }

  /** TopicPattern: the topics of the log that match. */
  method TopicPatternIds(pattern: string -> bool, index: NameToMap) returns (ids: seq<int>)
    ensures IdsOf(ids, index, iset t | pattern(t))
  {
    ids := [];
    var todo := index.Keys;
    while todo != {}
      invariant todo <= index.Keys
      invariant IdsOf(ids, index, iset t | pattern(t) && t !in todo)
      decreases |todo|
    {
      var topic :| topic in todo;
      var more := [];
      ghost var before := iset t | pattern(t) && t !in todo;
      ghost var after := iset t | pattern(t) && t !in todo - {topic};
      if pattern(topic) {
        more := IdsOfTopic(index, topic);
        MoreIds(ids, more, index, before, topic);
        assert after == before + iset{topic};
      } else {
        assert after == before && ids + more == ids;
      }
      ids := ids + more;
      todo := todo - {topic};
    }
    assert (iset t | pattern(t) && t !in todo) == (iset t | pattern(t));
  }

  lemma MoreIds(ids: seq<int>, more: seq<int>, index: NameToMap, wanted: iset<string>, topic: string)
    requires IdsOf(ids, index, wanted)
    requires forall id :: id in more <==> IsIdOf(id, index, topic)
    ensures IdsOf(ids + more, index, wanted + iset{topic})
  {
    forall id
      ensures id in ids + more <==> exists t :: t in wanted + iset{topic} && IsIdOf(id, index, t)
    {
      if id in ids {
        var t :| t in wanted && IsIdOf(id, index, t);
        assert t in wanted + iset{topic};
      }
      if id in more {
        assert topic in wanted + iset{topic} && IsIdOf(id, index, topic);
      }
    }
  }
}
