// Iterating over the rows of a batch of statements (log/src/MsgIter.cc,
// log/src/Batch.cc).
module MessageIterator {
  import opened Options
  import opened LogStore

  /** What a loop sees from the point where the first of `rs` is about to be
      stepped and `message` is the last row seen. */
  function Visits(rs: seq<seq<MessageRow>>, message: Option<MessageRow>): seq<Option<MessageRow>>
    decreases |rs|, if rs == [] then 0 else |rs[0]|
  {
    if rs == [] then []
    else if rs[0] != [] then [Some(rs[0][0])] + Visits([rs[0][1..]] + rs[1..], Some(rs[0][0]))
    else if |rs| == 1 then []
    else [message] + Visits(rs[1..], message)
  }

  class MsgIter {
    /** The rows SQLite returns for each statement. */
    const results: seq<seq<MessageRow>>
    /** The rows left in the current statement; None when there is none. */
    var statement: Option<seq<MessageRow>>
    var statementIndex: nat
    var message: Option<MessageRow>

    ghost predicate Valid()
      reads this
    {
      if statement.Some? then statementIndex < |results| else statementIndex >= |results|
    }

    /** What a loop from here to the end sees, including the present position. */
    ghost function Ahead(): seq<Option<MessageRow>>
      requires Valid()
      reads this
    {
      if statement.None? then []
      else [message] + Visits([statement.value] + results[statementIndex + 1..], message)
    }

    /** begin(): prepare the first statement and step it. */
    constructor (results: seq<seq<MessageRow>>)
      ensures Valid() && this.results == results
      ensures Ahead() == Visits(results, None)
    {
      this.results := results;
      statement, statementIndex, message := None, 0, None;
      new;
      PrepareNextStatement();
      if results != [] {
        assert [results[0]] + results[1..] == results;
      }
      StepStatement();
    }

    method PrepareNextStatement()
      requires statement.None?
      modifies this`statement
      ensures statement == if statementIndex < |results| then Some(results[statementIndex]) else None
    {
      if statementIndex >= |results| {
        return;
      }
      statement := Some(results[statementIndex]);
    }

    /** Moving to the next statement leaves the message as it was. */
    method StepStatement()
      requires Valid()
      modifies this
      ensures Valid()
      ensures old(statement).Some? ==> Ahead() == old(Ahead())[1..]
      ensures old(statement).None? ==> statement.None? && Ahead() == []
    {
      if statement.Some? {
        ghost var rows := statement.value;
        ghost var later := results[statementIndex + 1..];
        assert ([rows] + later)[0] == rows && ([rows] + later)[1..] == later;
        if statement.value != [] {
          message := Some(statement.value[0]);
          statement := Some(statement.value[1..]);
          assert ([rows[1..]] + later)[1..] == later;
        } else {
          statement := None;
          statementIndex := statementIndex + 1;
          PrepareNextStatement();
          if statement.Some? {
            assert later == [statement.value] + results[statementIndex + 1..];
          }
        }
      }
    }

    /** The range-for loop over a batch. */
    method Collect() returns (seen: seq<Option<MessageRow>>)
      requires Valid()
      modifies this
      ensures seen == old(Ahead())
    {
      seen := [];
      ghost var all := Ahead();
      while statement.Some?
        invariant Valid()
        invariant seen + Ahead() == all
        decreases |Ahead()|
      {
        seen := seen + [message];
        StepStatement();
      }
    }
  }

  function AsSeen(rows: seq<MessageRow>): seq<Option<MessageRow>> {
    seq(|rows|, i requires 0 <= i < |rows| => Some(rows[i]))
  }

  /** A batch of one statement, as every query option makes it, is visited row
      by row: all rows, in order, once. */
  lemma {:induction false} OneStatementVisitsAll(rows: seq<MessageRow>, message: Option<MessageRow>)
    ensures Visits([rows], message) == AsSeen(rows)
    decreases |rows|
  {
    if rows != [] {
      OneStatementVisitsAll(rows[1..], Some(rows[0]));
      assert [rows[1..]] + [rows][1..] == [rows[1..]];
      assert AsSeen(rows) == [Some(rows[0])] + AsSeen(rows[1..]);
    }
  }

  /** A batch is visited statement by statement, the rows of each in order;
      before each further statement the last row seen is shown again. */
  lemma {:induction false} VisitsInOrder(rs: seq<seq<MessageRow>>, message: Option<MessageRow>)
    requires rs != []
    ensures var last := if rs[0] == [] then message else Some(rs[0][|rs[0]| - 1]);
            Visits(rs, message) == AsSeen(rs[0]) + if |rs| == 1 then [] else [last] + Visits(rs[1..], last)
    decreases |rs[0]|
  {
    var rows, more := rs[0], rs[1..];
    VisitsStep(rs, message);
    hide Visits;
    if rows == [] {
      assert AsSeen(rows) == [];
    } else {
      var next := [rows[1..]] + more;
      var last := Some(rows[|rows| - 1]);
      var tail := if |rs| == 1 then [] else [last] + Visits(more, last);
      VisitsInOrder(next, Some(rows[0]));
      assert next[1..] == more && next[0] == rows[1..];
      AsSeenCons(rows, tail);
    }
  }

  lemma VisitsStep(rs: seq<seq<MessageRow>>, message: Option<MessageRow>)
    requires rs != []
    ensures Visits(rs, message)
         == if rs[0] != [] then [Some(rs[0][0])] + Visits([rs[0][1..]] + rs[1..], Some(rs[0][0]))
            else if |rs| == 1 then []
            else [message] + Visits(rs[1..], message)
  {
  }

  lemma AsSeenCons(rows: seq<MessageRow>, tail: seq<Option<MessageRow>>)
    requires rows != []
    ensures [Some(rows[0])] + (AsSeen(rows[1..]) + tail) == AsSeen(rows) + tail
  {
    assert AsSeen(rows) == [Some(rows[0])] + AsSeen(rows[1..]);
  }

  function Total(rs: seq<seq<MessageRow>>): nat {
    if rs == [] then 0 else |rs[0]| + Total(rs[1..])
  }

  /** In general a loop makes one extra visit for each statement after the
      first. */
  lemma {:induction false} ExtraVisits(rs: seq<seq<MessageRow>>, message: Option<MessageRow>)
    ensures |Visits(rs, message)| == Total(rs) + if rs == [] then 0 else |rs| - 1
    decreases |rs|, if rs == [] then 0 else |rs[0]|
  {
    if rs != [] {
      if rs[0] != [] {
        var next := [rs[0][1..]] + rs[1..];
        ExtraVisits(next, Some(rs[0][0]));
        assert next[1..] == rs[1..];
      } else {
        ExtraVisits(rs[1..], message);
      }
    }
  }

  /** So a loop sees as many rows as SQLite returned if and only if the batch
      has at most one statement. */
  lemma NoExtraVisitsIff(rs: seq<seq<MessageRow>>)
    ensures |Visits(rs, None)| == Total(rs) <==> |rs| <= 1
  {
    ExtraVisits(rs, None);
  }
}
