// The Log object: inserts into the tables, and answers from its caches
// (log/src/Log.cc). SQLite itself never fails here.
module LogService {
  import opened Descriptors
  import opened LogStore

  const UNKNOWN_TIME := -1

  class Log {
    var tables: Tables
    var needNewDescriptor: bool
    const descriptor: Descriptor
    var startTime: int
    var endTime: int
    var inTransaction: bool
    var lastTransaction: int
    const transactionPeriod: nat

    /** Every cache that claims to be current agrees with the tables. */
    ghost predicate Valid()
      reads this, descriptor
    {
      && WellFormed(tables)
      && (!needNewDescriptor ==> descriptor.Describes(ColumnsIn(tables)))
      && (startTime >= 0 ==> startTime == MinTime(tables.messages))
      && (endTime >= 0 ==> endTime == MaxTime(tables.messages))
    }

    /** Open, on an existing file or on the empty schema. */
    constructor (tables: Tables, transactionPeriod: nat)
      requires WellFormed(tables)
      ensures Valid() && this.tables == tables && !inTransaction && fresh(descriptor)
    {
      this.tables := tables;
      this.transactionPeriod := transactionPeriod;
      needNewDescriptor := true;
      descriptor := new Descriptor();
      startTime, endTime := UNKNOWN_TIME, UNKNOWN_TIME;
      inTransaction, lastTransaction := false, 0;
    }

    /** Brings the descriptor up to date. */
    method UpdateDescriptor()
      requires Valid()
      modifies this`needNewDescriptor, descriptor
      ensures Valid() && !needNewDescriptor
    {
      if needNewDescriptor {
        var topicsInLog: Columns := map[];
        for i := 0 to |tables.topics|
          invariant topicsInLog == ColumnsOf(tables, tables.topics[..i])
        {
          assert tables.topics[..i + 1][..i] == tables.topics[..i];
          var row := tables.topics[i];
          var typeName := TypeName(tables.types, row.typeId);
          if typeName.Some? {
            topicsInLog := topicsInLog[TopicKey(row.name, typeName.value) := row.id];
          }
        }
        assert tables.topics[..|tables.topics|] == tables.topics;
        needNewDescriptor := false;
        descriptor.Reset(topicsInLog);
      }
    }

    method InsertOrGetTopicId(name: string, typeName: string) returns (id: int)
      requires Valid()
      modifies this, descriptor
      ensures Valid() && (tables, id) == TopicIdFor(old(tables), name, typeName)
      ensures inTransaction == old(inTransaction) && lastTransaction == old(lastTransaction)
    {
      hide WellFormed, ColumnsIn;
      InsertTopicIs(tables, name, typeName);
      UpdateDescriptor();
      assert descriptor.Describes(ColumnsIn(tables));
      id := descriptor.TopicId(name, typeName);
      if id >= 0 {
        return;
      }
      needNewDescriptor := true;
      startTime, endTime := UNKNOWN_TIME, UNKNOWN_TIME;
      id := NextTopicId(tables.topics);
      tables := WithType(tables, typeName);
      tables := WithTopicRow(tables, name, typeName);
    }

    method InsertRow(time: int, topicId: int, data: string) returns (ok: bool)
      requires Valid()
      modifies this`tables, this`startTime, this`endTime
      ensures Valid() && (ok <==> data != "")
      ensures tables == if data == "" then old(tables) else WithMessage(old(tables), time, topicId, data)
    {
      if data == "" {
        return false;
      }
      MessagesDoNotMatter(tables, time, topicId, data);
      startTime, endTime := UNKNOWN_TIME, UNKNOWN_TIME;
      tables := WithMessage(tables, time, topicId, data);
      ok := true;
    }

    method BeginTransactionIfNotInOne(now: int)
      requires Valid()
      modifies this`inTransaction, this`lastTransaction
      ensures Valid() && inTransaction
      ensures lastTransaction == if old(inTransaction) then old(lastTransaction) else now
    {
      if inTransaction {
        return;
      }
      inTransaction := true;
      lastTransaction := now;
    }

    /** The clock reads `now` throughout the call. */
    method InsertMessage(time: int, topic: string, typeName: string, data: string, now: int) returns (ok: bool)
      requires Valid()
      modifies this, descriptor
      ensures Valid() && tables == Inserted(old(tables), Insert(time, topic, typeName, data))
      ensures ok <==> data != ""
      ensures inTransaction <==> !ok || now - transactionPeriod <= lastTransaction
    {
      hide WellFormed, ColumnsIn, MinTime, MaxTime;
      BeginTransactionIfNotInOne(now);
      var topicId := InsertOrGetTopicId(topic, typeName);
      InsertTopicIs(old(tables), topic, typeName);
      if topicId < 0 {
        assert false;
        return false;
      }
      ok := InsertRow(time, topicId, data);
      if !ok {
        return;
      }
      if now - transactionPeriod > lastTransaction {
        inTransaction := false;
      }
    }

    method StartTime() returns (t: int)
      requires Valid()
      modifies this`startTime
      ensures Valid() && t == MinTime(tables.messages)
    {
      if startTime >= 0 {
        return startTime;
      }
      startTime := MinTime(tables.messages);
      t := startTime;
    }

    method EndTime() returns (t: int)
      requires Valid()
      modifies this`endTime
      ensures Valid() && t == MaxTime(tables.messages)
    {
      if endTime >= 0 {
        return endTime;
      }
      endTime := MaxTime(tables.messages);
      t := endTime;
    }
  }
}
