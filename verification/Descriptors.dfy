// The descriptor of a log file: topic ids indexed by topic and then message
// type, and the other way round (log/src/Descriptor.cc).
module Descriptors {
  import opened Options

  datatype TopicKey = TopicKey(topic: string, typeName: string)

  type Columns = map<TopicKey, int>
  type NameToMap = map<string, map<string, int>>

  function At(m: NameToMap, a: string, b: string): Option<int> {
    if a in m && b in m[a] then Some(m[a][b]) else None
  }

  function Lookup(columns: Columns, k: TopicKey): Option<int> {
    if k in columns then Some(columns[k]) else None
  }

  function Put(m: NameToMap, a: string, b: string, id: int): NameToMap {
    m[a := (if a in m then m[a] else map[])[b := id]]
  }

  ghost predicate IndexedByTopic(m: NameToMap, columns: Columns) {
    && (forall a :: a in m ==> exists b :: b in m[a])
    && (forall a, b :: At(m, a, b) == Lookup(columns, TopicKey(a, b)))
  }

  ghost predicate IndexedByType(m: NameToMap, columns: Columns) {
    && (forall a :: a in m ==> exists b :: b in m[a])
    && (forall a, b :: At(m, b, a) == Lookup(columns, TopicKey(a, b)))
  }

  lemma PutByTopic(m: NameToMap, columns: Columns, k: TopicKey, id: int)
    requires IndexedByTopic(m, columns)
    ensures IndexedByTopic(Put(m, k.topic, k.typeName, id), columns[k := id])
  {
    var m' := Put(m, k.topic, k.typeName, id);
    assert k.typeName in m'[k.topic];
    forall a, b
      ensures At(m', a, b) == Lookup(columns[k := id], TopicKey(a, b))
    {
      assert At(m, a, b) == Lookup(columns, TopicKey(a, b));
    }
  }

  lemma PutByType(m: NameToMap, columns: Columns, k: TopicKey, id: int)
    requires IndexedByType(m, columns)
    ensures IndexedByType(Put(m, k.typeName, k.topic, id), columns[k := id])
  {
    var m' := Put(m, k.typeName, k.topic, id);
    assert k.topic in m'[k.typeName];
    forall a, b
      ensures At(m', b, a) == Lookup(columns[k := id], TopicKey(a, b))
    {
      assert At(m, b, a) == Lookup(columns, TopicKey(a, b));
    }
  }

  /** The two indexes hold the same ids under swapped keys. */
  lemma IndexesAreTransposed(byTopic: NameToMap, byType: NameToMap, columns: Columns)
    requires IndexedByTopic(byTopic, columns) && IndexedByType(byType, columns)
    ensures forall a, b :: At(byTopic, a, b) == At(byType, b, a)
  {
    forall a, b
      ensures At(byTopic, a, b) == At(byType, b, a)
    {
      assert At(byTopic, a, b) == Lookup(columns, TopicKey(a, b)) == At(byType, b, a);
    }
  }

  lemma OneMore(columns: Columns, todo: set<TopicKey>, key: TopicKey)
    requires key in todo && todo <= columns.Keys
    ensures columns - (todo - {key}) == (columns - todo)[key := columns[key]]
  {
  }

  class Descriptor {
    var topicsToMsgTypesToId: NameToMap
    var msgTypesToTopicsToId: NameToMap

    ghost predicate Describes(columns: Columns)
      reads this
    {
      IndexedByTopic(topicsToMsgTypesToId, columns) && IndexedByType(msgTypesToTopicsToId, columns)
    }

    constructor ()
      ensures Describes(map[])
    {
      topicsToMsgTypesToId, msgTypesToTopicsToId := map[], map[];
    }

    method Add(ghost done: Columns, key: TopicKey, id: int)
      requires Describes(done)
      modifies this
      ensures Describes(done[key := id])
    {
      PutByTopic(topicsToMsgTypesToId, done, key, id);
      PutByType(msgTypesToTopicsToId, done, key, id);
      topicsToMsgTypesToId := Put(topicsToMsgTypesToId, key.topic, key.typeName, id);
      msgTypesToTopicsToId := Put(msgTypesToTopicsToId, key.typeName, key.topic, id);
    }

    method Reset(columns: Columns)
      modifies this
      ensures Describes(columns)
    {
      topicsToMsgTypesToId, msgTypesToTopicsToId := map[], map[];
      var todo := columns.Keys;
      ghost var done: Columns := map[];
      while todo != {}
        invariant todo <= columns.Keys && done == columns - todo
        invariant Describes(done)
        decreases |todo|
      {
        var key :| key in todo;
        Add(done, key, columns[key]);
        OneMore(columns, todo, key);
        done := done[key := columns[key]];
        todo := todo - {key};
      }
      assert done == columns;
    }

    /** The id of the pair, or -1. */
    method TopicId(topicName: string, msgType: string) returns (id: int)
      ensures forall columns :: Describes(columns) ==>
                id == if TopicKey(topicName, msgType) in columns then columns[TopicKey(topicName, msgType)] else -1
    {
      assert forall columns :: Describes(columns) ==>
          At(topicsToMsgTypesToId, topicName, msgType) == Lookup(columns, TopicKey(topicName, msgType));
      if topicName !in topicsToMsgTypesToId {
        return -1;
      }
      if msgType !in topicsToMsgTypesToId[topicName] {
        return -1;
      }
      id := topicsToMsgTypesToId[topicName][msgType];
    }
  }
}
