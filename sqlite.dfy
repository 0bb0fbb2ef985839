/**
  An SQLite database file, seen as the rows of the tables the bag format
  uses and the table catalog the read path probes. The engine itself (SQL
  parsing, transactions, `PRAGMA optimize`) is not modelled.
 */
module Sqlite {
  import opened Types

  /** A row of `schema(schema_version, ros_distro)`. */
  datatype SchemaRow = SchemaRow(schemaVersion: I32, rosDistro: string)

  /** A row of `topics(id, name, type, serialization_format, offered_qos_profiles)`. */
  datatype TopicRow = TopicRow(
    id: I64,
    name: string,
    typeName: string,
    serializationFormat: string,
    offeredQosProfiles: string)

  /** A row of `messages(id, topic_id, timestamp, data)`; `id` is the row's position. */
  datatype MessageRow = MessageRow(topicId: I64, timestamp: I64, data: seq<Byte>)

  /**
    A database file: the names of its tables (`sqlite_master`), the column
    names of its `topics` table (`PRAGMA table_info(topics)`), and the rows of
    the `schema`, `topics` and `messages` tables in insertion order.
   */
  datatype DbFile = DbFile(
    tables: set<string>,
    topicColumns: seq<string>,
    schema: seq<SchemaRow>,
    topics: seq<TopicRow>,
    messages: seq<MessageRow>)

  /** Number of message rows that reference topic `id`. */
  function CountOf(msgs: seq<MessageRow>, id: int): nat {
    if msgs == [] then 0
    else (if msgs[0].topicId == id then 1 else 0) + CountOf(msgs[1..], id)
  }

  /** CountOf distributes over appending rows. */
  lemma {:induction false} CountOfAppend(a: seq<MessageRow>, b: seq<MessageRow>, id: int)
    ensures CountOf(a + b, id) == CountOf(a, id) + CountOf(b, id)
  {
    if a == [] {
      assert a + b == b;
    } else {
      assert (a + b)[0] == a[0];
      assert (a + b)[1..] == a[1..] + b;
      CountOfAppend(a[1..], b, id);
    }
  }

  /** No row references `id`, so its count is zero. */
  lemma {:induction false} CountOfAbsent(msgs: seq<MessageRow>, id: int)
    requires forall k :: 0 <= k < |msgs| ==> msgs[k].topicId != id
    ensures CountOf(msgs, id) == 0
  {
    if msgs != [] {
      assert forall k :: 0 <= k < |msgs[1..]| ==> msgs[1..][k] == msgs[k + 1];
      CountOfAbsent(msgs[1..], id);
    }
  }

  /** The name of the topic row with primary key `id`, if there is one. */
  function NameOf(topics: seq<TopicRow>, id: int): (r: Option<string>)
    ensures r.Some? <==> exists k :: 0 <= k < |topics| && topics[k].id == id
    ensures r.Some? ==> exists k :: 0 <= k < |topics| && topics[k].id == id && topics[k].name == r.value
  {
    if topics == [] then None
    else if topics[0].id == id then Some(topics[0].name)
    else
      var r := NameOf(topics[1..], id);
      assert forall k :: 1 <= k < |topics| ==> topics[k] == topics[1..][k - 1];
      r
  }
}
