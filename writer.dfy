/**
  The bag writer (src/writer.rs): creating the database file, registering
  connections, appending messages with per-connection counters, and closing
  the bag, which aggregates the messages and writes the metadata document.
  The file system is two fields of the writer: the database file at `dbpath`
  and the document at `metapath`.
 */
module BagWriter {
  import opened Types
  import opened Sqlite
  import opened Paths
  import opened BagMetadata

  const SCHEMA_VERSION: I32 := 4
  const ROS_DISTRO: string := "rosbags"
  const METADATA_VERSION: I32 := 5
  const STORAGE_IDENTIFIER: string := "sqlite3"
  /** The tables `open` creates. */
  const WRITER_TABLES: set<string> := {"schema", "metadata", "topics", "messages"}
  /** The columns of the `topics` table `open` creates, in order. */
  const TOPIC_COLUMNS: seq<string> := ["id", "name", "type", "serialization_format", "offered_qos_profiles"]

  // ---- Paths ----

  /** `<path>/<name of path>.db3`: the database file sits in the bag directory and is named after it. */
  function DbPath(path: Path): (p: Path)
    requires HasFileName(path)
    ensures HasFileName(p) && FileName(p) == FileName(path) + ".db3"
    ensures Text(p) == Text(path) + "/" + FileName(path) + ".db3"
  {
    var name := FileName(path) + ".db3";
    assert |name| >= 4;
    TextOfJoin(path, name);
    Join(path, name)
  }

  function MetaPath(path: Path): Path {
    Join(path, "metadata.yaml")
  }

  /** The database `open` creates: the four tables and the single schema row. */
  function CreatedDb(): DbFile {
    DbFile(WRITER_TABLES, TOPIC_COLUMNS, [SchemaRow(SCHEMA_VERSION, ROS_DISTRO)], [], [])
  }

  // ---- The connection registry ----

  /** Some registered connection already has this topic and message type. */
  predicate IsRegistered(conns: seq<TopicConnection>, topic: string, msgtype: string) {
    exists i :: 0 <= i < |conns| && conns[i].topic == topic && conns[i].msgtype == msgtype
  }

  /**
    What `add_connection` keeps true: the k-th connection has id k+1 and
    count 0, no (topic, type) pair is registered twice, and there is a
    counter for exactly the ids 1..N, none negative.
   */
  ghost predicate RegistryValid(conns: seq<TopicConnection>, counts: map<int, I32>) {
    && (forall i :: 0 <= i < |conns| ==> conns[i].id == i + 1 && conns[i].msgcount == 0)
    && (forall i, j :: 0 <= i < j < |conns| ==>
          conns[i].topic != conns[j].topic || conns[i].msgtype != conns[j].msgtype)
    && (forall id :: id in counts <==> 1 <= id <= |conns|)
    && (forall id :: id in counts ==> counts[id] >= 0)
  }

  /** A registered connection sits at index `id - 1`, and its counter exists. */
  lemma RegisteredAt(conns: seq<TopicConnection>, counts: map<int, I32>, c: TopicConnection)
    requires RegistryValid(conns, counts) && c in conns
    ensures 1 <= c.id <= |conns| && conns[c.id - 1] == c && c.id in counts
  {
    var i :| 0 <= i < |conns| && conns[i] == c;
    assert conns[i].id == i + 1;
  }

  /** The `topics` row `add_connection` inserts for a connection. */
  function TopicRowOf(c: TopicConnection): TopicRow {
    TopicRow(c.id, c.topic, c.msgtype, c.ext.serializationFormat, c.ext.offeredQosProfiles)
  }

  function TopicRows(conns: seq<TopicConnection>): seq<TopicRow> {
    seq(|conns|, i requires 0 <= i < |conns| => TopicRowOf(conns[i]))
  }

  /**
    The database file agrees with the writer's state: the created tables and
    schema row, one topic row per connection in order, every message on a
    registered connection, and each counter equal to the number of message
    rows on its connection.
   */
  ghost predicate DbMatches(db: DbFile, conns: seq<TopicConnection>, counts: map<int, I32>) {
    && db.tables == WRITER_TABLES
    && db.topicColumns == TOPIC_COLUMNS
    && db.schema == [SchemaRow(SCHEMA_VERSION, ROS_DISTRO)]
    && db.topics == TopicRows(conns)
    && (forall k :: 0 <= k < |db.messages| ==> 1 <= db.messages[k].topicId <= |conns|)
    && (forall id :: id in counts ==> counts[id] == CountOf(db.messages, id))
  }

  // ---- The aggregate `close` reads ----

  /** `(max(timestamp) - min(timestamp), min(timestamp), count(*))` as read into `(i64, i64, i32)`. */
  datatype Aggregates = Aggregates(duration: I64, start: I64, count: I32)

  /** SQL `min(timestamp)`. */
  function MinTimestamp(msgs: seq<MessageRow>): (t: I64)
    requires msgs != []
    ensures forall k :: 0 <= k < |msgs| ==> t <= msgs[k].timestamp
    ensures exists k :: 0 <= k < |msgs| && msgs[k].timestamp == t
  {
    if |msgs| == 1 then msgs[0].timestamp
    else
      var rest := MinTimestamp(msgs[1..]);
      assert forall k :: 1 <= k < |msgs| ==> msgs[k] == msgs[1..][k - 1];
      if msgs[0].timestamp <= rest then msgs[0].timestamp else rest
  }

  /** SQL `max(timestamp)`. */
  function MaxTimestamp(msgs: seq<MessageRow>): (t: I64)
    requires msgs != []
    ensures forall k :: 0 <= k < |msgs| ==> msgs[k].timestamp <= t
    ensures exists k :: 0 <= k < |msgs| && msgs[k].timestamp == t
  {
    if |msgs| == 1 then msgs[0].timestamp
    else
      var rest := MaxTimestamp(msgs[1..]);
      assert forall k :: 1 <= k < |msgs| ==> msgs[k] == msgs[1..][k - 1];
      if msgs[0].timestamp >= rest then msgs[0].timestamp else rest
  }

  /**
    The aggregate query of `close` and its read into Rust integers. It fails
    when there is no message (`min`/`max` are NULL), when the spread does not
    fit an i64 (SQLite turns the overflowing difference into a REAL), and when
    the count does not fit an i32.
   */
  function Aggregate(msgs: seq<MessageRow>): (r: Result<Aggregates>)
    ensures r.Ok? <==>
      msgs != [] && MaxTimestamp(msgs) - MinTimestamp(msgs) <= I64_MAX && |msgs| <= I32_MAX
    ensures r.Err? ==> r.error == AggregateUnreadable
    ensures r.Ok? ==>
      && r.value.count == |msgs|
      && r.value.start == MinTimestamp(msgs)
      && r.value.start + r.value.duration == MaxTimestamp(msgs)
      && (forall k :: 0 <= k < |msgs| ==>
            r.value.start <= msgs[k].timestamp <= r.value.start + r.value.duration)
      && (exists k :: 0 <= k < |msgs| && msgs[k].timestamp == r.value.start)
      && (exists k :: 0 <= k < |msgs| && msgs[k].timestamp == r.value.start + r.value.duration)
  {
    if msgs == [] then Err(AggregateUnreadable)
    else
      var lo, hi := MinTimestamp(msgs), MaxTimestamp(msgs);
      if hi - lo > I64_MAX || |msgs| > I32_MAX then Err(AggregateUnreadable)
      else Ok(Aggregates(hi - lo, lo, |msgs|))
  }

  // ---- The metadata document ----

  /** `*counts.get(&id).unwrap_or(&0)`. */
  function CountOr0(counts: map<int, I32>, id: int): I32 {
    if id in counts then counts[id] else 0
  }

  function TopicEntry(c: TopicConnection, counts: map<int, I32>): TopicWithMessageCount {
    TopicWithMessageCount(
      CountOr0(counts, c.id),
      TopicMetadata(c.topic, c.msgtype, c.ext.serializationFormat, c.ext.offeredQosProfiles))
  }

  /** `topics_with_message_count`: one entry per connection, in registration order. */
  function TopicEntries(conns: seq<TopicConnection>, counts: map<int, I32>): seq<TopicWithMessageCount> {
    seq(|conns|, i requires 0 <= i < |conns| => TopicEntry(conns[i], counts))
  }

  /** `generate_metadata`: the document `close` writes. */
  function GenerateMetadata(
    conns: seq<TopicConnection>, counts: map<int, I32>, dbpath: Path,
    customData: map<string, string>, compressionFormat: string, compressionMode: string,
    agg: Aggregates): Metadata
    requires HasFileName(dbpath)
  {
    Metadata(
      METADATA_VERSION,
      STORAGE_IDENTIFIER,
      [FileName(dbpath)],
      StartingTime(agg.start),
      BagDuration(agg.duration),
      agg.count,
      compressionFormat,
      compressionMode,
      TopicEntries(conns, counts),
      [FileInformation(Text(dbpath), StartingTime(agg.start), BagDuration(agg.duration), agg.count)],
      customData,
      ROS_DISTRO)
  }

  // ---- Counting ----

  /** Sum of the per-topic message counts of the entries. */
  function EntryTotal(entries: seq<TopicWithMessageCount>): int {
    if entries == [] then 0
    else EntryTotal(entries[..|entries| - 1]) + entries[|entries| - 1].messageCount
  }

  /** Number of message rows on the topic ids 1..n. */
  function CountBelow(msgs: seq<MessageRow>, n: nat): nat {
    if n == 0 then 0 else CountBelow(msgs, n - 1) + CountOf(msgs, n)
  }

  /** CountBelow peels off the first message row like CountOf does. */
  lemma {:induction false} CountBelowStep(msgs: seq<MessageRow>, n: nat)
    requires msgs != []
    ensures CountBelow(msgs, n) == (if 1 <= msgs[0].topicId <= n then 1 else 0) + CountBelow(msgs[1..], n)
  {
    if n > 0 {
      CountBelowStep(msgs, n - 1);
    }
  }

  /** When every message is on a topic id in 1..n, the per-id counts add up to all messages. */
  lemma {:induction false} CountBelowAll(msgs: seq<MessageRow>, n: nat)
    requires forall k :: 0 <= k < |msgs| ==> 1 <= msgs[k].topicId <= n
    ensures CountBelow(msgs, n) == |msgs|
  {
    if msgs == [] {
      CountBelowEmpty(n);
    } else {
      CountBelowStep(msgs, n);
      assert forall k :: 0 <= k < |msgs[1..]| ==> msgs[1..][k] == msgs[k + 1];
      CountBelowAll(msgs[1..], n);
    }
  }

  lemma {:induction false} CountBelowEmpty(n: nat)
    ensures CountBelow([], n) == 0
  {
    if n > 0 {
      CountBelowEmpty(n - 1);
    }
  }

  /** The first n entries of the document add up to the messages on topic ids 1..n. */
  lemma {:induction false} EntryTotalPrefix(conns: seq<TopicConnection>, counts: map<int, I32>, msgs: seq<MessageRow>, n: nat)
    requires RegistryValid(conns, counts)
    requires forall id :: id in counts ==> counts[id] == CountOf(msgs, id)
    requires n <= |conns|
    ensures EntryTotal(TopicEntries(conns, counts)[..n]) == CountBelow(msgs, n)
  {
    if n > 0 {
      var entries := TopicEntries(conns, counts);
      assert entries[..n][..n - 1] == entries[..n - 1];
      EntryTotalPrefix(conns, counts, msgs, n - 1);
      assert conns[n - 1].id == n;
    }
  }

  /**
    On a writer whose database matches its state, the per-topic counts of
    the document add up to the number of message rows, which is the total
    the aggregate reports.
   */
  lemma EntryTotalIsMessageCount(db: DbFile, conns: seq<TopicConnection>, counts: map<int, I32>)
    requires RegistryValid(conns, counts) && DbMatches(db, conns, counts)
    ensures EntryTotal(TopicEntries(conns, counts)) == |db.messages|
  {
    var entries := TopicEntries(conns, counts);
    EntryTotalPrefix(conns, counts, db.messages, |conns|);
    assert entries[..|conns|] == entries;
    CountBelowAll(db.messages, |conns|);
  }

  /** `TopicConnection` built by `add_connection` for the next id. */
  function NextConnection(conns: seq<TopicConnection>, topic: string, msgtype: string,
                          serializationFormat: string, offeredQosProfiles: string): TopicConnection
    requires |conns| < I32_MAX
  {
    TopicConnection(|conns| + 1, topic, msgtype, 0, ConnectionExt(serializationFormat, offeredQosProfiles))
  }

  /**
    The connection `add_connection` builds for a (topic, type) pair that is
    not registered yet takes a fresh id; appending it with a counter of 0
    keeps the registry valid and registers the pair.
   */
  lemma NextConnectionRegisters(conns: seq<TopicConnection>, counts: map<int, I32>, topic: string, msgtype: string,
                                serializationFormat: string, offeredQosProfiles: string)
    requires RegistryValid(conns, counts) && |conns| < I32_MAX
    requires !IsRegistered(conns, topic, msgtype)
    ensures var c := NextConnection(conns, topic, msgtype, serializationFormat, offeredQosProfiles);
      && c.id !in counts
      && RegistryValid(conns + [c], counts[c.id := 0])
      && IsRegistered(conns + [c], topic, msgtype)
  {
    var c := NextConnection(conns, topic, msgtype, serializationFormat, offeredQosProfiles);
    var next := conns + [c];
    forall i, j | 0 <= i < j < |next|
      ensures next[i].topic != next[j].topic || next[i].msgtype != next[j].msgtype
    {
      if j == |conns| {
        assert next[i] == conns[i];
      }
    }
    assert next[|conns|] == c;
  }

  /**
    On a database that matches the writer, each topic entry of the document
    carries its connection's topic and type and the number of message rows
    on that connection.
   */
  lemma EntryCounts(db: DbFile, conns: seq<TopicConnection>, counts: map<int, I32>)
    requires RegistryValid(conns, counts) && DbMatches(db, conns, counts)
    ensures var entries := TopicEntries(conns, counts);
      && |entries| == |conns|
      && forall i :: 0 <= i < |conns| ==>
           && entries[i].topicMetadata.name == conns[i].topic
           && entries[i].topicMetadata.typeName == conns[i].msgtype
           && entries[i].messageCount == CountOf(db.messages, i + 1)
  {
    forall i | 0 <= i < |conns|
      ensures TopicEntries(conns, counts)[i].messageCount == CountOf(db.messages, i + 1)
    {
      assert conns[i].id == i + 1 && i + 1 in counts;
    }
  }

  /**
    The document `close` writes for a readable aggregate describes the
    database: its message count is the number of message rows and the sum
    of the per-topic counts, its single file is the database, and every
    message lies in [start, start + duration].
   */
  lemma GeneratedDocument(db: DbFile, conns: seq<TopicConnection>, counts: map<int, I32>, dbpath: Path,
                          customData: map<string, string>, compressionFormat: string, compressionMode: string,
                          agg: Aggregates)
    requires RegistryValid(conns, counts) && DbMatches(db, conns, counts)
    requires HasFileName(dbpath) && Aggregate(db.messages) == Ok(agg)
    ensures var m := GenerateMetadata(conns, counts, dbpath, customData, compressionFormat, compressionMode, agg);
      && m.messageCount == |db.messages|
      && EntryTotal(m.topicsWithMessageCount) == |db.messages|
      && m.relativeFilePaths == [FileName(dbpath)]
      && |m.files| == 1 && m.files[0].path == Text(dbpath) && m.files[0].messageCount == m.messageCount
      && forall k :: 0 <= k < |db.messages| ==>
           m.startingTime.nanosecondsSinceEpoch <= db.messages[k].timestamp
           <= m.startingTime.nanosecondsSinceEpoch + m.duration.nanoseconds
  {
    EntryTotalIsMessageCount(db, conns, counts);
  }

  class Writer {
    const path: Path
    const metapath: Path
    const dbpath: Path
    var connections: seq<TopicConnection>
    var counts: map<int, I32>
    /** Whether `conn: Option<Connection>` holds a connection. */
    var conn: bool
    var customData: map<string, string>
    var compressionMode: string
    var compressionFormat: string
    /** The database file at `dbpath`, if one exists. */
    var disk: Option<DbFile>
    /** The document `close` wrote to `metapath`, if any. */
    var metafile: Option<BagFileInfo>

    ghost predicate Valid()
      reads this
    {
      && HasFileName(path) && dbpath == DbPath(path) && metapath == MetaPath(path)
      && RegistryValid(connections, counts)
      && (disk.None? ==> connections == [] && !conn)
      && (conn ==> disk.Some? && DbMatches(disk.value, connections, counts))
    }

    /**
      `Writer::new`: the paths derived from the bag directory, no connection,
      empty options. `existing` is whatever file already sits at the database
      path. The Rust code panics when `path` has no final name component.
     */
    constructor (path: Path, existing: Option<DbFile>)
      requires HasFileName(path)
      ensures Valid()
      ensures this.path == path && connections == [] && counts == map[] && !conn
      ensures customData == map[] && compressionMode == "" && compressionFormat == ""
      ensures disk == existing && metafile == None
    {
      this.path := path;
      metapath := MetaPath(path);
      dbpath := DbPath(path);
      connections := [];
      counts := map[];
      conn := false;
      customData := map[];
      compressionMode := "";
      compressionFormat := "";
      disk := existing;
      metafile := None;
    }

    /** `open`: refuses an existing database file, otherwise creates the tables and the schema row. */
    method Open() returns (r: Result<()>)
      requires Valid()
      modifies this
      ensures Valid()
      ensures old(disk).Some? ==> r == Err(AlreadyExists(Text(dbpath))) && conn == old(conn) && disk == old(disk)
      ensures old(disk).None? ==> r == Ok(()) && conn && disk == Some(CreatedDb())
      ensures connections == old(connections) && counts == old(counts) && metafile == old(metafile)
      ensures customData == old(customData) && compressionMode == old(compressionMode)
      ensures compressionFormat == old(compressionFormat)
    {
      if disk.Some? {
        return Err(AlreadyExists(Text(dbpath)));
      }
      disk := Some(CreatedDb());
      conn := true;
      return Ok(());
    }

    /**
      `add_connection`: needs an open bag, refuses a second connection with
      the same topic and message type, and otherwise registers the next id
      with a zero counter and inserts its topic row.
     */
    method AddConnection(topic: string, msgtype: string, serializationFormat: string, offeredQosProfiles: string)
      returns (r: Result<TopicConnection>)
      requires Valid()
      requires conn ==> |connections| < I32_MAX
      modifies this
      ensures Valid()
      ensures !old(conn) ==> r == Err(NotOpened) && connections == old(connections) && counts == old(counts) && disk == old(disk)
      ensures old(conn) && IsRegistered(old(connections), topic, msgtype) ==>
        && r == Err(DuplicateConnection(NextConnection(old(connections), topic, msgtype, serializationFormat, offeredQosProfiles)))
        && connections == old(connections) && counts == old(counts) && disk == old(disk)
      ensures old(conn) && !IsRegistered(old(connections), topic, msgtype) ==>
        var c := NextConnection(old(connections), topic, msgtype, serializationFormat, offeredQosProfiles);
        && r == Ok(c)
        && connections == old(connections) + [c]
        && counts == old(counts)[c.id := 0]
        && disk == Some(old(disk).value.(topics := old(disk).value.topics + [TopicRowOf(c)]))
      ensures conn == old(conn) && metafile == old(metafile) && customData == old(customData)
      ensures compressionMode == old(compressionMode) && compressionFormat == old(compressionFormat)
    {
      if !conn {
        return Err(NotOpened);
      }
      var newConnection := NextConnection(connections, topic, msgtype, serializationFormat, offeredQosProfiles);
      if IsRegistered(connections, topic, msgtype) {
        return Err(DuplicateConnection(newConnection));
      }
      var db := disk.value;
      connections := connections + [newConnection];
      counts := counts[newConnection.id := 0];
      disk := Some(db.(topics := db.topics + [TopicRowOf(newConnection)]));
      assert TopicRows(connections) == TopicRows(old(connections)) + [TopicRowOf(newConnection)];
      CountOfAbsent(db.messages, newConnection.id);
      return Ok(newConnection);
    }

    /**
      `write`: needs an open bag and a registered connection (compared on
      every field), then appends the message row and bumps its counter.
     */
    method Write(connection: TopicConnection, timestamp: I64, data: seq<Byte>) returns (r: Result<()>)
      requires Valid()
      requires conn && connection in connections ==> CountOr0(counts, connection.id) < I32_MAX
      modifies this
      ensures Valid()
      ensures !old(conn) ==> r == Err(NotOpened) && counts == old(counts) && disk == old(disk)
      ensures old(conn) && connection !in old(connections) ==>
        r == Err(UnknownConnection(connection)) && counts == old(counts) && disk == old(disk)
      ensures old(conn) && connection in old(connections) ==>
        && r == Ok(())
        && disk == Some(old(disk).value.(messages := old(disk).value.messages + [MessageRow(connection.id, timestamp, data)]))
        && connection.id in old(counts)
        && counts == old(counts)[connection.id := old(counts)[connection.id] + 1]
      ensures connections == old(connections) && conn == old(conn) && metafile == old(metafile)
      ensures customData == old(customData) && compressionMode == old(compressionMode)
      ensures compressionFormat == old(compressionFormat)
    {
      if !conn {
        return Err(NotOpened);
      }
      if connection !in connections {
        return Err(UnknownConnection(connection));
      }
      RegisteredAt(connections, counts, connection);
      var db := disk.value;
      var row := MessageRow(connection.id, timestamp, data);
      disk := Some(db.(messages := db.messages + [row]));
      if connection.id in counts {
        counts := counts[connection.id := counts[connection.id] + 1];
      }
      forall id | id in counts
        ensures counts[id] == CountOf(db.messages + [row], id)
      {
        CountOfAppend(db.messages, [row], id);
        assert [row][1..] == [];
      }
      return Ok(());
    }

    /**
      `close`: with a connection, drops it first, then reads the aggregate;
      when that read fails the error is returned and no document is written,
      otherwise the document is generated and written. Without a connection
      it does nothing.
     */
    method Close() returns (r: Result<()>)
      requires Valid()
      modifies this
      ensures Valid()
      ensures !conn && disk == old(disk)
      ensures !old(conn) ==> r == Ok(()) && metafile == old(metafile)
      ensures old(conn) ==>
        var agg := Aggregate(old(disk).value.messages);
        && (agg.Err? ==> r == Err(agg.error) && metafile == old(metafile))
        && (agg.Ok? ==> r == Ok(()) && metafile == Some(BagFileInfo(GenerateMetadata(
              connections, counts, dbpath, customData, compressionFormat, compressionMode, agg.value))))
      ensures connections == old(connections) && counts == old(counts)
      ensures customData == old(customData) && compressionMode == old(compressionMode)
      ensures compressionFormat == old(compressionFormat)
    {
      if !conn {
        return Ok(());
      }
      var db := disk.value;
      conn := false;
      var agg := Aggregate(db.messages);
      if agg.Err? {
        return Err(agg.error);
      }
      var metadata := GenerateMetadata(connections, counts, dbpath, customData, compressionFormat, compressionMode, agg.value);
      metafile := Some(BagFileInfo(metadata));
      return Ok(());
    }
  }
}
