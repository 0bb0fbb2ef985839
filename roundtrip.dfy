/**
  A bag written by the writer and opened by the reader: the document the
  writer produces passes the reader's checks exactly when every format is
  CDR and no compression mode was set, the reader rebuilds the writer's
  connections with their final counts, opens the database the writer
  created, reports a time window covering every message, and hands every
  message to the callback when it reads without bounds.
 */
module RoundTrip {
  import opened Types
  import opened Sqlite
  import opened Paths
  import opened BagMetadata
  import opened Query
  import opened Storage
  import opened BagWriter
  import opened BagReader

  /**
    The reader accepts the writer's document exactly when the writer's
    compression mode is empty and every connection is CDR; a non-empty
    compression mode is the error reported.
   */
  lemma WriterDocumentAccepted(
    conns: seq<TopicConnection>, counts: map<int, I32>, dbpath: Path,
    customData: map<string, string>, compressionFormat: string, compressionMode: string, agg: Aggregates)
    requires HasFileName(dbpath)
    ensures var m := GenerateMetadata(conns, counts, dbpath, customData, compressionFormat, compressionMode, agg);
      CheckMetadata(m).Ok? <==>
        compressionMode == "" && forall i :: 0 <= i < |conns| ==> conns[i].ext.serializationFormat == "cdr"
    ensures var m := GenerateMetadata(conns, counts, dbpath, customData, compressionFormat, compressionMode, agg);
      compressionMode != "" ==> CheckMetadata(m) == Err(UnsupportedCompression(compressionMode))
  {
    var entries := TopicEntries(conns, counts);
    assert forall i :: 0 <= i < |conns| ==>
      entries[i].topicMetadata.serializationFormat == conns[i].ext.serializationFormat;
  }

  /**
    The reader's connections are the writer's, in the same order and with
    the same ids, each carrying its final message count.
   */
  lemma ConnectionsSurvive(conns: seq<TopicConnection>, counts: map<int, I32>)
    requires RegistryValid(conns, counts) && |conns| <= I32_MAX
    ensures var rebuilt := BuildConnections(TopicEntries(conns, counts));
      && |rebuilt| == |conns|
      && forall i :: 0 <= i < |conns| ==>
           conns[i].id in counts && rebuilt[i] == conns[i].(msgcount := counts[conns[i].id])
  {
    var rebuilt := BuildConnections(TopicEntries(conns, counts));
    forall i | 0 <= i < |conns|
      ensures conns[i].id in counts && rebuilt[i] == conns[i].(msgcount := counts[conns[i].id])
    {
      assert conns[i].id == i + 1;
    }
  }

  /**
    The single relative path of the document, joined onto the bag
    directory, is the database the writer created; it passes the table
    check, and its schema row gives version 4.
   */
  lemma WrittenBagOpens(path: Path, db: DbFile, conns: seq<TopicConnection>, counts: map<int, I32>, fs: map<string, DbFile>)
    requires HasFileName(path) && DbMatches(db, conns, counts)
    requires Text(DbPath(path)) in fs && fs[Text(DbPath(path))] == db
    ensures var paths := StoragePaths(path, [FileName(DbPath(path))]);
      && paths == [Text(DbPath(path))]
      && OpenResult(paths, fs, []) == Ok(())
      && OpenedFiles(paths, fs) == [db]
      && DetectSchema(db) == Ok(SCHEMA_VERSION)
  {
    var paths := StoragePaths(path, [FileName(DbPath(path))]);
    assert paths[0] == Text(Join(path, FileName(DbPath(path))));
    RequiredTablesPresent(db);
    assert OpenFile(paths[0], fs).Ok?;
    assert OpenedCount(paths[1..], fs) == 0;
    assert OpenedCount(paths, fs) == 1;
  }

  /**
    On the writer's document the per-topic counts add up to the bag's
    message count.
   */
  lemma DocumentCountsAgree(db: DbFile, conns: seq<TopicConnection>, counts: map<int, I32>)
    requires RegistryValid(conns, counts) && DbMatches(db, conns, counts)
    requires Aggregate(db.messages).Ok?
    ensures EntryTotal(TopicEntries(conns, counts)) == Aggregate(db.messages).value.count
  {
    EntryTotalIsMessageCount(db, conns, counts);
  }

  /**
    A reader over a document carrying the aggregate of `msgs` reports the
    duration max - min + 1, and every message lies in [start_time, end_time).
   */
  lemma ReaderWindowCoversMessages(rd: Reader, msgs: seq<MessageRow>)
    requires Aggregate(msgs).Ok?
    requires rd.metadata.startingTime.nanosecondsSinceEpoch == Aggregate(msgs).value.start
    requires rd.metadata.duration.nanoseconds == Aggregate(msgs).value.duration
    requires rd.metadata.messageCount == Aggregate(msgs).value.count
    requires Aggregate(msgs).value.duration < I64_MAX && MaxTimestamp(msgs) < I64_MAX
    ensures rd.Duration() == MaxTimestamp(msgs) - MinTimestamp(msgs) + 1
    ensures rd.StartTime() == MinTimestamp(msgs) && I64_MIN <= rd.StartTime() + rd.Duration() <= I64_MAX
    ensures forall k :: 0 <= k < |msgs| ==> rd.StartTime() <= msgs[k].timestamp < rd.EndTime()
  {
  }

  /** Every message row of the writer's database is on a topic row, under its connection's topic name. */
  lemma MessageTopicName(db: DbFile, conns: seq<TopicConnection>, counts: map<int, I32>, k: nat)
    requires RegistryValid(conns, counts) && DbMatches(db, conns, counts) && k < |db.messages|
    ensures var id := db.messages[k].topicId;
      1 <= id <= |conns| && NameOf(db.topics, id) == Some(conns[id - 1].topic)
  {
    var id := db.messages[k].topicId;
    assert db.topics[id - 1].id == id;
    var name := NameOf(db.topics, id);
    var j :| 0 <= j < |db.topics| && db.topics[j].id == id && db.topics[j].name == name.value;
    assert conns[j].id == j + 1;
  }

  /** Without bounds, the reader's topic list keeps every message row of the writer's database. */
  lemma MessageKept(db: DbFile, conns: seq<TopicConnection>, counts: map<int, I32>, k: nat)
    requires RegistryValid(conns, counts) && DbMatches(db, conns, counts) && |conns| <= I32_MAX
    requires k < |db.messages|
    ensures Kept(db.topics, db.messages[k], Predicates(BuildConnections(TopicEntries(conns, counts)), None, None))
  {
    var readerConns := BuildConnections(TopicEntries(conns, counts));
    MessageTopicName(db, conns, counts, k);
    var id := db.messages[k].topicId;
    var name := conns[id - 1].topic;
    assert readerConns[id - 1].topic == name;
    PredicatesMeaning(readerConns, None, None, name, db.messages[k].timestamp);
  }

  /**
    Reading the writer's bag without bounds over the reader's connections
    selects every message row, so a correct engine answers with as many rows
    as the document's message count.
   */
  lemma AllMessagesDelivered(db: DbFile, conns: seq<TopicConnection>, counts: map<int, I32>, rows: seq<Row>)
    requires RegistryValid(conns, counts) && DbMatches(db, conns, counts) && |conns| <= I32_MAX
    requires IsAnswer(db, Predicates(BuildConnections(TopicEntries(conns, counts)), None, None), rows)
    ensures |rows| == |db.messages|
    ensures Aggregate(db.messages).Ok? ==> |rows| == Aggregate(db.messages).value.count
  {
    var readerConns := BuildConnections(TopicEntries(conns, counts));
    var ps := Predicates(readerConns, None, None);
    forall k | 0 <= k < |db.messages|
      ensures Kept(db.topics, db.messages[k], ps)
    {
      MessageKept(db, conns, counts, k);
    }
    SelectedAll(db.topics, db.messages, ps);
    AnswerSize(db, ps, rows);
  }

  /** Every timestamp of `msgs` lies in [lo, hi], and the first and the `j`-th attain the bounds. */
  lemma TimestampBounds(msgs: seq<MessageRow>, lo: int, hi: int, j: nat)
    requires j < |msgs| && msgs[0].timestamp == lo && msgs[j].timestamp == hi
    requires forall k :: 0 <= k < |msgs| ==> lo <= msgs[k].timestamp <= hi
    ensures MinTimestamp(msgs) == lo && MaxTimestamp(msgs) == hi
  {
  }

  /** Ten message rows on connection `id` at timestamps 0..9, the k-th carrying the byte 2k + odd. */
  function Burst(id: I32, odd: nat): seq<MessageRow>
    requires odd <= 1
  {
    seq(10, k requires 0 <= k < 10 => MessageRow(id, k, [k * 2 + odd]))
  }

  /** The two bursts span timestamps 0..9 over twenty rows. */
  lemma TwoBurstsAggregate()
    ensures Aggregate(Burst(1, 1) + Burst(2, 0)) == Ok(Aggregates(9, 0, 20))
  {
    var msgs := Burst(1, 1) + Burst(2, 0);
    assert msgs[9].timestamp == 9;
    TimestampBounds(msgs, 0, 9, 9);
  }

  /**
    The state of the test's write loop after `i` writes on `c`: the writer
    is valid and open, the first `i` rows of the burst follow the rows that
    were there before, the counter went up by `i`, and nothing else changed.
   */
  ghost predicate Written(w: Writer, c: TopicConnection, burst: seq<MessageRow>, db: DbFile,
                          before: map<int, I32>, settings: WriterSettings, i: nat)
    reads w
  {
    && i <= |burst|
    && w.Valid() && w.conn && c in w.connections
    && w.disk == Some(db.(messages := db.messages + burst[..i]))
    && c.id in before && before[c.id] + i <= I32_MAX
    && w.counts == before[c.id := before[c.id] + i]
    && SettingsOf(w) == settings
  }

  type WriterSettings = (seq<TopicConnection>, Option<BagFileInfo>, map<string, string>, string, string)

  function SettingsOf(w: Writer): WriterSettings
    reads w
  {
    (w.connections, w.metafile, w.customData, w.compressionMode, w.compressionFormat)
  }

  /** One `write` of the test's loop: the row at timestamp `i` of the burst. */
  method WriteStep(w: Writer, c: TopicConnection, odd: nat, i: nat, ghost burst: seq<MessageRow>,
                   ghost db: DbFile, ghost before: map<int, I32>, ghost settings: WriterSettings)
    requires odd <= 1 && i < 10 && burst == Burst(c.id, odd)
    requires Written(w, c, burst, db, before, settings, i) && before[c.id] + 10 <= I32_MAX
    modifies w
    ensures Written(w, c, burst, db, before, settings, i + 1)
  {
    var written := w.Write(c, i, [i * 2 + odd]);
    assert burst[..i + 1] == burst[..i] + [MessageRow(c.id, i, [i * 2 + odd])];
    AppendAssoc(db.messages, burst[..i], [MessageRow(c.id, i, [i * 2 + odd])]);
  }

  /** The test's write loop: ten `write` calls on one connection. */
  method WriteBurst(w: Writer, c: TopicConnection, odd: nat)
    requires w.Valid() && w.conn && c in w.connections && odd <= 1
    requires c.id in w.counts && w.counts[c.id] + 10 <= I32_MAX
    modifies w
    ensures w.Valid() && w.conn
    ensures w.disk == Some(old(w.disk).value.(messages := old(w.disk).value.messages + Burst(c.id, odd)))
    ensures w.counts == old(w.counts)[c.id := old(w.counts)[c.id] + 10]
    ensures w.connections == old(w.connections) && w.metafile == old(w.metafile)
    ensures w.customData == old(w.customData) && w.compressionMode == old(w.compressionMode)
    ensures w.compressionFormat == old(w.compressionFormat)
  {
    ghost var db := w.disk.value;
    ghost var before := w.counts;
    ghost var burst := Burst(c.id, odd);
    ghost var settings := SettingsOf(w);
    assert db.messages + burst[..0] == db.messages;
    assert before == before[c.id := before[c.id] + 0];
    var i := 0;
    while i < 10
      invariant 0 <= i <= 10 && Written(w, c, burst, db, before, settings, i)
    {
      WriteStep(w, c, odd, i, burst, db, before, settings);
      i := i + 1;
    }
    assert burst[..10] == burst;
  }

  /** The first half of the test's writer session: open a fresh bag and write ten messages on "topic1". */
  method RecordFirstTopic(path: Path) returns (w: Writer)
    requires HasFileName(path)
    ensures fresh(w) && w.Valid() && w.conn && w.path == path
    ensures w.connections == [TopicConnection(1, "topic1", "msgtype1", 0, ConnectionExt("cdr", ""))]
    ensures w.counts == map[1 := 10]
    ensures w.disk.value.messages == Burst(1, 1)
    ensures w.customData == map[] && w.compressionMode == "" && w.compressionFormat == ""
  {
    w := new Writer(path, None);
    var openResult := w.Open();
    assert w.disk == Some(CreatedDb()) && w.connections == [];
    var added := w.AddConnection("topic1", "msgtype1", "cdr", "");
    var c1 := added.value;
    WriteBurst(w, c1, 1);
    assert w.counts == map[1 := 0][1 := 10];
  }

  /** The second half of the test's writer session: register "topic2" and write ten messages on it. */
  method RecordSecondTopic(w: Writer)
    requires w.Valid() && w.conn
    requires w.connections == [TopicConnection(1, "topic1", "msgtype1", 0, ConnectionExt("cdr", ""))]
    requires w.counts == map[1 := 10] && w.disk.value.messages == Burst(1, 1)
    modifies w
    ensures w.Valid() && w.conn
    ensures w.connections == [TopicConnection(1, "topic1", "msgtype1", 0, ConnectionExt("cdr", "")),
                              TopicConnection(2, "topic2", "msgtype2", 0, ConnectionExt("cdr", ""))]
    ensures w.counts == map[1 := 10, 2 := 10]
    ensures w.disk.value.messages == Burst(1, 1) + Burst(2, 0)
    ensures w.metafile == old(w.metafile)
    ensures w.customData == old(w.customData) && w.compressionMode == old(w.compressionMode)
    ensures w.compressionFormat == old(w.compressionFormat)
  {
    var added := w.AddConnection("topic2", "msgtype2", "cdr", "");
    var c2 := added.value;
    WriteBurst(w, c2, 0);
    assert w.counts == map[1 := 10, 2 := 0][2 := 10];
  }

  /**
    The writer side of the reader test: ten messages on "topic1", then ten
    on "topic2", then close.
   */
  method RecordTwoTopics(path: Path) returns (w: Writer)
    requires HasFileName(path)
    ensures fresh(w) && w.Valid() && !w.conn && w.path == path
    ensures w.connections == [TopicConnection(1, "topic1", "msgtype1", 0, ConnectionExt("cdr", "")),
                              TopicConnection(2, "topic2", "msgtype2", 0, ConnectionExt("cdr", ""))]
    ensures w.counts == map[1 := 10, 2 := 10]
    ensures w.disk.Some? && DbMatches(w.disk.value, w.connections, w.counts)
    ensures Aggregate(w.disk.value.messages) == Ok(Aggregates(9, 0, 20))
    ensures w.metafile == Some(BagFileInfo(GenerateMetadata(
      w.connections, w.counts, w.dbpath, map[], "", "", Aggregates(9, 0, 20))))
  {
    w := RecordFirstTopic(path);
    RecordSecondTopic(w);
    TwoBurstsAggregate();
    var closed := w.Close();
  }

  /** The connections the test registers, as the writer holds them. */
  const RECORDED: seq<TopicConnection> := [
    TopicConnection(1, "topic1", "msgtype1", 0, ConnectionExt("cdr", "")),
    TopicConnection(2, "topic2", "msgtype2", 0, ConnectionExt("cdr", ""))]
  /** The writer's counters at the end of the test's session. */
  const RECORDED_COUNTS: map<int, I32> := map[1 := 10, 2 := 10]
  /** The connections the reader rebuilds from the test's document. */
  const REBUILT: seq<TopicConnection> := [
    TopicConnection(1, "topic1", "msgtype1", 10, ConnectionExt("cdr", "")),
    TopicConnection(2, "topic2", "msgtype2", 10, ConnectionExt("cdr", ""))]

  /**
    The session of the reader test: the bag `RecordTwoTopics` leaves, opened
    by `Reader::new`. The reader sees both connections with ten messages
    each, twenty messages in all, starting at 0 and lasting 10 ns; its
    storage holds the single database the writer filled, `db`.
   */
  method TwoTopicSession(path: Path) returns (r: Result<Reader>, db: DbFile)
    requires HasFileName(path)
    ensures r.Ok? && fresh(r.value) && fresh(r.value.storage)
    ensures r.value.connections == REBUILT
    ensures r.value.connections == BuildConnections(TopicEntries(RECORDED, RECORDED_COUNTS))
    ensures r.value.MessageCount() == 20 && r.value.metadata.duration.nanoseconds == 9
    ensures r.value.Duration() == 10 && r.value.StartTime() == 0
    ensures RegistryValid(RECORDED, RECORDED_COUNTS) && DbMatches(db, RECORDED, RECORDED_COUNTS)
    ensures |db.messages| == 20
    ensures r.value.storage.paths == [Text(DbPath(path))] && r.value.storage.dbconns == [db]
  {
    var w := RecordTwoTopics(path);
    db := w.disk.value;
    var doc := w.metafile.value;
    var fs := map[Text(w.dbpath) := db];
    WriterDocumentAccepted(w.connections, w.counts, w.dbpath, map[], "", "", Aggregates(9, 0, 20));
    WrittenBagOpens(path, db, w.connections, w.counts, fs);
    ConnectionsSurvive(w.connections, w.counts);
    r := NewReader(path, doc, fs);
    assert r.value.connections[0] == REBUILT[0] && r.value.connections[1] == REBUILT[1];
  }

  /**
    The rest of the reader test: `handle_messages` without bounds, with a
    callback that records every row and never fails, gets twenty rows.
    `engine` answers the statement it is given correctly.
   */
  method TwoTopicMessages(path: Path, engine: Statement -> seq<Row>)
    returns (delivered: seq<Row>, logged: seq<Error>, r: Result<()>)
    requires HasFileName(path)
    requires forall db :: IsAnswer(db, Predicates(REBUILT, None, None), engine(Statement(db, QueryText(REBUILT, None, None))))
    ensures r == Ok(()) && logged == [] && |delivered| == 20
  {
    var session, db := TwoTopicSession(path);
    var reader := session.value;
    delivered, logged, r := reader.HandleMessages(row => Ok(()), None, None, engine);
    AllMessagesDelivered(db, RECORDED, RECORDED_COUNTS, delivered);
  }

  /**
    `open` on a reader `Reader::new` returned opens the bag's files a second
    time: the storage then holds the database twice, and the next
    `handle_messages` reaches the panic on more than one open database.
   */
  method ReopenedSession(path: Path) returns (reader: Reader, r: Result<()>)
    requires HasFileName(path)
    ensures r == Ok(()) && |reader.storage.dbconns| == 2
    ensures reader.storage.dbconns[0] == reader.storage.dbconns[1]
  {
    var session, db := TwoTopicSession(path);
    reader := session.value;
    var fs := map[Text(DbPath(path)) := db];
    WrittenBagOpens(path, db, RECORDED, RECORDED_COUNTS, fs);
    r := reader.Open(fs);
  }
}
