/**
  The bag reader (src/reader.rs): validating the metadata document,
  deriving the connections and the storage paths from it, opening the
  storage, the accessors, and message handling over the storage's
  statement.
 */
module BagReader {
  import opened Types
  import opened Sqlite
  import opened Paths
  import opened BagMetadata
  import opened Query
  import opened Storage

  // ---- Validation ----

  /** `find(|t| t.topic_metadata.serialization_format != "cdr")`, as the index of the first such entry. */
  function FirstNonCdr(topics: seq<TopicWithMessageCount>): (r: Option<nat>)
    ensures r.None? <==> forall i :: 0 <= i < |topics| ==> topics[i].topicMetadata.serializationFormat == "cdr"
    ensures r.Some? ==>
      && r.value < |topics|
      && topics[r.value].topicMetadata.serializationFormat != "cdr"
      && forall i :: 0 <= i < r.value ==> topics[i].topicMetadata.serializationFormat == "cdr"
  {
    if topics == [] then None
    else if topics[0].topicMetadata.serializationFormat != "cdr" then Some(0)
    else
      var rest := FirstNonCdr(topics[1..]);
      assert forall i :: 1 <= i < |topics| ==> topics[i] == topics[1..][i - 1];
      match rest
      case None => None
      case Some(k) => Some(k + 1)
  }

  /**
    The checks of `Reader::new`, in order: the version must be at most 5,
    the compression mode empty, every serialization format "cdr", and the
    storage identifier "sqlite3".
   */
  function CheckMetadata(m: Metadata): (r: Result<()>)
    ensures r.Ok? <==>
      && m.version <= 5
      && m.compressionMode == ""
      && (forall i :: 0 <= i < |m.topicsWithMessageCount| ==>
            m.topicsWithMessageCount[i].topicMetadata.serializationFormat == "cdr")
      && m.storageIdentifier == "sqlite3"
    ensures m.version > 5 ==> r == Err(UnsupportedVersion(m.version))
    ensures m.version <= 5 && m.compressionMode != "" ==> r == Err(UnsupportedCompression(m.compressionMode))
    ensures forall i ::
              && 0 <= i < |m.topicsWithMessageCount| && m.version <= 5 && m.compressionMode == ""
              && m.topicsWithMessageCount[i].topicMetadata.serializationFormat != "cdr"
              && (forall j :: 0 <= j < i ==> m.topicsWithMessageCount[j].topicMetadata.serializationFormat == "cdr")
              ==> r == Err(UnsupportedSerialization(m.topicsWithMessageCount[i].topicMetadata.serializationFormat))
    ensures && m.version <= 5 && m.compressionMode == "" && m.storageIdentifier != "sqlite3"
            && (forall i :: 0 <= i < |m.topicsWithMessageCount| ==>
                  m.topicsWithMessageCount[i].topicMetadata.serializationFormat == "cdr")
            ==> r == Err(UnsupportedStorage(m.storageIdentifier))
    ensures r.Err? && r.error.UnsupportedSerialization? ==>
      exists i :: 0 <= i < |m.topicsWithMessageCount| &&
        m.topicsWithMessageCount[i].topicMetadata.serializationFormat == r.error.format != "cdr"
    ensures r.Err? && r.error.UnsupportedStorage? ==> r.error.identifier == m.storageIdentifier != "sqlite3"
  {
    if m.version > 5 then Err(UnsupportedVersion(m.version))
    else if m.compressionMode != "" then Err(UnsupportedCompression(m.compressionMode))
    else
      match FirstNonCdr(m.topicsWithMessageCount)
      case Some(i) => Err(UnsupportedSerialization(m.topicsWithMessageCount[i].topicMetadata.serializationFormat))
      case None =>
        if m.storageIdentifier != "sqlite3" then Err(UnsupportedStorage(m.storageIdentifier)) else Ok(())
  }

  /** The connections `Reader::new` builds: the k-th topic entry becomes connection k+1 with its count. */
  function BuildConnections(topics: seq<TopicWithMessageCount>): (r: seq<TopicConnection>)
    requires |topics| <= I32_MAX
    ensures |r| == |topics|
    ensures forall i :: 0 <= i < |r| ==> r[i].id == i + 1
    ensures forall i :: 0 <= i < |r| ==>
      TopicWithMessageCount(r[i].msgcount,
        TopicMetadata(r[i].topic, r[i].msgtype, r[i].ext.serializationFormat, r[i].ext.offeredQosProfiles))
      == topics[i]
  {
    seq(|topics|, i requires 0 <= i < |topics| =>
      TopicConnection(
        i + 1,
        topics[i].topicMetadata.name,
        topics[i].topicMetadata.typeName,
        topics[i].messageCount,
        ConnectionExt(topics[i].topicMetadata.serializationFormat, topics[i].topicMetadata.offeredQosProfiles)))
  }

  /** Every relative file path joined onto the bag directory and rendered. */
  function StoragePaths(dir: Path, rels: seq<string>): seq<string> {
    seq(|rels|, i requires 0 <= i < |rels| => Text(Join(dir, rels[i])))
  }

  /** Under a non-empty directory, each storage path is the directory's text, "/", and the relative path. */
  lemma StoragePathsText(dir: Path, rels: seq<string>)
    requires |dir.parts| > 0
    ensures |StoragePaths(dir, rels)| == |rels|
    ensures forall i :: 0 <= i < |rels| ==> StoragePaths(dir, rels)[i] == Text(dir) + "/" + rels[i]
  {
    forall i | 0 <= i < |rels|
      ensures StoragePaths(dir, rels)[i] == Text(dir) + "/" + rels[i]
    {
      TextOfJoin(dir, rels[i]);
    }
  }

  // ---- Accessor helpers ----

  /** ASCII lower-casing. */
  function Lower(s: string): string {
    seq(|s|, i requires 0 <= i < |s| => if 'A' <= s[i] <= 'Z' then (s[i] as int + 32) as char else s[i])
  }

  /**
    `topics()`: a map from topic name to a `TopicInfo` holding one
    connection. Collecting into the map lets a later connection with the
    same topic name replace an earlier one.
   */
  function TopicsOf(conns: seq<TopicConnection>): map<string, TopicInfo> {
    if conns == [] then map[]
    else
      var last := conns[|conns| - 1];
      TopicsOf(conns[..|conns| - 1])[last.topic := TopicInfo(last.msgtype, last.msgcount, [last])]
  }

  /** The map has exactly one key per distinct topic name. */
  lemma {:induction false} TopicsOfKeys(conns: seq<TopicConnection>)
    ensures TopicsOf(conns).Keys == set i | 0 <= i < |conns| :: conns[i].topic
  {
    if conns != [] {
      var init := conns[..|conns| - 1];
      TopicsOfKeys(init);
      assert forall i :: 0 <= i < |init| ==> init[i] == conns[i];
      assert (set i | 0 <= i < |conns| :: conns[i].topic)
        == (set i | 0 <= i < |init| :: init[i].topic) + {conns[|conns| - 1].topic};
    }
  }

  /** A topic maps to the info of the last connection with that name. */
  lemma {:induction false} TopicsOfLastWins(conns: seq<TopicConnection>, i: nat)
    requires i < |conns|
    requires forall j :: i < j < |conns| ==> conns[j].topic != conns[i].topic
    ensures conns[i].topic in TopicsOf(conns)
    ensures TopicsOf(conns)[conns[i].topic] == TopicInfo(conns[i].msgtype, conns[i].msgcount, [conns[i]])
  {
    var init := conns[..|conns| - 1];
    if i < |conns| - 1 {
      assert init[i] == conns[i];
      assert forall j :: i < j < |init| ==> init[j] == conns[j];
      TopicsOfLastWins(init, i);
    }
  }

  class Reader {
    const metadata: Metadata
    const connections: seq<TopicConnection>
    const storage: Sqlite3Reader

    constructor (metadata: Metadata, connections: seq<TopicConnection>, storage: Sqlite3Reader)
      ensures this.metadata == metadata && this.connections == connections && this.storage == storage
    {
      this.metadata := metadata;
      this.connections := connections;
      this.storage := storage;
    }

    function MessageCount(): I32 {
      metadata.messageCount
    }

    /** The stored duration plus one for a non-empty bag, else 0; the +1 overflows on `i64::MAX`. */
    function Duration(): I64
      requires MessageCount() > 0 ==> metadata.duration.nanoseconds < I64_MAX
    {
      if MessageCount() > 0 then metadata.duration.nanoseconds + 1 else 0
    }

    /** The stored start for a non-empty bag, else `i64::MAX`. */
    function StartTime(): I64 {
      if MessageCount() > 0 then metadata.startingTime.nanosecondsSinceEpoch else I64_MAX
    }

    /** Start plus duration; the sum overflows unless it fits an i64. */
    function EndTime(): I64
      requires MessageCount() > 0 ==> metadata.duration.nanoseconds < I64_MAX
      requires I64_MIN <= StartTime() + Duration() <= I64_MAX
    {
      StartTime() + Duration()
    }

    function CompressionFormat(): string {
      metadata.compressionFormat
    }

    /** The lower-cased mode, unless it is "none". */
    function CompressionMode(): Option<string> {
      var mode := Lower(metadata.compressionMode);
      if mode != "none" then Some(mode) else None
    }

    /** `topics()`: keyed by exactly the connections' topic names, each mapping to the last connection with that name. */
    function Topics(): (t: map<string, TopicInfo>)
      ensures t.Keys == set i | 0 <= i < |connections| :: connections[i].topic
      ensures forall i ::
                && 0 <= i < |connections|
                && (forall j :: i < j < |connections| ==> connections[j].topic != connections[i].topic)
                ==> && connections[i].topic in t
                    && t[connections[i].topic] == TopicInfo(connections[i].msgtype, connections[i].msgcount, [connections[i]])
    {
      TopicsOfKeys(connections);
      assert forall i ::
               && 0 <= i < |connections|
               && (forall j :: i < j < |connections| ==> connections[j].topic != connections[i].topic)
               ==> && connections[i].topic in TopicsOf(connections)
                   && TopicsOf(connections)[connections[i].topic]
                      == TopicInfo(connections[i].msgtype, connections[i].msgcount, [connections[i]])
      by {
        forall i | 0 <= i < |connections| && (forall j :: i < j < |connections| ==> connections[j].topic != connections[i].topic) {
          TopicsOfLastWins(connections, i);
        }
      }
      TopicsOf(connections)
    }

    function RosDistro(): string {
      metadata.rosDistro
    }

    /** `open`: opens the storage's paths again. */
    method Open(fs: map<string, DbFile>) returns (r: Result<()>)
      modifies storage
      ensures r == OpenResult(storage.paths, fs, old(storage.dbconns))
      ensures storage.dbconns == old(storage.dbconns) + OpenedFiles(storage.paths[..OpenedCount(storage.paths, fs)], fs)
    {
      r := storage.Open(fs);
    }

    /**
      `handle_messages`: builds the statement for the reader's connections
      and the bounds, has `engine` evaluate it, and hands every row to the
      handler. `engine` is the SQLite engine answering a prepared statement.
     */
    method HandleMessages(handler: Row -> Result<()>, start: Option<I64>, stop: Option<I64>,
                          engine: Statement -> seq<Row>)
      returns (delivered: seq<Row>, logged: seq<Error>, r: Result<()>)
      requires |storage.dbconns| <= 1
      ensures storage.dbconns == [] ==> r == Err(StorageNotOpened) && delivered == [] && logged == []
      ensures storage.dbconns != [] ==>
        && delivered == engine(Statement(storage.dbconns[0], QueryText(connections, start, stop)))
        && logged == Failures(delivered, handler)
        && r == Ok(())
    {
      var statement := storage.MessagesStatement(connections, start, stop);
      if statement.Err? {
        return [], [], Err(statement.error);
      }
      delivered, logged, r := Storage.HandleMessages(engine(statement.value), handler);
    }
  }

  /**
    `Reader::new`: validates the document read from `<path>/metadata.yaml`,
    builds the connections, and opens the storage over the document's
    files. `doc` is that document as parsed; `fs` maps a path to the
    database file stored there.
   */
  method NewReader(path: Path, doc: BagFileInfo, fs: map<string, DbFile>) returns (r: Result<Reader>)
    requires CheckMetadata(doc.rosbag2BagfileInformation).Ok? ==>
      |doc.rosbag2BagfileInformation.topicsWithMessageCount| <= I32_MAX
    ensures var m := doc.rosbag2BagfileInformation;
      CheckMetadata(m).Err? ==> r == Err(CheckMetadata(m).error)
    ensures var m := doc.rosbag2BagfileInformation;
      var paths := StoragePaths(path, m.relativeFilePaths);
      CheckMetadata(m).Ok? && OpenResult(paths, fs, []).Err? ==> r == Err(OpenResult(paths, fs, []).error)
    ensures var m := doc.rosbag2BagfileInformation;
      var paths := StoragePaths(path, m.relativeFilePaths);
      CheckMetadata(m).Ok? && OpenResult(paths, fs, []).Ok? ==>
        && r.Ok? && fresh(r.value) && fresh(r.value.storage)
        && r.value.metadata == m
        && r.value.connections == BuildConnections(m.topicsWithMessageCount)
        && r.value.storage.paths == paths
        && r.value.storage.dbconns == OpenedFiles(paths, fs)
  {
    var metadata := doc.rosbag2BagfileInformation;
    var valid := CheckMetadata(metadata);
    if valid.Err? {
      return Err(valid.error);
    }
    var connections := BuildConnections(metadata.topicsWithMessageCount);
    var paths := StoragePaths(path, metadata.relativeFilePaths);
    var storage := new Sqlite3Reader(paths);
    var _ :- storage.Open(fs);
    assert paths[..OpenedCount(paths, fs)] == paths;
    var reader := new Reader(metadata, connections, storage);
    return Ok(reader);
  }

  // ---- Accessor properties ----

  /** `compression_mode()` is `None` exactly for "none" written in any mix of upper and lower case. */
  lemma CompressionModeNone(rd: Reader)
    ensures rd.CompressionMode().None? <==>
      var mode := rd.metadata.compressionMode;
      |mode| == 4 && forall i :: 0 <= i < 4 ==> mode[i] == "none"[i] || mode[i] == "NONE"[i]
  {
    var mode := rd.metadata.compressionMode;
    var lower := Lower(mode);
    if |mode| == 4 && forall i :: 0 <= i < 4 ==> mode[i] == "none"[i] || mode[i] == "NONE"[i] {
      assert lower == "none" by {
        assert forall i :: 0 <= i < 4 ==> lower[i] == "none"[i];
      }
    }
    if lower == "none" {
      assert forall i :: 0 <= i < 4 ==> lower[i] == "none"[i];
      assert |mode| == 4;
      forall i | 0 <= i < 4
        ensures mode[i] == "none"[i] || mode[i] == "NONE"[i]
      {
        assert lower[i] == "none"[i];
      }
    }
  }

  /** A reader only exists for an empty compression mode, so `compression_mode()` is always `Some("")`. */
  lemma ValidatedCompressionMode(rd: Reader)
    requires CheckMetadata(rd.metadata).Ok?
    ensures rd.CompressionMode() == Some("")
  {
  }

  /**
    A non-empty bag reports the stored start, the stored duration plus one,
    and an end one past the last message's offset; the duration is positive
    unless the stored one is negative.
   */
  lemma NonEmptyBagTimes(rd: Reader)
    requires rd.MessageCount() > 0 && rd.metadata.duration.nanoseconds < I64_MAX
    requires I64_MIN <= rd.StartTime() + rd.Duration() <= I64_MAX
    ensures rd.MessageCount() == rd.metadata.messageCount
    ensures rd.StartTime() == rd.metadata.startingTime.nanosecondsSinceEpoch
    ensures rd.Duration() == rd.metadata.duration.nanoseconds + 1
    ensures rd.EndTime() == rd.metadata.startingTime.nanosecondsSinceEpoch + rd.metadata.duration.nanoseconds + 1
    ensures rd.Duration() > 0 <==> rd.metadata.duration.nanoseconds >= 0
  {
  }

  /** An empty bag reports duration 0 and start and end `i64::MAX`. */
  lemma EmptyBagTimes(rd: Reader)
    requires rd.MessageCount() <= 0
    ensures rd.Duration() == 0 && rd.StartTime() == I64_MAX && rd.EndTime() == I64_MAX
  {
  }
}
