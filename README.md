# rosbag2-rs core in Dafny

A model of the core of rosbag2-rs, a Rust library that reads and writes
ROS 2 "rosbag2" recordings. A bag is a directory that holds one SQLite
database file (`<dir>/<dir name>.db3`) and a `metadata.yaml` document.

The model has three parts.

- **Writer session** (`writer.dfy`, module `BagWriter`). The `Writer` class
  has the Rust fields plus two fields that stand for the file system:
  `disk`, the database file at `dbpath`, and `metafile`, the document at
  `metapath`.
  - `Open`, `AddConnection`, `Write` and `Close` keep one invariant,
    `Valid()`. It says the connection registry is well formed: ids are
    1..N, no (topic, type) pair appears twice, and the counters are keyed
    by exactly the ids.
  - While the bag is open, `Valid()` also says the database matches the
    writer's state. Its topic rows are one per connection, every message is
    on a registered connection, and each counter equals that connection's
    number of message rows.
  - `Close` reads the aggregate `(max - min, min, count)` over the message
    rows and writes the document that `GenerateMetadata` builds.
- **Storage read path** (`storage.dfy` and `query.dfy`, modules `Storage`
  and `Query`).
  - The `Sqlite3Reader` class opens files with the required-table check and
    detects the schema version.
  - It builds the message query text clause by clause, as the Rust code
    does with `push_str`, and the result is proved equal to `QueryText`.
  - `handle_messages` hands rows to the callback and keeps going when the
    callback fails.
  - `Query` also states what a correct SQL engine answers to that query:
    the joined rows its predicates keep, in ascending timestamp order. It
    proves that the answer is the half-open window [start, stop) over the
    requested topics.
- **Reader** (`reader.dfy`, module `BagReader`).
  - The ordered validation of the document.
  - Connections rebuilt with ids 1..N.
  - Storage paths joined onto the bag directory.
  - The accessors, including the +1 duration and the `i64::MAX` start
    sentinel, the lower-cased compression mode and the `topics()` map.
  - `Reader::new` as the method `NewReader`.

`roundtrip.dfy` (module `RoundTrip`) connects the two sides, treating the
YAML encoding as the identity:

- the reader accepts the writer's document exactly when the compression
  mode is empty and every format is CDR;
- it rebuilds the writer's connections with their final counts;
- it opens the database the writer created (schema 4);
- its time window covers every message;
- a correct answer to the unbounded query has one row per message row.

`TwoTopicSession` and `TwoTopicMessages` replay the library's two-topic
reader test (`tests/reader_tests.rs`). The first proves the connections,
the counts and the 10 ns duration the test checks. The second runs
`handle_messages` without bounds, with an engine that answers the query
correctly, and proves the twenty rows the test counts.

Shared pieces:

- `types.dfy`: i32/i64 ranges, `Option`/`Result`, one error per message
  the core raises, the connection records of `src/lib.rs`.
- `metadata.dfy`: the document records of `src/metadata.rs`.
- `paths.dfy`: `PathBuf` join, file name and rendering.
- `sqlite.dfy`: a database file as its table catalog and table rows.

Integer widths are explicit: ids, counts, timestamps and durations are
i32 or i64 ranges. Where the Rust code would panic on
debug-build overflow, on `unwrap`, or on more than one open database, the
model has a `requires`.

Where the design description and the code disagree, the model follows the
code.

- Closing a bag with no messages does not succeed. The aggregate's NULL
  `min`/`max` cannot be read into an `i64`, so `close` returns that error
  after it has already dropped the connection, and it writes no document.
  `BagWriter.Writer.Close` states exactly this.
- `compression_mode()` cannot return `None` on a reader `Reader::new`
  returned (as long as the public `metadata` field is not reassigned).
  `Reader::new` rejects every non-empty mode, "none" included, so the
  accessor always answers `Some("")`. This is proved by
  `BagReader.ValidatedCompressionMode`.
- `Reader::open` on a reader `Reader::new` returned opens the bag's files a
  second time. The storage then holds every database twice, so the next
  `handle_messages` panics on more than one open database.
  `RoundTrip.ReopenedSession` shows this on the test's bag.

## Model

| member | source | states |
|---|---|---|
| `Paths.TextOfJoin` | src/writer.rs:26-31 | joining a name onto a path renders as the directory text, "/", and the name |
| `Sqlite.CountOfAppend` | src/writer.rs:181-183 | the number of message rows on a topic id adds up over concatenated row sequences |
| `Sqlite.CountOfAbsent` | src/writer.rs:132 | a topic id no message row references has count zero, so a fresh counter of 0 is exact |
| `Sqlite.NameOf` | src/sqlite3_storage.rs:99 | the JOIN finds a topic name for a message's id exactly when some topic row has that id, and the name is that row's |
| `Query.PredicatesMeaning` | src/sqlite3_storage.rs:104-126 | the predicates hold for a topic name and timestamp iff the topic is among the connections' (or none is given) and start <= timestamp < stop |
| `Query.NatTextRoundTrip` | src/sqlite3_storage.rs:117 | the decimal text of a natural number is non-empty, has no sign, and reads back as the number |
| `Query.IntTextRoundTrip` | src/sqlite3_storage.rs:124 | the decimal text of an i64 bound written into the query reads back as the same number, negative bounds included |
| `Query.QueryTextShape` | src/sqlite3_storage.rs:98-128 | the statement text starts with the SELECT ... JOIN prefix and ends with the ORDER BY timestamp suffix |
| `Query.FilteredQueryWhere` | src/sqlite3_storage.rs:102-124 | with a connection or a bound given, " WHERE " follows the prefix directly |
| `Query.UnfilteredQuery` | src/sqlite3_storage.rs:102-128 | there is no predicate and no WHERE clause (the text is prefix plus suffix) exactly when no connection and no bound is given |
| `Query.SelectedMembers` | src/sqlite3_storage.rs:98-100 | a row is selected iff some message row whose topic joins and whose predicates hold produces it |
| `Query.SelectedAll` | src/sqlite3_storage.rs:98-128 | when every message joins and passes the predicates, all of them are selected |
| `Query.AnswerIsHalfOpenWindow` | src/sqlite3_storage.rs:111-128 | a correct answer to the built query holds a message's row iff its topic is requested and its timestamp lies in [start, stop) |
| `Query.AnswerSize` | src/sqlite3_storage.rs:128 | a correct answer (selected rows in timestamp order, as a permutation) has exactly as many rows as are selected |
| `Storage.RequiredTablesPresent` | src/sqlite3_storage.rs:33-39 | the catalog count of {messages, topics} is 2 iff both tables exist |
| `Storage.OpenFile` | src/sqlite3_storage.rs:27-44 | a file opens iff it exists and holds both required tables; otherwise the error names the path |
| `Storage.OpenedCount` | src/sqlite3_storage.rs:24-48 | the files before the first failing one all open, and the one at the returned index fails |
| `Storage.OpenResult` | src/sqlite3_storage.rs:23-79 | opening succeeds only if every path opens; an error is a failing path's error or the missing schema row |
| `Storage.DetectSchema` | src/sqlite3_storage.rs:51-76 | a schema table gives its first version (an empty one is an error); otherwise 2 iff topics has `offered_qos_profiles`, else 1 |
| `Storage.ClausesAppend` | src/sqlite3_storage.rs:102-126 | appending a predicate appends one clause, introduced by WHERE when it is the first and by AND otherwise |
| `Storage.PushClause` | src/sqlite3_storage.rs:111-124 | each `push_str` of a clause keeps the text equal to the prefix followed by the clause chain of the predicates stated so far, and the next keyword is "AND" |
| `Storage.BuildQuery` | src/sqlite3_storage.rs:98-128 | the assembled text is exactly the select prefix, the clause chain of the predicates (topic list only when connections are given, then the start and stop bounds) and the ordering suffix |
| `Storage.Sqlite3Reader.constructor` | src/sqlite3_storage.rs:15-21 | the paths are stored unchanged, with no open database and schema 0 |
| `Storage.Sqlite3Reader.Open` | src/sqlite3_storage.rs:23-79 | appends the databases of the leading paths that open, returns the first failure, and sets the schema from the last open database (unchanged with none open or on error) |
| `Storage.Sqlite3Reader.Close` | src/sqlite3_storage.rs:82-84 | no database stays open; the schema is kept |
| `Storage.Sqlite3Reader.MessagesStatement` | src/sqlite3_storage.rs:88-153 | fails when no database is open; otherwise the statement on the open database whose text is `QueryText` (prefix, WHERE/AND chain, ORDER BY) |
| `Storage.Failures` | src/sqlite3_storage.rs:165-174 | the logged errors number at most the rows, and there are none iff the callback accepts every row |
| `Storage.HandleMessages` | src/sqlite3_storage.rs:156-177 | every row is handed to the callback in order, the callback's errors are collected, and the result is Ok |
| `BagWriter.DbPath` | src/writer.rs:28-31 | the database path has the file name `<dir name>.db3` and renders as the directory text followed by "/<dir name>.db3" |
| `BagWriter.RegisteredAt` | src/writer.rs:159-183 | a connection equal to a registered one sits at index id-1 and has a counter, so the increment in `write` happens |
| `BagWriter.MinTimestamp` | src/writer.rs:192 | SQL `min(timestamp)`: a lower bound that some row attains |
| `BagWriter.MaxTimestamp` | src/writer.rs:192 | SQL `max(timestamp)`: an upper bound that some row attains |
| `BagWriter.Aggregate` | src/writer.rs:191-195 | the aggregate reads iff there are rows, the spread fits an i64 and the count an i32; then start is the minimum, start + duration the maximum, count the row count |
| `BagWriter.CountBelowAll` | src/writer.rs:181-183 | when every message is on an id in 1..n, the per-id counts add up to the number of messages |
| `BagWriter.NextConnectionRegisters` | src/writer.rs:107-131 | the connection built for an unregistered (topic, type) pair has a fresh id; appending it with a counter of 0 keeps the registry valid and registers the pair |
| `BagWriter.EntryCounts` | src/writer.rs:213-228 | on a matching database, each topic entry of the document carries its connection's topic and type and the number of message rows on that connection |
| `BagWriter.GeneratedDocument` | src/writer.rs:213-266 | the generated document's count is the number of message rows and the sum of the per-topic counts, its single file is the database path, and every message lies in [start, start + duration] |
| `BagWriter.EntryTotalIsMessageCount` | src/writer.rs:215-228 | on a matching database the per-topic counts of the document add up to the number of message rows |
| `BagWriter.Writer.constructor` | src/writer.rs:25-45 | the database and metadata paths derived from the directory, no connection, empty options, no document yet |
| `BagWriter.Writer.Open` | src/writer.rs:49-92 | an existing database file is an error that changes nothing; otherwise the four tables and the (4, "rosbags") schema row are created and the bag is open |
| `BagWriter.Writer.AddConnection` | src/writer.rs:94-145 | not open gives an error; a repeated (topic, type) pair gives an error and no change; otherwise id N+1 with count 0 is appended, its counter set to 0 and its topic row inserted |
| `BagWriter.Writer.Write` | src/writer.rs:147-186 | not open or an unregistered connection gives an error and no change; otherwise one message row is appended and only that connection's counter goes up by 1 |
| `BagWriter.Writer.Close` | src/writer.rs:188-211 | the connection is dropped; an unreadable aggregate is returned as the error with no document; otherwise the generated document is written; closed is a no-op |
| `BagReader.FirstNonCdr` | src/reader.rs:100-104 | none iff every format is "cdr"; otherwise the index of the first entry that is not |
| `BagReader.CheckMetadata` | src/reader.rs:88-116 | accepts iff version <= 5, empty compression, all "cdr" and storage "sqlite3"; the first failing check, in that order, gives the error |
| `BagReader.BuildConnections` | src/reader.rs:118-133 | one connection per topic entry, the k-th with id k+1, from which the entry (name, type, format, QoS, count) reads back unchanged |
| `BagReader.StoragePathsText` | src/reader.rs:135-139 | each storage path is the bag directory's text, "/", and the document's relative path, one per relative path |
| `BagReader.TopicsOfKeys` | src/reader.rs:211-222 | the `topics()` map has exactly the connections' topic names as keys |
| `BagReader.TopicsOfLastWins` | src/reader.rs:211-222 | a topic maps to the info of the last connection with that name: its type, its count and a one-element list holding it |
| `BagReader.Reader.constructor` | src/reader.rs:146-150 | the reader holds the document, the connections and the storage it is given |
| `BagReader.Reader.Topics` | src/reader.rs:211-222 | `topics()` is keyed by exactly the connections' topic names, and a name maps to the info of the last connection carrying it |
| `BagReader.Reader.Open` | src/reader.rs:153-157 | opening again appends the databases of the storage's paths and returns what the storage's open returns |
| `BagReader.Reader.HandleMessages` | src/reader.rs:159-170 | without an open database it fails; otherwise the rows of the statement for all the reader's connections and the bounds go to the callback, and the result is Ok |
| `BagReader.NewReader` | src/reader.rs:78-151 | a failing check is returned before any file is opened; then an open failure is returned; otherwise the reader holds the document, the rebuilt connections and a storage over the joined paths |
| `BagReader.CompressionModeNone` | src/reader.rs:202-209 | `compression_mode()` is None iff the mode is "none" in any mix of upper and lower case |
| `BagReader.ValidatedCompressionMode` | src/reader.rs:92-97 | on a validated document `compression_mode()` is `Some("")` |
| `BagReader.EmptyBagTimes` | src/reader.rs:172-192 | with no messages, duration is 0 and start and end are `i64::MAX` |
| `BagReader.NonEmptyBagTimes` | src/reader.rs:172-196 | with messages, `message_count()` is the document's count, start is the stored start, duration the stored one plus 1 (positive iff the stored one is not negative) and end their sum |
| `RoundTrip.WriterDocumentAccepted` | src/writer.rs:242-265 | the reader's checks accept the writer's document iff the compression mode is empty and every connection is "cdr"; a set mode is the error |
| `RoundTrip.ConnectionsSurvive` | src/reader.rs:119-133 | the rebuilt connections are the writer's, in order and with the same ids, each with its final count |
| `RoundTrip.WrittenBagOpens` | src/reader.rs:135-143 | the document's relative path joined onto the bag directory is the writer's database path; it opens, and its schema is 4 |
| `RoundTrip.DocumentCountsAgree` | src/writer.rs:213-258 | the per-topic counts of the written document add up to its message count |
| `RoundTrip.ReaderWindowCoversMessages` | src/reader.rs:172-192 | over the writer's aggregate, the duration is max - min + 1 and every message lies in [start_time, end_time) |
| `RoundTrip.MessageTopicName` | src/writer.rs:131-142 | every message row of the writer's database joins a topic row whose name is its connection's topic |
| `RoundTrip.MessageKept` | src/reader.rs:159-170 | with no bounds, the reader's topic list keeps every message row of the writer's database |
| `RoundTrip.AllMessagesDelivered` | src/reader.rs:159-170 | an unbounded read over the reader's connections answers one row per message row, as many as the document's count |
| `RoundTrip.WriteStep` | tests/reader_tests.rs:20 | one write of the loop keeps the loop state `Written`: the first i+1 rows of the burst appended to the database, the connection's counter up by i+1, the registry valid and the options unchanged |
| `RoundTrip.WriteBurst` | tests/reader_tests.rs:19-21 | ten writes on one connection append its ten rows and add 10 to its counter |
| `RoundTrip.RecordFirstTopic` | tests/reader_tests.rs:12-21 | after opening, registering "topic1" and ten writes, the writer holds one connection with id 1 and count 10, and ten rows on it |
| `RoundTrip.RecordSecondTopic` | tests/reader_tests.rs:24-29 | registering "topic2" gives id 2, and ten writes on it leave both counters at 10 and the twenty rows in write order |
| `RoundTrip.RecordTwoTopics` | tests/reader_tests.rs:12-31 | the writer session of the test ends with two connections of ten messages each and the document for the aggregate (9, 0, 20) |
| `RoundTrip.TwoTopicSession` | tests/reader_tests.rs:7-40 | the reader of that bag has two connections with count 10, twenty messages and duration 10, and its storage holds the one database the writer filled |
| `RoundTrip.TwoTopicMessages` | tests/reader_tests.rs:42-57 | `handle_messages` with no bounds and a callback that never fails, over a correctly answering engine, returns Ok, logs nothing and delivers twenty rows |
| `RoundTrip.ReopenedSession` | src/reader.rs:153-157 | `open` after `Reader::new` succeeds and leaves the same database open twice, more than `handle_messages` accepts without panicking |

## Left out

- The SQLite engine is not modelled: SQL parsing, `prepare` and `execute`
  errors, transactions and `PRAGMA optimize`. A database file is its table
  catalog, the column list of `topics`, and the rows of `schema`, `topics`
  and `messages`. The rows of `schema` are in the order a full scan
  returns them.
- What the engine answers to a statement is not modelled either.
  `Reader.HandleMessages` takes the engine as a parameter. `Query.IsAnswer`
  states what a correct answer is, but only in terms of the predicates,
  not by parsing the query text.
- Topic names are put between single quotes with no escaping, as the code
  does. A name that contains a quote changes the query. Because of this,
  the model does not claim that the text determines the predicates.
- YAML encoding and decoding and file-system calls are not modelled:
  `exists`, `create_dir_all`, `Connection::open`, `File::create`,
  `read_to_string`. The document is a value. The files are the writer's
  `disk` and `metafile` fields and the map `fs` given to the reader.
  Failures of these calls are not modelled. Those the reader `unwrap`s are
  panics in the source.
- `println!` logging is left out. So are the unused `args` vector of
  `messages_statement`, the unused `added_types` field and the never
  written `metadata` table.
- Direct assignment to the writer's public fields by a client is not
  modelled. Neither is assignment to the reader's public `metadata` and
  `connections` fields: the model makes them constants. Only `customData`, `compressionMode` and `compressionFormat`
  are treated as options a client sets.
- Path handling: relative file paths are joined as plain names. An
  absolute relative path, which replaces the directory in `PathBuf::join`,
  is not modelled. Paths are valid UTF-8, so `to_str().unwrap()` never
  panics.
- `BagReader.Lower` lower-cases ASCII letters only. Rust's `to_lowercase`
  also lowers non-ASCII letters.
- `BagWriter.Writer.AddConnection` requires fewer than `i32::MAX`
  connections, because computing the next id overflows there.
- `BagWriter.Writer.Write` requires the connection's counter to be below
  `i32::MAX`, because incrementing it overflows there.
- `BagReader.BuildConnections` requires at most `i32::MAX` topic entries,
  because computing id `index + 1` overflows beyond that.
- `BagReader.NewReader` carries the same bound on the number of topic
  entries.
- `Reader.Duration` and `Reader.EndTime` require their `+1` and their sum to
  fit an i64, because that arithmetic overflows otherwise.
- `Storage.Sqlite3Reader.MessagesStatement` requires at most one open
  database, because the source panics on more than one.
