/**
  The read side of the SQLite storage (src/sqlite3_storage.rs): opening the
  database files with the required-table check, detecting the schema
  version, building the message statement, and running a handler over the
  rows it yields.
 */
module Storage {
  import opened Types
  import opened Sqlite
  import opened Query

  /** `SELECT count(*) FROM sqlite_master WHERE type='table' AND name IN ('messages', 'topics')` */
  function RequiredTableCount(db: DbFile): nat {
    |db.tables * {"messages", "topics"}|
  }

  /** The count is 2 exactly when both required tables are in the catalog. */
  lemma RequiredTablesPresent(db: DbFile)
    ensures RequiredTableCount(db) == 2 <==> "messages" in db.tables && "topics" in db.tables
  {
    var both := db.tables * {"messages", "topics"};
    if "messages" in db.tables && "topics" in db.tables {
      assert both == {"messages", "topics"};
    } else if "messages" in db.tables {
      assert both == {"messages"};
    } else if "topics" in db.tables {
      assert both == {"topics"};
    } else {
      assert both == {};
    }
  }

  /**
    Opening one file read-only: it must exist, and its catalog must hold
    both `messages` and `topics`.
   */
  function OpenFile(path: string, fs: map<string, DbFile>): (r: Result<DbFile>)
    ensures r.Ok? <==> path in fs && "messages" in fs[path].tables && "topics" in fs[path].tables
    ensures r.Ok? ==> r.value == fs[path]
    ensures r.Err? ==> r.error == CannotOpen(path) || r.error == MissingTables(path)
  {
    if path !in fs then Err(CannotOpen(path))
    else
      RequiredTablesPresent(fs[path]);
      if RequiredTableCount(fs[path]) != 2 then Err(MissingTables(path)) else Ok(fs[path])
  }

  /** How many leading paths open: all of them, or up to the first that fails. */
  function OpenedCount(paths: seq<string>, fs: map<string, DbFile>): (k: nat)
    ensures k <= |paths|
    ensures forall i :: 0 <= i < k ==> OpenFile(paths[i], fs).Ok?
    ensures k < |paths| ==> OpenFile(paths[k], fs).Err?
  {
    if paths == [] || OpenFile(paths[0], fs).Err? then 0
    else
      var k := 1 + OpenedCount(paths[1..], fs);
      assert forall i :: 1 <= i < |paths| ==> paths[i] == paths[1..][i - 1];
      k
  }

  /** The databases the leading paths open to. */
  function OpenedFiles(paths: seq<string>, fs: map<string, DbFile>): seq<DbFile>
    requires forall i :: 0 <= i < |paths| ==> paths[i] in fs
  {
    seq(|paths|, i requires 0 <= i < |paths| => fs[paths[i]])
  }

  /**
    Schema detection rules, top-down: a `schema` table gives its first
    `schema_version`; otherwise a `topics` table with an `offered_qos_profiles`
    column is version 2, and one without it version 1.
   */
  function DetectSchema(db: DbFile): (r: Result<I32>)
    ensures "schema" in db.tables ==> (r.Ok? <==> db.schema != [])
    ensures "schema" in db.tables && r.Ok? ==> r.value == db.schema[0].schemaVersion
    ensures "schema" !in db.tables ==> r.Ok? && (r.value == 2 <==> "offered_qos_profiles" in db.topicColumns)
    ensures "schema" !in db.tables ==> r.value == 1 || r.value == 2
  {
    if "schema" in db.tables then
      if db.schema == [] then Err(NoSchemaRow) else Ok(db.schema[0].schemaVersion)
    else if "offered_qos_profiles" in db.topicColumns then Ok(2)
    else Ok(1)
  }

  /**
    What opening `paths` answers when `prior` databases are already open:
    the error of the first path that fails, else the schema-detection error
    on the last open database, if any.
   */
  function OpenResult(paths: seq<string>, fs: map<string, DbFile>, prior: seq<DbFile>): (r: Result<()>)
    ensures r.Ok? ==> forall i :: 0 <= i < |paths| ==> OpenFile(paths[i], fs).Ok?
    ensures r.Err? ==>
      (exists i :: 0 <= i < |paths| && OpenFile(paths[i], fs) == Err(r.error)) || r.error == NoSchemaRow
  {
    var k := OpenedCount(paths, fs);
    if k < |paths| then Err(OpenFile(paths[k], fs).error)
    else
      assert paths[..k] == paths;
      var all := prior + OpenedFiles(paths, fs);
      if all != [] && DetectSchema(all[|all| - 1]).Err? then Err(DetectSchema(all[|all| - 1]).error)
      else Ok(())
  }

  /** A prepared statement: the database it was prepared on and its SQL text. */
  datatype Statement = Statement(db: DbFile, sql: string)

  /** Appending one predicate adds one clause, introduced by `keyword` only when it is the first. */
  lemma {:induction false} ClausesAppend(ps: seq<Predicate>, p: Predicate, keyword: string)
    ensures Clauses(ps + [p], keyword) == Clauses(ps, keyword) + Clause(if ps == [] then keyword else "AND", p)
  {
    if ps == [] {
      assert ps + [p] == [p];
    } else {
      assert (ps + [p])[0] == ps[0];
      assert (ps + [p])[1..] == ps[1..] + [p];
      ClausesAppend(ps[1..], p, "AND");
    }
  }

  /**
    One `push_str` of the query builder: appends the clause for `p`, led by
    `clause`, and hands back "AND" as the keyword for the next one. The text
    stays the head followed by the clause chain of the predicates stated so far.
   */
  method PushClause(query: string, clause: string, p: Predicate, ghost head: string, ghost stated: seq<Predicate>)
    returns (extended: string, next: string)
    requires query == head + Clauses(stated, "WHERE")
    requires clause == if stated == [] then "WHERE" else "AND"
    ensures extended == head + Clauses(stated + [p], "WHERE")
    ensures next == "AND"
  {
    ClausesAppend(stated, p, "WHERE");
    AppendAssoc(head, Clauses(stated, "WHERE"), Clause(clause, p));
    extended := query + Clause(clause, p);
    next := "AND";
  }

  lemma AppendAssoc<T>(a: seq<T>, b: seq<T>, c: seq<T>)
    ensures (a + b) + c == a + (b + c)
  {
  }

  /**
    The SQL text of the message statement, assembled as the source does:
    the select prefix, one clause per stated predicate (the first after
    "WHERE", the rest after "AND"), then the ordering suffix.
   */
  method BuildQuery(connections: seq<TopicConnection>, start: Option<I64>, stop: Option<I64>) returns (query: string)
    ensures query == QueryText(connections, start, stop)
  {
    ghost var stated: seq<Predicate> := [];
    query := SELECT_PREFIX;
    var clause := "WHERE";
    assert query == SELECT_PREFIX + Clauses(stated, "WHERE");
    if connections != [] {
      var p := TopicIn(TopicNames(connections));
      query, clause := PushClause(query, clause, p, SELECT_PREFIX, stated);
      stated := [p];
    }
    if start.Some? {
      var p := AtOrAfter(start.value);
      query, clause := PushClause(query, clause, p, SELECT_PREFIX, stated);
      stated := stated + [p];
    }
    if stop.Some? {
      var p := Before(stop.value);
      query, clause := PushClause(query, clause, p, SELECT_PREFIX, stated);
      stated := stated + [p];
    }
    assert stated == Predicates(connections, start, stop);
    assert query == SELECT_PREFIX + Clauses(Predicates(connections, start, stop), "WHERE");
    query := query + ORDER_SUFFIX;
  }

  class Sqlite3Reader {
    const paths: seq<string>
    var dbconns: seq<DbFile>
    var schema: I32

    /** `Sqlite3Reader::new`: the paths, no open database, schema 0. */
    constructor (paths: seq<string>)
      ensures this.paths == paths && dbconns == [] && schema == 0
    {
      this.paths := paths;
      dbconns := [];
      schema := 0;
    }

    /**
      Opens every path in order, stopping at the first that fails (the ones
      opened before it stay open), then detects the schema version on the
      last open database. `fs` maps a path to the database file stored there.
     */
    method Open(fs: map<string, DbFile>) returns (r: Result<()>)
      modifies this
      ensures var k := OpenedCount(paths, fs);
        dbconns == old(dbconns) + OpenedFiles(paths[..k], fs)
      ensures var k := OpenedCount(paths, fs);
        k < |paths| ==> r == Err(OpenFile(paths[k], fs).error) && schema == old(schema)
      ensures r == OpenResult(paths, fs, old(dbconns))
      ensures OpenedCount(paths, fs) == |paths| && dbconns == [] ==> r == Ok(()) && schema == old(schema)
      ensures OpenedCount(paths, fs) == |paths| && dbconns != [] ==>
        var detected := DetectSchema(dbconns[|dbconns| - 1]);
        (detected.Ok? ==> r == Ok(()) && schema == detected.value)
        && (detected.Err? ==> r == Err(detected.error) && schema == old(schema))
    {
      var i := 0;
      while i < |paths|
        invariant 0 <= i <= |paths| && i <= OpenedCount(paths, fs)
        invariant dbconns == old(dbconns) + OpenedFiles(paths[..i], fs)
        invariant schema == old(schema)
      {
        var connected := OpenFile(paths[i], fs);
        if connected.Err? {
          return Err(connected.error);
        }
        dbconns := dbconns + [connected.value];
        i := i + 1;
        assert OpenedFiles(paths[..i], fs) == OpenedFiles(paths[..i - 1], fs) + [connected.value];
      }
      assert paths[..i] == paths;
      if dbconns != [] {
        var detected := DetectSchema(dbconns[|dbconns| - 1]);
        if detected.Err? {
          return Err(detected.error);
        }
        schema := detected.value;
      }
      return Ok(());
    }

    /** Drops every open database. */
    method Close()
      modifies this
      ensures dbconns == [] && schema == old(schema)
    {
      dbconns := [];
    }

    /**
      Builds the statement over the (single) open database: fails when none
      is open; more than one open database is a panic in the source.
     */
    method MessagesStatement(connections: seq<TopicConnection>, start: Option<I64>, stop: Option<I64>)
      returns (r: Result<Statement>)
      requires |dbconns| <= 1
      ensures dbconns == [] ==> r == Err(StorageNotOpened)
      ensures dbconns != [] ==> r == Ok(Statement(dbconns[0], QueryText(connections, start, stop)))
    {
      if dbconns == [] {
        return Err(StorageNotOpened);
      }
      var query := BuildQuery(connections, start, stop);
      return Ok(Statement(dbconns[|dbconns| - 1], query));
    }
  }

  /** The errors a handler returns over `rows`, in row order. */
  function Failures(rows: seq<Row>, handler: Row -> Result<()>): (errs: seq<Error>)
    ensures |errs| <= |rows|
    ensures errs == [] <==> forall i :: 0 <= i < |rows| ==> handler(rows[i]).Ok?
  {
    if rows == [] then []
    else
      var last := rows[|rows| - 1];
      var errs := Failures(rows[..|rows| - 1], handler);
      assert forall i :: 0 <= i < |rows| - 1 ==> rows[..|rows| - 1][i] == rows[i];
      errs + (if handler(last).Err? then [handler(last).error] else [])
  }

  /**
    `handle_messages`: calls the handler once per row, in the order the
    statement yields them. A handler error is logged and the scan goes on;
    the call itself always succeeds. `delivered` is the sequence of rows the
    handler was called with, `logged` the errors reported.
   */
  method HandleMessages(rows: seq<Row>, handler: Row -> Result<()>)
    returns (delivered: seq<Row>, logged: seq<Error>, r: Result<()>)
    ensures delivered == rows
    ensures logged == Failures(rows, handler)
    ensures r == Ok(())
  {
    delivered, logged := [], [];
    var i := 0;
    while i < |rows|
      invariant 0 <= i <= |rows|
      invariant delivered == rows[..i]
      invariant logged == Failures(rows[..i], handler)
    {
      var result := handler(rows[i]);
      delivered := delivered + [rows[i]];
      if result.Err? {
        logged := logged + [result.error];
      }
      i := i + 1;
      assert rows[..i][..i - 1] == rows[..i - 1];
    }
    assert rows[..i] == rows;
    r := Ok(());
  }
}
