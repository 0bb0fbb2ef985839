/**
  The message query of the read path (`Sqlite3Reader::messages_statement`):
  the predicates it filters on, the SQL text it assembles, and what a correct
  engine answers to it.
 */
module Query {
  import opened Types
  import opened Sqlite

  const SELECT_PREFIX: string :=
    "SELECT topics.id, messages.timestamp, messages.data FROM messages JOIN topics ON messages.topic_id=topics.id"
  const ORDER_SUFFIX: string := " ORDER BY messages.timestamp"

  /** One filter of the query. */
  datatype Predicate =
    | TopicIn(names: seq<string>)  // topics.name IN ('n1', 'n2', ...)
    | AtOrAfter(bound: I64)        // messages.timestamp >= bound
    | Before(bound: I64)           // messages.timestamp < bound

  /** A row the query yields: `(topics.id, messages.timestamp, messages.data)`. */
  datatype Row = Row(topicId: I64, timestamp: I64, data: seq<Byte>)

  function TopicNames(conns: seq<TopicConnection>): seq<string> {
    seq(|conns|, i requires 0 <= i < |conns| => conns[i].topic)
  }

  /**
    The predicates, in the order the query states them: the topic list only
    when there are connections, then the inclusive start, then the exclusive
    stop.
   */
  function Predicates(conns: seq<TopicConnection>, start: Option<I64>, stop: Option<I64>): seq<Predicate> {
    var topics := if conns == [] then [] else [TopicIn(TopicNames(conns))];
    var from := if start.Some? then topics + [AtOrAfter(start.value)] else topics;
    if stop.Some? then from + [Before(stop.value)] else from
  }

  predicate Holds(p: Predicate, name: string, timestamp: int) {
    match p
    case TopicIn(names) => name in names
    case AtOrAfter(bound) => bound <= timestamp
    case Before(bound) => timestamp < bound
  }

  predicate HoldsAll(ps: seq<Predicate>, name: string, timestamp: int) {
    forall i :: 0 <= i < |ps| ==> Holds(ps[i], name, timestamp)
  }

  /**
    The query selects a message on topic `name` at `timestamp` exactly when
    the topic is one of the connections' (or no connection is given) and the
    timestamp lies in the half-open window [start, stop).
   */
  lemma PredicatesMeaning(conns: seq<TopicConnection>, start: Option<I64>, stop: Option<I64>, name: string, timestamp: int)
    ensures HoldsAll(Predicates(conns, start, stop), name, timestamp) <==>
      && (conns == [] || exists i :: 0 <= i < |conns| && conns[i].topic == name)
      && (start.Some? ==> start.value <= timestamp)
      && (stop.Some? ==> timestamp < stop.value)
  {
    var ps := Predicates(conns, start, stop);
    var a := if conns == [] then [] else [TopicIn(TopicNames(conns))];
    var b := if start.Some? then [AtOrAfter(start.value)] else [];
    var c := if stop.Some? then [Before(stop.value)] else [];
    assert ps == a + b + c;
    if conns != [] {
      assert ps[0] == TopicIn(TopicNames(conns));
      assert (name in TopicNames(conns)) <==> exists i :: 0 <= i < |conns| && conns[i].topic == name by {
        if name in TopicNames(conns) {
          var i :| 0 <= i < |conns| && TopicNames(conns)[i] == name;
          assert conns[i].topic == name;
        }
        if exists i :: 0 <= i < |conns| && conns[i].topic == name {
          var i :| 0 <= i < |conns| && conns[i].topic == name;
          assert TopicNames(conns)[i] == name;
        }
      }
    }
    if start.Some? {
      assert ps[|a|] == AtOrAfter(start.value);
    }
    if stop.Some? {
      assert ps[|a| + |b|] == Before(stop.value);
    }
  }

  // ---- Decimal rendering of the i64 bounds (Rust `Display` for i64) ----

  function DigitChar(d: nat): char
    requires d < 10
  {
    "0123456789"[d]
  }

  function NatText(n: nat): string
    decreases n
  {
    if n < 10 then [DigitChar(n)] else NatText(n / 10) + [DigitChar(n % 10)]
  }

  function IntText(n: int): string {
    if n < 0 then "-" + NatText(-n) else NatText(n)
  }

  function DigitValue(c: char): nat {
    if '0' <= c <= '9' then c as int - '0' as int else 0
  }

  /** Reads back a run of decimal digits. */
  function ParseNat(s: string): nat {
    if s == [] then 0 else ParseNat(s[..|s| - 1]) * 10 + DigitValue(s[|s| - 1])
  }

  function ParseInt(s: string): int {
    if |s| > 0 && s[0] == '-' then -(ParseNat(s[1..]) as int) else ParseNat(s)
  }

  lemma {:induction false} NatTextRoundTrip(n: nat)
    ensures |NatText(n)| > 0 && NatText(n)[0] != '-'
    ensures ParseNat(NatText(n)) == n
  {
    if n >= 10 {
      NatTextRoundTrip(n / 10);
      var s := NatText(n);
      assert s[..|s| - 1] == NatText(n / 10);
      assert DigitValue(s[|s| - 1]) == n % 10;
    } else {
      assert DigitValue(DigitChar(n)) == n;
    }
  }

  /** A run of digits reads back with or without a leading minus sign. */
  lemma SignedDigitsParse(digits: string)
    requires |digits| > 0 && digits[0] != '-'
    ensures ParseInt(digits) == ParseNat(digits)
    ensures ParseInt("-" + digits) == -(ParseNat(digits) as int)
  {
    assert ("-" + digits)[1..] == digits;
  }

  /** The bound written into the query text reads back as the same number. */
  lemma IntTextRoundTrip(n: int)
    ensures ParseInt(IntText(n)) == n
  {
    var m: nat := if n < 0 then -n else n;
    NatTextRoundTrip(m);
    SignedDigitsParse(NatText(m));
  }

  // ---- The SQL text ----

  /** `'t1', 't2', ...`: each name between single quotes, joined by ", ". */
  function QuotedList(names: seq<string>): string {
    if names == [] then ""
    else "'" + names[0] + "'" + (if |names| == 1 then "" else ", " + QuotedList(names[1..]))
  }

  function PredicateText(p: Predicate): string {
    match p
    case TopicIn(names) => "topics.name IN (" + QuotedList(names) + ")"
    case AtOrAfter(bound) => "messages.timestamp >= " + IntText(bound)
    case Before(bound) => "messages.timestamp < " + IntText(bound)
  }

  /** One clause: " <keyword> <predicate>". */
  function Clause(keyword: string, p: Predicate): string {
    " " + keyword + " " + PredicateText(p)
  }

  /** The clause chain: the first predicate after `keyword`, every later one after "AND". */
  function Clauses(ps: seq<Predicate>, keyword: string): string {
    if ps == [] then "" else Clause(keyword, ps[0]) + Clauses(ps[1..], "AND")
  }

  /** The complete statement text for the given connections and bounds. */
  function QueryText(conns: seq<TopicConnection>, start: Option<I64>, stop: Option<I64>): string {
    SELECT_PREFIX + Clauses(Predicates(conns, start, stop), "WHERE") + ORDER_SUFFIX
  }

  /** Slices of a three-part concatenation. */
  lemma ConcatSlices(a: string, b: string, c: string, n: nat)
    requires n <= |b|
    ensures var s := a + b + c;
      && s[..|a|] == a && s[|s| - |c|..] == c && s[|a|..|a| + n] == b[..n]
  {
  }

  /** No clause chain is empty, and the first clause opens with the keyword. */
  lemma ClausesStart(ps: seq<Predicate>, keyword: string)
    ensures Clauses(ps, keyword) == "" <==> ps == []
    ensures ps != [] ==>
      var text := Clauses(ps, keyword);
      |text| >= |keyword| + 2 && text[..|keyword| + 2] == " " + keyword + " "
  {
    if ps != [] {
      var text := Clauses(ps, keyword);
      var head := " " + keyword + " ";
      assert text == head + PredicateText(ps[0]) + Clauses(ps[1..], "AND");
      assert text[..|head|] == head;
    }
  }

  /** The statement text starts with the select prefix and ends with the ordering. */
  lemma QueryTextShape(conns: seq<TopicConnection>, start: Option<I64>, stop: Option<I64>)
    ensures var q := QueryText(conns, start, stop);
      && |q| >= |SELECT_PREFIX| + |ORDER_SUFFIX|
      && q[..|SELECT_PREFIX|] == SELECT_PREFIX
      && q[|q| - |ORDER_SUFFIX|..] == ORDER_SUFFIX
  {
    ConcatSlices(SELECT_PREFIX, Clauses(Predicates(conns, start, stop), "WHERE"), ORDER_SUFFIX, 0);
  }

  /** A non-empty clause chain opened by WHERE puts " WHERE " right after whatever precedes it. */
  lemma WhereAfter(prefix: string, ps: seq<Predicate>, suffix: string)
    requires ps != []
    ensures var q := prefix + Clauses(ps, "WHERE") + suffix;
      |q| >= |prefix| + 7 && q[|prefix|..|prefix| + 7] == " WHERE "
  {
    var body := Clauses(ps, "WHERE");
    ClausesStart(ps, "WHERE");
    assert body[..7] == " WHERE " by {
      assert " " + "WHERE" + " " == " WHERE ";
    }
    ConcatSlices(prefix, body, suffix, 7);
  }

  /** When a connection or a bound is given, " WHERE " follows the select prefix. */
  lemma FilteredQueryWhere(conns: seq<TopicConnection>, start: Option<I64>, stop: Option<I64>)
    requires conns != [] || start.Some? || stop.Some?
    ensures var q := QueryText(conns, start, stop);
      |q| >= |SELECT_PREFIX| + 7 && q[|SELECT_PREFIX|..|SELECT_PREFIX| + 7] == " WHERE "
  {
    WhereAfter(SELECT_PREFIX, Predicates(conns, start, stop), ORDER_SUFFIX);
  }

  /** There is no predicate, and no WHERE clause, exactly when no connection and no bound is given. */
  lemma UnfilteredQuery(conns: seq<TopicConnection>, start: Option<I64>, stop: Option<I64>)
    ensures Predicates(conns, start, stop) == [] <==> conns == [] && start.None? && stop.None?
    ensures QueryText(conns, start, stop) == SELECT_PREFIX + ORDER_SUFFIX <==> conns == [] && start.None? && stop.None?
  {
    var ps := Predicates(conns, start, stop);
    var body := Clauses(ps, "WHERE");
    ClausesStart(ps, "WHERE");
    assert |QueryText(conns, start, stop)| == |SELECT_PREFIX| + |body| + |ORDER_SUFFIX|;
  }

  // ---- What a correct engine answers ----

  function RowOf(m: MessageRow): Row {
    Row(m.topicId, m.timestamp, m.data)
  }

  /** The joined rows the predicates keep, in insertion order. */
  function Selected(topics: seq<TopicRow>, msgs: seq<MessageRow>, ps: seq<Predicate>): seq<Row> {
    if msgs == [] then []
    else
      var rest := Selected(topics, msgs[1..], ps);
      match NameOf(topics, msgs[0].topicId)
      case Some(name) => if HoldsAll(ps, name, msgs[0].timestamp) then [RowOf(msgs[0])] + rest else rest
      case None => rest
  }

  predicate Kept(topics: seq<TopicRow>, m: MessageRow, ps: seq<Predicate>) {
    NameOf(topics, m.topicId).Some? && HoldsAll(ps, NameOf(topics, m.topicId).value, m.timestamp)
  }

  /** A row is selected exactly when some message row that the join and the predicates keep produces it. */
  lemma {:induction false} SelectedMembers(topics: seq<TopicRow>, msgs: seq<MessageRow>, ps: seq<Predicate>, r: Row)
    ensures r in Selected(topics, msgs, ps) <==>
      exists k :: 0 <= k < |msgs| && Kept(topics, msgs[k], ps) && RowOf(msgs[k]) == r
  {
    if msgs != [] {
      SelectedMembers(topics, msgs[1..], ps, r);
      assert forall k :: 1 <= k < |msgs| ==> msgs[k] == msgs[1..][k - 1];
      if exists k :: 0 <= k < |msgs| && Kept(topics, msgs[k], ps) && RowOf(msgs[k]) == r {
        var k :| 0 <= k < |msgs| && Kept(topics, msgs[k], ps) && RowOf(msgs[k]) == r;
        if k > 0 {
          assert Kept(topics, msgs[1..][k - 1], ps) && RowOf(msgs[1..][k - 1]) == r;
        }
      }
    }
  }

  /** When the join and the predicates keep every message, every message is selected. */
  lemma {:induction false} SelectedAll(topics: seq<TopicRow>, msgs: seq<MessageRow>, ps: seq<Predicate>)
    requires forall k :: 0 <= k < |msgs| ==> Kept(topics, msgs[k], ps)
    ensures |Selected(topics, msgs, ps)| == |msgs|
  {
    if msgs != [] {
      assert Kept(topics, msgs[0], ps);
      SelectedAll(topics, msgs[1..], ps);
    }
  }

  predicate SortedByTimestamp(rows: seq<Row>) {
    forall i, j :: 0 <= i < j < |rows| ==> rows[i].timestamp <= rows[j].timestamp
  }

  /**
    `rows` is a correct answer of the engine to the query with predicates
    `ps` on `db`: the selected joined rows, in ascending timestamp order
    (rows with equal timestamps in any order).
   */
  ghost predicate IsAnswer(db: DbFile, ps: seq<Predicate>, rows: seq<Row>) {
    SortedByTimestamp(rows) && multiset(rows) == multiset(Selected(db.topics, db.messages, ps))
  }

  /**
    The answer to the query built for `conns`, `start`, `stop` holds a
    message's row exactly when its topic is requested and its timestamp lies
    in [start, stop).
   */
  lemma AnswerIsHalfOpenWindow(db: DbFile, conns: seq<TopicConnection>, start: Option<I64>, stop: Option<I64>, rows: seq<Row>, k: nat)
    requires IsAnswer(db, Predicates(conns, start, stop), rows)
    requires k < |db.messages| && NameOf(db.topics, db.messages[k].topicId).Some?
    ensures RowOf(db.messages[k]) in rows <==>
      && (conns == [] || exists i :: 0 <= i < |conns| && conns[i].topic == NameOf(db.topics, db.messages[k].topicId).value)
      && (start.Some? ==> start.value <= db.messages[k].timestamp)
      && (stop.Some? ==> db.messages[k].timestamp < stop.value)
  {
    var ps := Predicates(conns, start, stop);
    var m := db.messages[k];
    var r := RowOf(m);
    SelectedMembers(db.topics, db.messages, ps, r);
    assert r in rows <==> r in multiset(rows);
    assert r in Selected(db.topics, db.messages, ps) <==> r in multiset(Selected(db.topics, db.messages, ps));
    var name := NameOf(db.topics, m.topicId).value;
    PredicatesMeaning(conns, start, stop, name, m.timestamp);
    if r in Selected(db.topics, db.messages, ps) {
      var j :| 0 <= j < |db.messages| && Kept(db.topics, db.messages[j], ps) && RowOf(db.messages[j]) == r;
      assert db.messages[j].topicId == m.topicId && db.messages[j].timestamp == m.timestamp;
    }
  }

  /** An answer has as many rows as the query selects. */
  lemma AnswerSize(db: DbFile, ps: seq<Predicate>, rows: seq<Row>)
    requires IsAnswer(db, ps, rows)
    ensures |rows| == |Selected(db.topics, db.messages, ps)|
  {
    assert |multiset(rows)| == |rows|;
    assert |multiset(Selected(db.topics, db.messages, ps))| == |Selected(db.topics, db.messages, ps)|;
  }
}
