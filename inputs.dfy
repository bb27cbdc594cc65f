/**
 * The three query sources: a fixed list (`ManualInput`), structured log rows
 * fetched from the Supabase logs service (`SupabaseLogInput`), and lines of
 * a PostgreSQL log file (`LogFileInput`).  Each hands out queries one at a
 * time and signals the end with None.
 *
 * Only the constructors that take the data directly are modelled; fetching
 * over the network and opening a file are left out.
 */
module Inputs {
  import opened Wrappers
  import opened Domain
  import AuditParser
  import LogLineParser

  /** `session_id or 'unknown'`: a missing or empty session id reads "unknown". */
  function SessionOrUnknown(sessionId: Option<string>): (r: string)
    ensures r != []
    ensures r == "unknown" || (sessionId.Some? && r == sessionId.value)
    ensures sessionId.Some? && sessionId.value != [] ==> r == sessionId.value
  {
    if sessionId.Some? && sessionId.value != [] then sessionId.value else "unknown"
  }

  /**
   * The query an adapter builds from a parsed audit entry: the statement is
   * the SQL, and the metadata carry the entry's timestamp and user and a
   * source label `origin:audit_type:session`.
   */
  function ToQuery(origin: string, p: AuditParser.ParsedAuditLog): (q: Query)
    ensures q.sql == p.statement && q.metadata.Some?
    ensures q.metadata.value.timestamp == p.timestamp
    ensures q.metadata.value.userId == p.userName
    ensures q.metadata.value.durationMs.None?
    ensures q.metadata.value.source == Some(origin + ":" + p.auditType + ":" + SessionOrUnknown(p.sessionId))
  {
    Query(p.statement, Some(QueryMetadata(
      p.timestamp, p.userName, None, Some(origin + ":" + p.auditType + ":" + SessionOrUnknown(p.sessionId)))))
  }

  const PgAuditOrigin := "pgaudit"
  const LogFileOrigin := "logfile"

  // ---------------------------------------------------------------------
  // The queries a list of rows or lines yields.

  /** The query of one row, when the row parses to an audit entry. */
  function RowQuery(row: AuditParser.Row, lib: AuditParser.Lib): Option<Query> {
    match AuditParser.ParseLogRow(row, lib)
    case None => None
    case Some(p) => Some(ToQuery(PgAuditOrigin, p))
  }

  /** The query of one log line, when the line parses to an audit entry. */
  function LineQuery(line: string): Option<Query> {
    match LogLineParser.ParseLine(line)
    case None => None
    case Some(p) => Some(ToQuery(LogFileOrigin, p))
  }

  /** The queries of the rows that parse, in row order; the others are skipped. */
  function RowQueries(rows: seq<AuditParser.Row>, lib: AuditParser.Lib): seq<Query> {
    FilterMap(rows, row => RowQuery(row, lib))
  }

  /** The queries of the lines that parse, in line order; the others are skipped. */
  function LineQueries(lines: seq<string>): seq<Query> {
    FilterMap(lines, LineQuery)
  }

  /** Rows are turned into queries independently and in order, none invented. */
  lemma RowQueriesAppend(xs: seq<AuditParser.Row>, ys: seq<AuditParser.Row>, lib: AuditParser.Lib)
    ensures RowQueries(xs + ys, lib) == RowQueries(xs, lib) + RowQueries(ys, lib)
    ensures |RowQueries(xs, lib)| <= |xs|
  {
    FilterMapAppend(xs, ys, row => RowQuery(row, lib));
  }

  /** Lines are turned into queries independently and in order, none invented. */
  lemma LineQueriesAppend(xs: seq<string>, ys: seq<string>)
    ensures LineQueries(xs + ys) == LineQueries(xs) + LineQueries(ys)
    ensures |LineQueries(xs)| <= |xs|
  {
    FilterMapAppend(xs, ys, LineQuery);
  }

  /** A query comes out exactly when some row parses to it. */
  lemma RowQueriesMembers(rows: seq<AuditParser.Row>, lib: AuditParser.Lib, q: Query)
    ensures q in RowQueries(rows, lib) <==> exists i :: 0 <= i < |rows| && RowQuery(rows[i], lib) == Some(q)
  {
    FilterMapMembers(rows, row => RowQuery(row, lib), q);
  }

  /** A query comes out exactly when some line parses to it. */
  lemma LineQueriesMembers(lines: seq<string>, q: Query)
    ensures q in LineQueries(lines) <==> exists i :: 0 <= i < |lines| && LineQuery(lines[i]) == Some(q)
  {
    FilterMapMembers(lines, LineQuery, q);
  }

  /** When every row parses, there is one query per row. */
  lemma AllRowsParse(rows: seq<AuditParser.Row>, lib: AuditParser.Lib)
    requires forall i :: 0 <= i < |rows| ==> RowQuery(rows[i], lib).Some?
    ensures |RowQueries(rows, lib)| == |rows|
  {
    FilterMapTotal(rows, row => RowQuery(row, lib));
  }

  /** When every line parses, there is one query per line. */
  lemma AllLinesParse(lines: seq<string>)
    requires forall i :: 0 <= i < |lines| ==> LineQuery(lines[i]).Some?
    ensures |LineQueries(lines)| == |lines|
  {
    FilterMapTotal(lines, LineQuery);
  }

  // ---------------------------------------------------------------------
  // The adapters.

  /** `ManualInput`: a snapshot of the given queries and a position in it. */
  class ManualInput {
    const queries: seq<Query>
    var index: nat

    ghost predicate Valid()
      reads this
    {
      index <= |queries|
    }

    /** The queries still to come. */
    ghost function Pending(): seq<Query>
      reads this
      requires Valid()
    {
      queries[index..]
    }

    constructor (queries: seq<Query>)
      ensures Valid() && this.queries == queries && index == 0
      ensures Pending() == queries
    {
      this.queries := queries;
      index := 0;
    }

    /** `__anext__`: the next query, or None (StopAsyncIteration) once all have been handed out. */
    method Next() returns (q: Option<Query>)
      requires Valid()
      modifies this
      ensures Valid()
      ensures old(index) < |queries| ==> q == Some(queries[old(index)]) && index == old(index) + 1
      ensures old(index) == |queries| ==> q.None? && index == old(index)
      ensures q.None? <==> old(Pending()) == []
      ensures q.Some? ==> old(Pending()) == [q.value] + Pending()
    {
      if index >= |queries| {
        return None;
      }
      q := Some(queries[index]);
      assert queries[index..] == [queries[index]] + queries[index + 1..];
      index := index + 1;
    }
  }

  /** `SupabaseLogInput`: the queries parsed from the fetched rows and a position in them. */
  class SupabaseLogInput {
    var queries: seq<Query>
    var index: nat
    var fetched: bool

    ghost predicate Valid()
      reads this
    {
      fetched && index <= |queries|
    }

    /** The queries still to come. */
    ghost function Pending(): seq<Query>
      reads this
      requires Valid()
    {
      queries[index..]
    }

    /** `from_log_rows`: parse the rows up front; nothing is left to fetch. */
    constructor FromLogRows(rows: seq<AuditParser.Row>, lib: AuditParser.Lib)
      ensures Valid() && queries == RowQueries(rows, lib) && index == 0
      ensures Pending() == RowQueries(rows, lib)
      ensures QueryCount() == |RowQueries(rows, lib)|
    {
      var parsed := ParseRows(rows, lib);
      queries := parsed;
      index := 0;
      fetched := true;
    }

    /** `_parse_rows`: the query of every row that parses, in order. */
    static method ParseRows(rows: seq<AuditParser.Row>, lib: AuditParser.Lib) returns (qs: seq<Query>)
      ensures qs == RowQueries(rows, lib)
    {
      qs := [];
      for i := 0 to |rows|
        invariant qs == RowQueries(rows[..i], lib)
      {
        assert rows[..i + 1] == rows[..i] + [rows[i]];
        RowQueriesAppend(rows[..i], [rows[i]], lib);
        var parsed := RowQuery(rows[i], lib);
        assert RowQueries([rows[i]], lib) == if parsed.Some? then [parsed.value] else [];
        if parsed.None? {
          continue;
        }
        qs := qs + [parsed.value];
      }
      assert rows[..|rows|] == rows;
    }

    /** `__anext__`: the next cached query, or None once all have been handed out. */
    method Next() returns (q: Option<Query>)
      requires Valid()
      modifies this
      ensures Valid() && queries == old(queries)
      ensures old(index) < |queries| ==> q == Some(queries[old(index)]) && index == old(index) + 1
      ensures old(index) == |queries| ==> q.None? && index == old(index)
      ensures q.None? <==> old(Pending()) == []
      ensures q.Some? ==> old(Pending()) == [q.value] + Pending()
    {
      if index >= |queries| {
        return None;
      }
      q := Some(queries[index]);
      assert queries[index..] == [queries[index]] + queries[index + 1..];
      index := index + 1;
    }

    /** `reset`: start again from the first cached query. */
    method Reset()
      requires Valid()
      modifies this
      ensures Valid() && queries == old(queries) && index == 0
      ensures Pending() == queries
    {
      index := 0;
    }

    /** `query_count`: how many queries the rows gave, whether handed out yet or not. */
    function QueryCount(): (r: nat)
      reads this
      requires Valid()
      ensures r == index + |Pending()|
    {
      |queries|
    }
  }

  /** `LogFileInput`: the lines of the file and a position in them. */
  class LogFileInput {
    const lines: seq<string>
    var index: nat

    ghost predicate Valid()
      reads this
    {
      index <= |lines|
    }

    /** The queries still to come: those of the lines not yet read. */
    ghost function Pending(): seq<Query>
      reads this
      requires Valid()
    {
      LineQueries(lines[index..])
    }

    /** `from_lines`: read from the given lines instead of a file. */
    constructor FromLines(lines: seq<string>)
      ensures Valid() && this.lines == lines && index == 0
      ensures Pending() == LineQueries(lines)
    {
      this.lines := lines;
      index := 0;
      assert lines[0..] == lines;
    }

    /**
     * `__anext__`: read lines until one parses and return its query; at the
     * end of the lines, None.
     */
    method Next() returns (q: Option<Query>)
      requires Valid()
      modifies this
      ensures Valid() && old(index) <= index
      ensures q.None? <==> old(Pending()) == []
      ensures q.None? ==> index == |lines|
      ensures q.Some? ==> old(index) < index && old(Pending()) == [q.value] + Pending()
    {
      q, index := FirstPresent(lines, index, LineQuery);
    }
  }

  /** The three sources the pipeline can read from. */
  datatype Source =
    | Manual(manual: ManualInput)
    | Supabase(supabase: SupabaseLogInput)
    | LogFile(logFile: LogFileInput)

  /** The object behind a source. */
  function SourceObject(src: Source): object {
    match src
    case Manual(m) => m
    case Supabase(s) => s
    case LogFile(f) => f
  }

  ghost predicate SourceValid(src: Source)
    reads SourceObject(src)
  {
    match src
    case Manual(m) => m.Valid()
    case Supabase(s) => s.Valid()
    case LogFile(f) => f.Valid()
  }

  /** The queries a source has still to hand out. */
  ghost function SourcePending(src: Source): seq<Query>
    reads SourceObject(src)
    requires SourceValid(src)
  {
    match src
    case Manual(m) => m.Pending()
    case Supabase(s) => s.Pending()
    case LogFile(f) => f.Pending()
  }

  /** How far a source is from its end: falls with every query handed out. */
  ghost function SourceRemaining(src: Source): nat
    reads SourceObject(src)
    requires SourceValid(src)
  {
    match src
    case Manual(m) => |m.queries| - m.index
    case Supabase(s) => |s.queries| - s.index
    case LogFile(f) => |f.lines| - f.index
  }

  /**
   * `qs` are the queries `src` has still to hand out.  For a log file this
   * is stated through a quantifier that only a mention of the lines' queries
   * unfolds, which keeps it cheap in proofs that only pass it along.
   */
  ghost predicate HasPending(src: Source, qs: seq<Query>)
    reads SourceObject(src)
    requires SourceValid(src)
  {
    match src
    case Manual(m) => qs == m.Pending()
    case Supabase(s) => qs == s.Pending()
    case LogFile(f) =>
      forall i {:trigger LineQueries(f.lines[i..])} :: i == f.index ==> qs == LineQueries(f.lines[i..])
  }

  /** `HasPending` describes exactly the pending queries. */
  lemma PendingIsPending(src: Source, qs: seq<Query>)
    requires SourceValid(src)
    ensures HasPending(src, qs) <==> qs == SourcePending(src)
  {
    if src.LogFile? && HasPending(src, qs) {
      assert LineQueries(src.logFile.lines[src.logFile.index..]) == src.logFile.Pending();
    }
  }

  /**
   * `anext` on any source whose pending queries are `pending`: the first of
   * them, after which the rest are pending, or None when there are none.
   */
  method NextQuery(src: Source, ghost pending: seq<Query>) returns (q: Option<Query>)
    requires SourceValid(src) && HasPending(src, pending)
    modifies SourceObject(src)
    ensures SourceValid(src)
    ensures q.None? <==> pending == []
    ensures q.None? ==> HasPending(src, [])
    ensures q.Some? ==> pending != [] && q.value == pending[0] && HasPending(src, pending[1..])
    ensures q.Some? ==> SourceRemaining(src) < old(SourceRemaining(src))
  {
    match src
    case Manual(m) =>
      q := m.Next();
    case Supabase(s) =>
      q := s.Next();
    case LogFile(f) =>
      ghost var before := f.index;
      assert pending == LineQueries(f.lines[before..]);
      q := f.Next();
      assert LineQueries(f.lines[f.index..]) == f.Pending();
  }
}
