/**
 * The parts of `SupabaseLogClient` that do not touch the network: the
 * time-range check of `LogQueryParams`, the defaults and clamps applied by
 * `query_logs` and `query_recent_audit_logs`, and the unwrapping of the
 * response body by `_extract_rows`.
 */
module LogClient {
  import opened Wrappers
  import opened Domain
  import opened Text
  import AuditParser

  const MinuteMicros: int := 60 * 1_000_000
  const DayMicros: int := 24 * 60 * MinuteMicros
  /** The most rows the logs service returns for one query. */
  const MaxRows: int := 1000
  /** The longest look-back `query_recent_audit_logs` allows, in minutes. */
  const MaxLookbackMinutes: int := 60

  datatype LogQueryParams = LogQueryParams(startTime: DateTime, endTime: DateTime, sql: Option<string>, limit: int)

  /** Why `validate` raises. */
  datatype ParamsError =
    | IncomparableTimes   // one time is naive and the other aware: Python's TypeError
    | EndNotAfterStart    // "end_time must be after start_time"
    | RangeTooLong        // "Time range cannot exceed 24 hours"

  /** Python orders two datetimes only when both are naive or both are aware. */
  predicate Comparable(a: DateTime, b: DateTime) {
    a.offset.Some? == b.offset.Some?
  }

  /** `end_time - start_time` in microseconds, for comparable times. */
  function Span(p: LogQueryParams): int {
    p.endTime.Instant() - p.startTime.Instant()
  }

  /** `LogQueryParams.validate`: None when the range is accepted, else why it is not. */
  function Validate(p: LogQueryParams): (r: Option<ParamsError>)
    ensures r == Some(IncomparableTimes) <==> !Comparable(p.startTime, p.endTime)
    ensures Comparable(p.startTime, p.endTime) ==>
      && (r == Some(EndNotAfterStart) <==> Span(p) <= 0)
      && (r == Some(RangeTooLong) <==> 0 < Span(p) && Span(p) > DayMicros)
      && (r.None? <==> 0 < Span(p) <= DayMicros)
  {
    if !Comparable(p.startTime, p.endTime) then Some(IncomparableTimes)
    else if p.endTime.Instant() <= p.startTime.Instant() then Some(EndNotAfterStart)
    else if Span(p) > DayMicros then Some(RangeTooLong)
    else None
  }

  /** `dt - timedelta(microseconds=d)`: the same kind of datetime, `d` earlier. */
  function Before(dt: DateTime, d: int): (r: DateTime)
    ensures r.offset == dt.offset && r.Instant() == dt.Instant() - d
  {
    DateTime(dt.micros - d, dt.offset)
  }

  /**
   * The parameters `query_logs` builds: the end defaults to `now`, the start
   * to one minute before the end, and the limit is capped at 1000.
   */
  function QueryParams(now: DateTime, startTime: Option<DateTime>, endTime: Option<DateTime>, sql: Option<string>, limit: int): (r: LogQueryParams)
    ensures r.endTime == endTime.GetOr(now)
    ensures startTime.Some? ==> r.startTime == startTime.value
    ensures startTime.None? ==> r.startTime.offset == r.endTime.offset && Span(r) == MinuteMicros
    ensures r.limit <= MaxRows && (r.limit == limit || r.limit == MaxRows)
    ensures limit <= MaxRows ==> r.limit == limit
    ensures r.sql == sql
  {
    var end := endTime.GetOr(now);
    var start := startTime.GetOr(Before(end, MinuteMicros));
    LogQueryParams(start, end, sql, if limit <= MaxRows then limit else MaxRows)
  }

  /** What `query_logs` does before the request: the parameters it sends, or why `validate` raised. */
  function PrepareQuery(now: DateTime, startTime: Option<DateTime>, endTime: Option<DateTime>, sql: Option<string>, limit: int)
    : (r: Result<LogQueryParams, ParamsError>)
    ensures r.Ok? <==> Validate(QueryParams(now, startTime, endTime, sql, limit)).None?
    ensures r.Ok? ==> r.value == QueryParams(now, startTime, endTime, sql, limit)
    ensures r.Err? ==> Some(r.error) == Validate(QueryParams(now, startTime, endTime, sql, limit))
  {
    var p := QueryParams(now, startTime, endTime, sql, limit);
    match Validate(p)
    case Some(e) => Err(e)
    case None => Ok(p)
  }

  /** Without a start time the one-minute default range always passes `validate`. */
  lemma DefaultRangeValid(now: DateTime, endTime: Option<DateTime>, sql: Option<string>, limit: int)
    ensures PrepareQuery(now, None, endTime, sql, limit).Ok?
  {
    var p := QueryParams(now, None, endTime, sql, limit);
    assert Comparable(p.startTime, p.endTime) && Span(p) == MinuteMicros;
  }

  /** A range of exactly 24 hours is accepted; one microsecond more is not. */
  lemma DayBoundary(start: DateTime)
    ensures Validate(LogQueryParams(start, Before(start, -DayMicros), None, MaxRows)).None?
    ensures Validate(LogQueryParams(start, Before(start, -DayMicros - 1), None, MaxRows)) == Some(RangeTooLong)
  {
    assert Span(LogQueryParams(start, Before(start, -DayMicros), None, MaxRows)) == DayMicros;
    assert Span(LogQueryParams(start, Before(start, -DayMicros - 1), None, MaxRows)) == DayMicros + 1;
  }

  /**
   * `query_recent_audit_logs`: the range ending `now` and reaching back
   * `minutes` minutes, but never more than 60, passed to `query_logs`.
   */
  function RecentAuditQuery(now: DateTime, minutes: int, limit: int): (r: Result<LogQueryParams, ParamsError>)
    ensures 0 < minutes ==> r.Ok? && r.value.endTime == now
    ensures 0 < minutes ==> Span(r.value) == (if minutes <= MaxLookbackMinutes then minutes else MaxLookbackMinutes) * MinuteMicros
    ensures minutes <= 0 ==> r == Err(EndNotAfterStart)
  {
    var lookback := if minutes <= MaxLookbackMinutes then minutes else MaxLookbackMinutes;
    PrepareQuery(now, Some(Before(now, lookback * MinuteMicros)), Some(now), None, limit)
  }

  /** `DEFAULT_SQL` up to its `{limit}` placeholder. */
  const DefaultSqlHead: string :=
    "\n        SELECT\n            timestamp,\n            event_message,\n            metadata\n"
    + "        FROM postgres_logs\n        WHERE event_message LIKE 'AUDIT%'\n"
    + "        ORDER BY timestamp DESC\n        LIMIT "
  /** `DEFAULT_SQL` after its `{limit}` placeholder. */
  const DefaultSqlTail: string := "\n    "

  /** `sql or DEFAULT_SQL.format(limit=params.limit)`: the text sent as the query. */
  function QuerySql(p: LogQueryParams): (r: string)
    ensures p.sql.Some? && p.sql.value != [] ==> r == p.sql.value
    ensures p.sql.None? || p.sql.value == [] ==>
      && |DefaultSqlHead| + |DefaultSqlTail| < |r|
      && r[..|DefaultSqlHead|] == DefaultSqlHead
      && r[|r| - |DefaultSqlTail|..] == DefaultSqlTail
      && r[|DefaultSqlHead|..|r| - |DefaultSqlTail|] == IntToString(p.limit)
  {
    if p.sql.Some? && p.sql.value != [] then p.sql.value
    else
      var digits := IntToString(p.limit);
      var r := DefaultSqlHead + digits + DefaultSqlTail;
      assert r[..|DefaultSqlHead|] == DefaultSqlHead;
      assert r[|r| - |DefaultSqlTail|..] == DefaultSqlTail;
      assert r[|DefaultSqlHead|..|r| - |DefaultSqlTail|] == digits;
      r
  }

  /** The default query text determines the row limit it asks for. */
  lemma DefaultSqlLimit(p: LogQueryParams, q: LogQueryParams)
    requires p.sql.None? && q.sql.None?
    requires QuerySql(p) == QuerySql(q)
    ensures p.limit == q.limit
  {
    var r := QuerySql(p);
    IntToStringInjective(p.limit, q.limit);
  }

  // ---------------------------------------------------------------------
  // `_extract_rows`.

  type Json = AuditParser.Value

  /** The keys `_extract_rows` looks under, in the order it tries them. */
  const RowKeys: seq<string> := ["result", "data", "rows"]

  /**
   * `_extract_rows`: a list is the rows; an object is unwrapped through its
   * first key among `result`, `data`, `rows`; anything else has no rows.
   */
  function ExtractRows(data: Json): (r: seq<Json>)
    ensures data.VList? ==> r == data.items
    ensures !data.VList? && !data.VDict? ==> r == []
    ensures data.VDict? && (forall k :: k in RowKeys ==> k !in data.fields) ==> r == []
  {
    match data
    case VList(items) => items
    case VDict(fields) =>
      if "result" in fields then ExtractRows(fields["result"])
      else if "data" in fields then ExtractRows(fields["data"])
      else if "rows" in fields then ExtractRows(fields["rows"])
      else []
    case _ => []
  }

  /** The value reached from `data` by following the keys of `path`, if every step exists. */
  function Follow(data: Json, path: seq<string>): Option<Json>
    decreases |path|
  {
    if path == [] then Some(data)
    else if data.VDict? && path[0] in data.fields then Follow(data.fields[path[0]], path[1..])
    else None
  }

  /** The key `_extract_rows` takes from an object, if any. */
  function ChosenKey(fields: map<string, Json>): Option<string> {
    if "result" in fields then Some("result")
    else if "data" in fields then Some("data")
    else if "rows" in fields then Some("rows")
    else None
  }

  /**
   * A non-empty answer of `_extract_rows` is the list found by following,
   * from the top, the first present key among `result`, `data`, `rows` at
   * each level.
   */
  lemma {:induction false} ExtractRowsFound(data: Json) returns (path: seq<string>)
    ensures Follow(data, path).Some? && Follow(data, path).value.VList? ==>
              ExtractRows(data) == Follow(data, path).value.items
    ensures ExtractRows(data) != [] ==> Follow(data, path) == Some(AuditParser.VList(ExtractRows(data)))
    ensures forall i :: 0 <= i < |path| ==> path[i] in RowKeys
    ensures forall i :: 0 <= i < |path| ==>
      Follow(data, path[..i]).Some? && Follow(data, path[..i]).value.VDict?
      && ChosenKey(Follow(data, path[..i]).value.fields) == Some(path[i])
  {
    match data
    case VDict(fields) =>
      if ChosenKey(fields).Some? {
        var key := ChosenKey(fields).value;
        var rest := ExtractRowsFound(fields[key]);
        path := [key] + rest;
        assert path[1..] == rest;
        forall i | 0 <= i < |path|
          ensures Follow(data, path[..i]).Some? && Follow(data, path[..i]).value.VDict?
                  && ChosenKey(Follow(data, path[..i]).value.fields) == Some(path[i])
        {
          if i > 0 {
            assert path[..i][0] == key && path[..i][1..] == rest[..i - 1];
            assert path[i] == rest[i - 1];
          } else {
            assert path[..i] == [];
          }
        }
      } else {
        path := [];
      }
    case _ =>
      path := [];
  }
}
