/**
 * The PostgreSQL log-line prefix grammar of `PostgresLogLineParser`
 * (input/logfile/parser.py): a line
 * `YYYY-MM-DD HH:MM:SS TZ:client:user@db:[pid]: LEVEL: message`
 * whose message is handed to the pgaudit grammar when it starts with `AUDIT:`.
 */
module LogLineParser {
  import opened Wrappers
  import opened Text
  import opened Domain
  import opened Segments
  import opened AuditParser

  /*
   * `LOG_LINE_PATTERN`, one segment per piece, written in five stages:
   * `\d{4} - \d{2} - \d{2}`, then `\s+ \d{2} : \d{2} : \d{2}`, then `\s+ (\w+) : ([^:]*) :`,
   * then `([^:]*) : \[ (\d+) \] :`, then `\s* (\w+) : \s* (.*)$`.
   */
  const DateSegs: seq<Seg> := [Exactly(Digits, 4), Char('-'), Exactly(Digits, 2), Char('-'), Exactly(Digits, 2)]
  const TimeSegs: seq<Seg> := [Plus(Spaces), Exactly(Digits, 2), Char(':'), Exactly(Digits, 2), Char(':'), Exactly(Digits, 2)]
  const ZoneSegs: seq<Seg> := [Plus(Spaces), Plus(WordChars), Char(':'), Star(AllBut(':')), Char(':')]
  const ConnSegs: seq<Seg> := [Star(AllBut(':')), Char(':'), Char('['), Plus(Digits), Char(']'), Char(':')]
  const LevelSegs: seq<Seg> := [Star(Spaces), Plus(WordChars), Char(':'), Star(Spaces), RestOfLine]

  /** The groups of a successful `LOG_LINE_PATTERN.match`, with `ts` split into its six numbers. */
  datatype LineMatch = LineMatch(
    year: string, month: string, day: string,
    hour: string, minute: string, second: string,
    tz: string, client: string, conn: string, pid: string, level: string, message: string)

  /** What the pattern guarantees about its groups. */
  predicate Captured(lm: LineMatch) {
    && |lm.year| == 4 && AllDigits(lm.year)
    && |lm.month| == 2 && AllDigits(lm.month) && |lm.day| == 2 && AllDigits(lm.day)
    && |lm.hour| == 2 && AllDigits(lm.hour) && |lm.minute| == 2 && AllDigits(lm.minute)
    && |lm.second| == 2 && AllDigits(lm.second)
    && lm.tz != [] && (forall j :: 0 <= j < |lm.tz| ==> IsWordChar(lm.tz[j]))
    && ':' !in lm.client && ':' !in lm.conn
    && lm.pid != [] && AllDigits(lm.pid)
    && lm.level != [] && (forall j :: 0 <= j < |lm.level| ==> IsWordChar(lm.level[j]))
    && '\n' !in lm.message
  }

  /** The five stages one after another: the whole pattern. */
  const LineSegs: seq<Seg> := [
    Exactly(Digits, 4), Char('-'), Exactly(Digits, 2), Char('-'), Exactly(Digits, 2),
    Plus(Spaces), Exactly(Digits, 2), Char(':'), Exactly(Digits, 2), Char(':'), Exactly(Digits, 2),
    Plus(Spaces), Plus(WordChars), Char(':'), Star(AllBut(':')), Char(':'),
    Star(AllBut(':')), Char(':'), Char('['), Plus(Digits), Char(']'), Char(':'),
    Star(Spaces), Plus(WordChars), Char(':'), Star(Spaces), RestOfLine]

  lemma LineSegsStages()
    ensures LineSegs == DateSegs + (TimeSegs + (ZoneSegs + (ConnSegs + LevelSegs)))
  {
  }

  /** `LOG_LINE_PATTERN.match(s)`. */
  function MatchLogLine(s: string): (r: Option<LineMatch>)
    ensures r.Some? ==> Captured(r.value)
  {
    var cs :- MatchSegs(LineSegs, s, 0);
    MatchSegsShapes(LineSegs, s, 0);
    CapturedGroups(cs);
    Some(Groups(cs))
  }

  /** The groups, picked out of the captures. */
  function Groups(cs: seq<string>): LineMatch
    requires |cs| == 27
  {
    LineMatch(cs[0], cs[2], cs[4], cs[6], cs[8], cs[10], cs[12], cs[14], cs[16], cs[19], cs[23], cs[26])
  }

  lemma AllInDigits(t: string)
    requires AllIn(Digits, t)
    ensures AllDigits(t)
  {
    assert forall j :: 0 <= j < |t| ==> InClass(Digits, t[j]);
  }

  lemma AllInNotColon(t: string)
    requires AllIn(AllBut(':'), t)
    ensures ':' !in t
  {
    assert forall j :: 0 <= j < |t| ==> InClass(AllBut(':'), t[j]);
  }

  lemma CapturedGroups(cs: seq<string>)
    requires |cs| == |LineSegs|
    requires forall k :: 0 <= k < |LineSegs| ==> Shape(LineSegs[k], cs[k])
    ensures |cs| == 27
    ensures Captured(Groups(cs))
  {
    assert Shape(LineSegs[0], cs[0]) && Shape(LineSegs[2], cs[2]) && Shape(LineSegs[4], cs[4]);
    assert Shape(LineSegs[6], cs[6]) && Shape(LineSegs[8], cs[8]) && Shape(LineSegs[10], cs[10]);
    assert Shape(LineSegs[12], cs[12]) && Shape(LineSegs[14], cs[14]);
    assert Shape(LineSegs[16], cs[16]) && Shape(LineSegs[19], cs[19]);
    assert Shape(LineSegs[23], cs[23]) && Shape(LineSegs[26], cs[26]);
    AllInDigits(cs[0]); AllInDigits(cs[2]); AllInDigits(cs[4]);
    AllInDigits(cs[6]); AllInDigits(cs[8]); AllInDigits(cs[10]); AllInDigits(cs[19]);
    AllInNotColon(cs[14]); AllInNotColon(cs[16]);
  }

  /** The pieces of each stage, with exactly one space wherever the pattern allows whitespace. */
  function DatePieces(lm: LineMatch): seq<string> { [lm.year, "-", lm.month, "-", lm.day] }
  function TimePieces(lm: LineMatch): seq<string> { [" ", lm.hour, ":", lm.minute, ":", lm.second] }
  function ZonePieces(lm: LineMatch): seq<string> { [" ", lm.tz, ":", lm.client, ":"] }
  function ConnPieces(lm: LineMatch): seq<string> { [lm.conn, ":", "[", lm.pid, "]", ":"] }
  function LevelPieces(lm: LineMatch): seq<string> { [" ", lm.level, ":", " ", lm.message] }

  function LinePieces(lm: LineMatch): seq<string> {
    [lm.year, "-", lm.month, "-", lm.day,
     " ", lm.hour, ":", lm.minute, ":", lm.second,
     " ", lm.tz, ":", lm.client, ":",
     lm.conn, ":", "[", lm.pid, "]", ":",
     " ", lm.level, ":", " ", lm.message]
  }

  lemma LinePiecesStages(lm: LineMatch)
    ensures LinePieces(lm) == DatePieces(lm) + (TimePieces(lm) + (ZonePieces(lm) + (ConnPieces(lm) + LevelPieces(lm))))
  {
  }

  /** The line `YYYY-MM-DD HH:MM:SS TZ:client:conn:[pid]: LEVEL: message`. */
  function RenderLine(lm: LineMatch): string {
    Concat(LinePieces(lm))
  }

  /** Lines that are their own `strip()` and whose message starts right after the level's separator. */
  predicate WellFormedLine(lm: LineMatch) {
    && Captured(lm)
    && lm.message != [] && !IsSpace(lm.message[0]) && !IsSpace(lm.message[|lm.message| - 1])
  }

  lemma ConcatHead(ts: seq<string>)
    requires ts != [] && ts[0] != []
    ensures Concat(ts) != [] && Concat(ts)[0] == ts[0][0]
  {
  }

  lemma {:induction false} ConcatLast(ts: seq<string>)
    requires ts != [] && ts[|ts| - 1] != []
    ensures Concat(ts) != [] && Concat(ts)[|Concat(ts)| - 1] == ts[|ts| - 1][|ts[|ts| - 1]| - 1]
  {
    if |ts| > 1 {
      ConcatLast(ts[1..]);
    }
  }

  /** Every piece is what its greedy segment captures. */
  lemma PiecesFit(lm: LineMatch)
    requires WellFormedLine(lm)
    ensures AllFit(LineSegs, LinePieces(lm))
  {
    DateFits(lm);
    TimeFits(lm);
    ZoneFits(lm);
    ConnFits(lm);
    LevelFits(lm);
    assert ClosedAtEnd(DateSegs) && ClosedAtEnd(TimeSegs) && ClosedAtEnd(ZoneSegs) && ClosedAtEnd(ConnSegs);
    AllFitAppend(ConnSegs, ConnPieces(lm), LevelSegs, LevelPieces(lm));
    AllFitAppend(ZoneSegs, ZonePieces(lm), ConnSegs + LevelSegs, ConnPieces(lm) + LevelPieces(lm));
    AllFitAppend(TimeSegs, TimePieces(lm), ZoneSegs + (ConnSegs + LevelSegs),
                 ZonePieces(lm) + (ConnPieces(lm) + LevelPieces(lm)));
    AllFitAppend(DateSegs, DatePieces(lm), TimeSegs + (ZoneSegs + (ConnSegs + LevelSegs)),
                 TimePieces(lm) + (ZonePieces(lm) + (ConnPieces(lm) + LevelPieces(lm))));
    LineSegsStages();
    LinePiecesStages(lm);
  }

  lemma DateFits(lm: LineMatch)
    requires WellFormedLine(lm)
    ensures AllFit(DateSegs, DatePieces(lm))
  {
    StageFits(DateSegs, DatePieces(lm));
  }

  lemma TimeFits(lm: LineMatch)
    requires WellFormedLine(lm)
    ensures AllFit(TimeSegs, TimePieces(lm))
  {
    StageFits(TimeSegs, TimePieces(lm));
  }

  lemma ZoneFits(lm: LineMatch)
    requires WellFormedLine(lm)
    ensures AllFit(ZoneSegs, ZonePieces(lm))
  {
    StageFits(ZoneSegs, ZonePieces(lm));
  }

  lemma ConnFits(lm: LineMatch)
    requires WellFormedLine(lm)
    ensures AllFit(ConnSegs, ConnPieces(lm))
  {
    StageFits(ConnSegs, ConnPieces(lm));
  }

  lemma LevelFits(lm: LineMatch)
    requires WellFormedLine(lm)
    ensures AllFit(LevelSegs, LevelPieces(lm))
  {
    StageFits(LevelSegs, LevelPieces(lm));
  }

  /** A fit that only asks of each capture its own shape and the next capture's first character. */
  lemma {:induction false} StageFits(gs: seq<Seg>, ts: seq<string>)
    requires |gs| == |ts|
    requires forall k :: 0 <= k < |gs| ==> Shape(gs[k], ts[k])
    requires forall k :: 0 <= k < |gs| - 1 ==> (gs[k].Plus? || gs[k].Star?) ==>
               ts[k + 1] != [] && !InClass(gs[k].k, ts[k + 1][0])
    requires forall k :: 0 <= k < |gs| - 1 ==> !gs[k].RestOfLine?
    ensures AllFit(gs, ts)
    decreases |gs|
  {
    if gs != [] {
      if |gs| > 1 {
        assert ts[1..][0] == ts[1];
      } else {
        assert ts[1..] == [];
      }
      assert FitsBefore(gs[0], ts[0], ts[1..]);
      StageFits(gs[1..], ts[1..]);
    }
  }

  /** A rendered well-formed line matches with its own groups. */
  lemma MatchRenderedLine(lm: LineMatch)
    requires WellFormedLine(lm)
    ensures MatchLogLine(RenderLine(lm)) == Some(lm)
  {
    RenderedSegs(lm);
    MatchLogLineOf(RenderLine(lm), LinePieces(lm));
    GroupsOfPieces(lm);
  }

  lemma RenderedSegs(lm: LineMatch)
    requires WellFormedLine(lm)
    ensures MatchSegs(LineSegs, RenderLine(lm), 0) == Some(LinePieces(lm))
  {
    PiecesFit(lm);
    MatchWholeConcat(LineSegs, LinePieces(lm));
  }

  /** Captures that fit their segments are what matching their concatenation gives back. */
  lemma MatchWholeConcat(gs: seq<Seg>, ts: seq<string>)
    requires AllFit(gs, ts)
    ensures MatchSegs(gs, Concat(ts), 0) == Some(ts)
  {
    var s := Concat(ts);
    assert s[0..] == Concat(ts) + [];
    MatchConcat(gs, ts, s, 0, []);
  }

  lemma MatchLogLineOf(s: string, cs: seq<string>)
    requires MatchSegs(LineSegs, s, 0) == Some(cs)
    ensures |cs| == 27 && MatchLogLine(s) == Some(Groups(cs))
  {
    MatchSegsShapes(LineSegs, s, 0);
    CapturedGroups(cs);
  }

  lemma GroupsOfPieces(lm: LineMatch)
    ensures Groups(LinePieces(lm)) == lm
  {
  }

  /** A rendered well-formed line has no surrounding whitespace. */
  lemma RenderedLineStripped(lm: LineMatch)
    requires WellFormedLine(lm)
    ensures Strip(RenderLine(lm)) == RenderLine(lm)
  {
    var s := RenderLine(lm);
    var ps := LinePieces(lm);
    ConcatHead(ps);
    ConcatLast(ps);
    assert s[0] == lm.year[0];
    assert s[|s| - 1] == lm.message[|lm.message| - 1];
    StripNoop(s);
  }

  // ---------------------------------------------------------------------
  // `_parse_user_db`
  // ---------------------------------------------------------------------

  /**
   * `USER_DB_PATTERN = ^([^@]+)(?:@(.+))?$` on the stripped connection
   * field: user up to the first `@`, database after it; a field starting
   * with `@`, or whose database part is empty or spans a newline, does not
   * match.
   */
  function ParseUserDb(conn: string): (r: (Option<string>, Option<string>))
    ensures conn == [] ==> r == (None, None)
    ensures r.0.None? ==> r.1.None?
    ensures r.0.Some? ==> r.0.value != [] && '@' !in r.0.value
    ensures r.1.Some? ==> conn == r.0.value + "@" + r.1.value
    ensures r.0.Some? && r.1.None? ==> conn == r.0.value
  {
    if conn == [] then (None, None)
    else
      var i := IndexOf(conn, '@');
      if i == 0 then (None, None)
      else if i == |conn| then (Some(conn), None)
      else
        var db := conn[i + 1..];
        if db != [] && '\n' !in db then
          assert conn == conn[..i] + "@" + db;
          (Some(conn[..i]), Some(db))
        else (None, None)
  }

  /** `u@d` splits at its first `@`. */
  lemma UserDbSplit(u: string, d: string)
    requires u != [] && '@' !in u && d != [] && '\n' !in d
    ensures ParseUserDb(u + "@" + d) == (Some(u), Some(d))
  {
    var conn := u + "@" + d;
    IndexOfConcat(u, '@', d);
    assert conn[..|u|] == u;
    assert conn[|u| + 1..] == d;
  }

  /** A field without `@` is all user. */
  lemma UserOnly(u: string)
    requires u != [] && '@' !in u
    ensures ParseUserDb(u) == (Some(u), None)
  {
  }

  /** A field starting with `@` has no user and so no database. */
  lemma NoUser(d: string)
    ensures ParseUserDb("@" + d) == (None, None)
  {
    assert ("@" + d)[0] == '@';
  }

  // ---------------------------------------------------------------------
  // `_parse_timestamp`
  // ---------------------------------------------------------------------

  predicate IsLeap(y: int) {
    y % 4 == 0 && (y % 100 != 0 || y % 400 == 0)
  }

  function DaysInMonth(y: int, m: int): (n: int)
    requires 1 <= m <= 12
    ensures 28 <= n <= 31
  {
    if m == 2 then (if IsLeap(y) then 29 else 28)
    else if m == 4 || m == 6 || m == 9 || m == 11 then 30
    else 31
  }

  /**
   * The fields `datetime.strptime(ts, "%Y-%m-%d %H:%M:%S")` accepts: a
   * year from 1, a real calendar day, and a time of day without leap seconds.
   */
  predicate ValidCivil(y: int, mo: int, d: int, h: int, mi: int, s: int) {
    && 1 <= y
    && 1 <= mo <= 12 && 1 <= d <= DaysInMonth(y, mo)
    && 0 <= h <= 23 && 0 <= mi <= 59 && 0 <= s <= 59
  }

  /** Days from 1970-01-01 to a proleptic Gregorian date. */
  function DaysFromCivil(y: int, m: int, d: int): int
    requires 1 <= y && 1 <= m <= 12
  {
    var yy := if m <= 2 then y - 1 else y;
    var era := yy / 400;
    var yoe := yy - era * 400;
    var doy := (153 * (if m > 2 then m - 3 else m + 9) + 2) / 5 + d - 1;
    var doe := yoe * 365 + yoe / 4 - yoe / 100 + doy;
    era * 146097 + doe - 719468
  }

  /** Microseconds since 1970-01-01 00:00:00 on the clock the fields are read in. */
  function EpochMicros(y: int, mo: int, d: int, h: int, mi: int, s: int): int
    requires 1 <= y && 1 <= mo <= 12
  {
    ((DaysFromCivil(y, mo, d) * 24 + h) * 60 + mi) * 60 * 1000000 + s * 1000000
  }

  /** The conversion is anchored at the Unix epoch. */
  lemma EpochIsZero()
    ensures EpochMicros(1970, 1, 1, 0, 0, 0) == 0
  {
  }

  /** Consecutive days of a month are consecutive day numbers. */
  lemma NextDay(y: int, mo: int, d: int)
    requires 1 <= y && 1 <= mo <= 12
    ensures DaysFromCivil(y, mo, d + 1) == DaysFromCivil(y, mo, d) + 1
  {
  }

  /** New Year's Day follows the last day of December. */
  lemma NewYear(y: int)
    requires 1 <= y
    ensures DaysFromCivil(y + 1, 1, 1) == DaysFromCivil(y, 12, 31) + 1
  {
    var era := y / 400;
    var yoe := y - era * 400;
    assert DaysFromCivil(y + 1, 1, 1) == era * 146097 + yoe * 365 + yoe / 4 - yoe / 100 + 306 - 719468;
    assert DaysFromCivil(y, 12, 31) == era * 146097 + yoe * 365 + yoe / 4 - yoe / 100 + 305 - 719468;
  }

  /** The quotient and the leap-year residues of `400 * q + r`. */
  lemma Split400(y: int, q: int, r: int)
    requires y == 400 * q + r && 0 <= r < 400
    ensures y / 400 == q && y - (y / 400) * 400 == r
    ensures y % 4 == r % 4 && y % 100 == r % 100 && y % 400 == r
  {
    Div400(y, q, r);
    Div4(y, 100 * q + r / 4, r % 4);
    Div100(y, 4 * q + r / 100, r % 100);
  }

  /** Euclidean division by 4 is fixed by any quotient and remainder that add up. */
  lemma Div4(y: int, a: int, b: int)
    requires y == 4 * a + b && 0 <= b < 4
    ensures y / 4 == a && y % 4 == b
  {
    var d := y / 4 - a;
    assert 4 * d == b - y % 4;
    assert -1 < d < 1;
  }

  /** The same for 100. */
  lemma Div100(y: int, a: int, b: int)
    requires y == 100 * a + b && 0 <= b < 100
    ensures y / 100 == a && y % 100 == b
  {
    var d := y / 100 - a;
    assert 100 * d == b - y % 100;
    assert -1 < d < 1;
  }

  /** The same for 400. */
  lemma Div400(y: int, a: int, b: int)
    requires y == 400 * a + b && 0 <= b < 400
    ensures y / 400 == a && y % 400 == b
  {
    var d := y / 400 - a;
    assert 400 * d == b - y % 400;
    assert -1 < d < 1;
  }

  /** The first of March follows the last day of February, 28th or 29th. */
  lemma MarchFirst(y: int)
    requires 1 <= y
    ensures DaysFromCivil(y, 3, 1) == DaysFromCivil(y, 2, DaysInMonth(y, 2)) + 1
  {
    var q := y / 400;
    var r := y - q * 400;
    Split400(y, q, r);
    if r == 0 {
      EraMarch(y, q);
    } else {
      InEraMarch(y, q, r);
      FebruaryLength(y, q, r);
    }
  }

  /** March 1 and February 29 of a year divisible by 400, in days. */
  lemma EraMarch(y: int, q: int)
    requires 1 <= y && y == 400 * q
    ensures DaysFromCivil(y, 3, 1) == q * 146097 - 719468
    ensures DaysFromCivil(y, 2, DaysInMonth(y, 2)) == (q - 1) * 146097 + 399 * 365 + 99 - 3 + 336 + 29 - 719468
  {
    Split400(y, q, 0);
    Split400(y - 1, q - 1, 399);
    assert IsLeap(y);
  }

  /** March 1 and the end of February of a year inside a 400-year era, in days. */
  lemma InEraMarch(y: int, q: int, r: int)
    requires 1 <= y && y == 400 * q + r && 1 <= r < 400
    ensures DaysFromCivil(y, 3, 1) == q * 146097 + r * 365 + r / 4 - r / 100 - 719468
    ensures DaysFromCivil(y, 2, DaysInMonth(y, 2))
         == q * 146097 + (r - 1) * 365 + (r - 1) / 4 - (r - 1) / 100 + 336 + DaysInMonth(y, 2) - 719468
  {
    Split400(y, q, r);
    Split400(y - 1, q, r - 1);
  }

  /** February has a 29th exactly when the step of `r / 4 - r / 100` adds a day. */
  lemma FebruaryLength(y: int, q: int, r: int)
    requires y == 400 * q + r && 1 <= r < 400
    ensures DaysInMonth(y, 2) == 28 + (r / 4 - (r - 1) / 4) - (r / 100 - (r - 1) / 100)
  {
    Split400(y, q, r);
    if r % 100 == 0 {
      Div100(r - 1, r / 100 - 1, 99);
      Div4(r, 25 * (r / 100), 0);
      Div4(r - 1, r / 4 - 1, 3);
    } else if r % 4 == 0 {
      Div100(r - 1, r / 100, r % 100 - 1);
      Div4(r - 1, r / 4 - 1, 3);
    } else {
      Div100(r - 1, r / 100, r % 100 - 1);
      Div4(r - 1, r / 4, r % 4 - 1);
    }
  }

  /** The first of a month follows the last day of the month before, within a year. */
  lemma MonthStep(y: int, m: int)
    requires 1 <= y && 1 <= m < 12
    ensures DaysFromCivil(y, m + 1, 1) == DaysFromCivil(y, m, DaysInMonth(y, m)) + 1
  {
    if m == 2 {
      MarchFirst(y);
    }
  }

  /** `_parse_timestamp`; `None` is the ValueError `strptime` raises on an impossible date or time. */
  function ParseTimestamp(lm: LineMatch): (r: Option<DateTime>)
    requires Captured(lm)
    ensures r.Some? <==> ValidCivil(DecimalValue(lm.year), DecimalValue(lm.month), DecimalValue(lm.day),
                                    DecimalValue(lm.hour), DecimalValue(lm.minute), DecimalValue(lm.second))
    ensures r.Some? ==> (r.value.offset == Some(0) <==> Upper(lm.tz) == "UTC")
    ensures r.Some? ==> (r.value.offset.None? <==> Upper(lm.tz) != "UTC")
  {
    var y, mo, d := DecimalValue(lm.year), DecimalValue(lm.month), DecimalValue(lm.day);
    var h, mi, s := DecimalValue(lm.hour), DecimalValue(lm.minute), DecimalValue(lm.second);
    if !ValidCivil(y, mo, d, h, mi, s) then None
    else
      var micros := EpochMicros(y, mo, d, h, mi, s);
      Some(DateTime(micros, if Upper(lm.tz) == "UTC" then Some(0) else None))
  }

  /** Lower-case `utc` is tagged UTC as well. */
  lemma LowerUtcTagged()
    ensures Upper("utc") == "UTC"
    ensures Upper("EST") != "UTC"
  {
  }

  // ---------------------------------------------------------------------
  // `_parse_prefix` and `parse_line`
  // ---------------------------------------------------------------------

  datatype LogLinePrefix = LogLinePrefix(
    timestamp: DateTime,
    clientAddr: Option<string>,
    userName: Option<string>,
    databaseName: Option<string>,
    processId: Option<nat>,
    logLevel: string)

  /** `_parse_prefix`; `None` when the timestamp cannot be parsed. */
  function ParsePrefix(lm: LineMatch): (r: Option<LogLinePrefix>)
    requires Captured(lm)
    ensures r.Some? <==> ParseTimestamp(lm).Some?
    ensures r.Some? ==> r.value.timestamp == ParseTimestamp(lm).value
    ensures r.Some? ==> r.value.clientAddr == NoneIfEmpty(Strip(lm.client))
    ensures r.Some? ==> (r.value.userName, r.value.databaseName) == ParseUserDb(Strip(lm.conn))
    ensures r.Some? ==> r.value.processId == Some(DecimalValue(lm.pid)) && r.value.logLevel == lm.level
  {
    var ts :- ParseTimestamp(lm);
    var (user, db) := ParseUserDb(Strip(lm.conn));
    Some(LogLinePrefix(ts, NoneIfEmpty(Strip(lm.client)), user, db, Some(DecimalValue(lm.pid)), lm.level))
  }

  /** `str(process_id) if process_id else None`: a pid of 0 gives no session. */
  function SessionId(pid: Option<nat>): (r: Option<string>)
    ensures r.Some? <==> pid.Some? && pid.value != 0
    ensures r.Some? ==> AllDigits(r.value) && DecimalValue(r.value) == pid.value
  {
    match pid
    case Some(n) => if n != 0 then Some(NatToString(n)) else None
    case None => None
  }

  /** The audit entry of a line: the message's audit fields plus the prefix's. */
  function WithPrefix(parsed: ParsedAuditLog, prefix: LogLinePrefix): ParsedAuditLog {
    parsed.(timestamp := Some(prefix.timestamp),
            userName := prefix.userName,
            databaseName := prefix.databaseName,
            sessionId := SessionId(prefix.processId))
  }

  /** The stripped line's match, if it is not empty. */
  function LineOf(line: string): Option<LineMatch> {
    var s := Strip(line);
    if s == [] then None else MatchLogLine(s)
  }

  /** An audit line: it matches and its message starts with `AUDIT:`. */
  predicate IsAuditLine(line: string) {
    LineOf(line).Some? && StartsWith(LineOf(line).value.message, "AUDIT:")
  }

  /**
   * `parse_line` with an unparseable timestamp treated as "not an audit line".
   * This is the variant the file adapter uses (see the finding in the README).
   */
  function ParseLine(line: string): (r: Option<ParsedAuditLog>)
    ensures Strip(line) == [] ==> r == None
    ensures !IsAuditLine(line) ==> r == None
    ensures r.Some? <==>
      && IsAuditLine(line)
      && ParsePrefix(LineOf(line).value).Some?
      && ParseEventMessage(LineOf(line).value.message).Some?
    ensures r.Some? ==> r.value == WithPrefix(ParseEventMessage(LineOf(line).value.message).value,
                                              ParsePrefix(LineOf(line).value).value)
  {
    var lm :- LineOf(line);
    if !StartsWith(lm.message, "AUDIT:") then None
    else
      var prefix :- ParsePrefix(lm);
      var parsed :- ParseEventMessage(lm.message);
      Some(WithPrefix(parsed, prefix))
  }

  /** The three ways `parse_line` as written can end. */
  datatype LineOutcome = Skipped | Entry(log: ParsedAuditLog) | Raised

  /** `parse_line` as written: an impossible date propagates `strptime`'s ValueError. */
  function ParseLineAsWritten(line: string): (r: LineOutcome)
    ensures r.Raised? <==> IsAuditLine(line) && ParsePrefix(LineOf(line).value).None?
  {
    match LineOf(line)
    case None => Skipped
    case Some(lm) =>
      if !StartsWith(lm.message, "AUDIT:") then Skipped
      else match ParsePrefix(lm)
        case None => Raised
        case Some(prefix) =>
          match ParseEventMessage(lm.message)
          case None => Skipped
          case Some(parsed) => Entry(WithPrefix(parsed, prefix))
  }

  /** Where `parse_line` returns, the corrected parser returns the same. */
  lemma CorrectedAgrees(line: string)
    ensures ParseLineAsWritten(line).Entry? <==> ParseLine(line).Some?
    ensures ParseLineAsWritten(line).Entry? ==> ParseLine(line) == Some(ParseLineAsWritten(line).log)
    ensures ParseLineAsWritten(line).Raised? ==> ParseLine(line) == None
  {
  }

  /** An audit line dated the thirteenth month. */
  const BadMonthLine: LineMatch := LineMatch(
    "2020", "13", "01", "00", "00", "00", "UTC", "", "u", "7", "LOG", "AUDIT:")

  lemma BadMonthWellFormed()
    ensures WellFormedLine(BadMonthLine)
  {
    var lm := BadMonthLine;
    assert AllDigits(lm.year) && AllDigits(lm.month) && AllDigits(lm.day);
    assert AllDigits(lm.hour) && AllDigits(lm.minute) && AllDigits(lm.second) && AllDigits(lm.pid);
    assert '\n' !in lm.message;
  }

  lemma BadMonthIsAudit()
    ensures StartsWith(BadMonthLine.message, "AUDIT:")
  {
  }

  lemma BadMonthInvalid()
    requires Captured(BadMonthLine)
    ensures ParsePrefix(BadMonthLine).None?
  {
    var m := BadMonthLine.month;
    assert m[..1] == "1" && m[..1][..0] == [];
    assert DecimalValue(m) == 13;
  }

  /** A rendered well-formed line is its own stripped match. */
  lemma LineOfRendered(lm: LineMatch)
    requires WellFormedLine(lm)
    ensures LineOf(RenderLine(lm)) == Some(lm)
  {
    RenderedLineStripped(lm);
    MatchRenderedLine(lm);
    assert RenderLine(lm) != [] by { ConcatHead(LinePieces(lm)); }
  }

  /** The line `2020-13-01 00:00:00 UTC::u:[7]: LOG: AUDIT:` makes `parse_line` raise instead of returning `None`. */
  lemma BadMonthRaises()
    ensures ParseLineAsWritten(RenderLine(BadMonthLine)) == Raised
    ensures ParseLine(RenderLine(BadMonthLine)) == None
  {
    BadMonthWellFormed();
    BadMonthIsAudit();
    BadMonthInvalid();
    LineOfRendered(BadMonthLine);
  }

  /** A well-formed line with a valid timestamp carries exactly its message's audit entry. */
  lemma ParseRenderedLine(lm: LineMatch)
    requires WellFormedLine(lm) && StartsWith(lm.message, "AUDIT:")
    requires ParseTimestamp(lm).Some?
    ensures ParseLine(RenderLine(lm)) ==
      match ParseEventMessage(lm.message)
      case None => None
      case Some(parsed) => Some(WithPrefix(parsed, ParsePrefix(lm).value))
  {
    LineOfRendered(lm);
  }
}
