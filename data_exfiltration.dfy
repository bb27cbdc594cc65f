/**
 * `DataExfiltrationAnalyzer`: a stateless detector with a two-tier table of
 * export and sensitive-data rules plus two numeric checks, on the first
 * `LIMIT n` and on the first `OFFSET n` of the statement.
 */
module DataExfiltration {
  import opened Wrappers
  import opened Text
  import opened Domain
  import opened Patterns
  import opened Detection

  const Name := "data_exfiltration"
  const MessagePrefix := "Data exfiltration pattern detected: "

  /** `SENSITIVE_TABLES`, the non-capturing group `(?:users|credentials|payments|secrets|tokens)`. */
  const SensitiveTables: seq<string> := ["users", "credentials", "payments", "secrets", "tokens"]

  /** `\bNAME\b`: a sensitive column mentioned as a whole word. */
  function Column(name: string): Pattern {
    [Boundary, Lit(name), Boundary]
  }

  /** `\bINTO\s+TARGET\b`. */
  function Into(target: string): Pattern {
    [Boundary, Lit("INTO")] + Some1(Spaces) + [Lit(target), Boundary]
  }

  const HighRules: seq<Rule> := [
    Rule([Lit("SELECT")] + Some1(Spaces) + [Lit("*")] + Some1(Spaces) + [Lit("FROM")] + Some1(Spaces)
           + [AnyOf(SensitiveTables), Boundary],
      "SELECT * from sensitive table"),
    Rule(Into("OUTFILE"), "INTO OUTFILE export"),
    Rule(Into("DUMPFILE"), "INTO DUMPFILE export"),
    Rule([Boundary, Lit("COPY")] + Some1(Spaces) + Some1(WordChars) + Some1(Spaces) + [Lit("TO"), Boundary],
      "COPY TO export")
  ]

  const MediumRules: seq<Rule> := [
    Rule(Column("password"), "sensitive column: password"),
    Rule(Column("secret"), "sensitive column: secret"),
    Rule(Column("token"), "sensitive column: token"),
    Rule(Column("api_key"), "sensitive column: api_key"),
    Rule(Column("credit_card"), "sensitive column: credit_card"),
    Rule(Column("ssn"), "sensitive column: ssn"),
    Rule(Column("private_key"), "sensitive column: private_key")
  ]

  /** `_patterns`, whose LOW tier is empty. */
  const Table: seq<Tier> := [Tier(High, HighRules), Tier(Medium, MediumRules), Tier(Low, [])]

  /** The tiers `analyze` visits: HIGH, then MEDIUM. */
  const Scanned: seq<Tier> := [Tier(High, HighRules), Tier(Medium, MediumRules)]

  /** Skipping the empty LOW tier loses nothing. */
  lemma ScannedIsTable(sql: string)
    ensures TableHits(Scanned, sql) == TableHits(Table, sql)
  {
    assert Table[..|Table| - 1] == Scanned;
  }

  /** The scanned tiers run from HIGH down and neither is LOW. */
  lemma ScannedShape()
    ensures Descending(Scanned)
    ensures forall t :: 0 <= t < |Scanned| ==> Scanned[t].severity != Low
  {
  }

  /** The LOW entry for a first `LIMIT n` with `n > 1000`. */
  function LimitHit(sql: string): seq<Match> {
    match FirstNumber("LIMIT", sql)
    case Some(digits) =>
      if DecimalValue(digits) > 1000 then [Match(Low, "large LIMIT: " + digits)] else []
    case None => []
  }

  /** The LOW entry for a first `OFFSET n` with `n > 0`. */
  function OffsetHit(sql: string): seq<Match> {
    match FirstNumber("OFFSET", sql)
    case Some(digits) =>
      if DecimalValue(digits) > 0 then [Match(Low, "OFFSET pagination: " + digits)] else []
    case None => []
  }

  /** The `matches` list of `analyze`. */
  function AllHits(sql: string): seq<Match> {
    TableHits(Scanned, sql) + LimitHit(sql) + OffsetHit(sql)
  }

  /** What `analyze` returns for a statement. */
  function Verdict(sql: string): Option<Finding> {
    BuildFinding(Name, MessagePrefix, AllHits(sql))
  }

  /** `analyze`: the tier loop, then the two conditional appends. */
  method Analyze(query: Query) returns (r: Option<Finding>)
    ensures r == Verdict(query.sql)
  {
    var sql := query.sql;
    var matches := ScanTiers(Scanned, sql);
    var limit := FirstNumber("LIMIT", sql);
    if limit.Some? && DecimalValue(limit.value) > 1000 {
      matches := matches + [Match(Low, "large LIMIT: " + limit.value)];
    }
    assert matches == TableHits(Scanned, sql) + LimitHit(sql);
    var offset := FirstNumber("OFFSET", sql);
    if offset.Some? && DecimalValue(offset.value) > 0 {
      matches := matches + [Match(Low, "OFFSET pagination: " + offset.value)];
    }
    assert matches == AllHits(sql);
    r := BuildFinding(Name, MessagePrefix, matches);
  }

  // ---------------------------------------------------------------------
  // Properties of the detector.

  /** The first `LIMIT` value is absent or at most 1000. */
  predicate SmallLimit(sql: string) {
    var l := FirstNumber("LIMIT", sql);
    l.None? || DecimalValue(l.value) <= 1000
  }

  /** The first `OFFSET` value is absent or zero. */
  predicate NoOffset(sql: string) {
    var o := FirstNumber("OFFSET", sql);
    o.None? || DecimalValue(o.value) == 0
  }

  /** No finding exactly when no HIGH or MEDIUM rule matches, the first LIMIT is small and the first OFFSET is zero. */
  lemma NoneIff(sql: string)
    ensures Verdict(sql).None? <==>
      (forall t, r :: !RuleMatches(Scanned, t, r, sql)) && SmallLimit(sql) && NoOffset(sql)
  {
    TableHitsEmpty(Scanned, sql);
  }

  /** The tier hits are HIGH or MEDIUM; the LOW entries only come from the numeric checks, which follow them. */
  lemma SeverityOrder(sql: string)
    ensures forall n :: 0 <= n < |TableHits(Scanned, sql)| ==> TableHits(Scanned, sql)[n].severity != Low
    ensures NonIncreasing(AllHits(sql))
    ensures forall m :: m in AllHits(sql) && m.severity == Low ==> m in LimitHit(sql) + OffsetHit(sql)
  {
    ScannedShape();
    var tail := LimitHit(sql) + OffsetHit(sql);
    assert AllHits(sql) == TableHits(Scanned, sql) + tail;
    AppendLow(Scanned, sql, tail);
  }

  /**
   * A finding names the analyzer, lists the table hits first and the LIMIT
   * and OFFSET entries after them, and its severity is the highest of all
   * entries, which is that of the first one, the one its message names.
   */
  lemma FindingContents(sql: string)
    requires Verdict(sql).Some?
    ensures var f := Verdict(sql).value;
      && f.analyzerName == "data_exfiltration"
      && f.details == Some(Patterns(Descriptions(TableHits(Scanned, sql)) + Descriptions(LimitHit(sql)) + Descriptions(OffsetHit(sql))))
      && f.message == "Data exfiltration pattern detected: " + AllHits(sql)[0].description
      && f.severity == AllHits(sql)[0].severity
      && (forall m :: m in AllHits(sql) ==> AtMost(m.severity, f.severity))
  {
    var th, lh, oh := TableHits(Scanned, sql), LimitHit(sql), OffsetHit(sql);
    SeverityOrder(sql);
    HighestIsFirst(AllHits(sql));
    DescriptionsAppend(th + lh, oh);
    DescriptionsAppend(th, lh);
  }

  /** A HIGH rule fixes the severity at HIGH, whatever LIMIT or OFFSET add. */
  lemma HighRuleGivesHigh(sql: string, r: nat)
    requires r < |HighRules| && Search(HighRules[r].pattern, sql)
    ensures Verdict(sql).Some? && Verdict(sql).value.severity == High
  {
    var m := Match(High, HighRules[r].description);
    assert RuleMatches(Scanned, 0, r, sql);
    TableHitsMembers(Scanned, sql);
    assert m in AllHits(sql);
    FindingContents(sql);
    assert AtMost(High, Verdict(sql).value.severity);
  }

  /** IGNORECASE: upper-casing the statement changes nothing in the result. */
  lemma CaseInsensitive(sql: string)
    ensures Verdict(Upper(sql)) == Verdict(sql)
  {
    UpperSameUpToCase(sql);
    TableHitsUpToCase(Scanned, sql, Upper(sql));
    FirstNumberUpToCase("LIMIT", sql, Upper(sql));
    FirstNumberUpToCase("OFFSET", sql, Upper(sql));
  }

  /** `LIMIT 1001` triggers: the bound is exclusive. */
  lemma LimitAboveBound()
    ensures LimitHit("LIMIT 1001") == [Match(Low, "large LIMIT: " + "1001")]
  {
    ThresholdNumbers();
    LimitIs("LIMIT 1001", "1001");
  }

  /** `LIMIT 1000` does not trigger. */
  lemma LimitAtBound()
    ensures LimitHit("LIMIT 1000") == []
  {
    ThresholdNumbers();
    LimitIs("LIMIT 1000", "1000");
  }

  lemma ThresholdNumbers()
    ensures DecimalValue("1001") == 1001 && DecimalValue("1000") == 1000
  {
    assert "1001"[..3] == "100" && "1000"[..3] == "100";
    assert "100"[..2] == "10" && "10"[..1] == "1" && "1"[..0] == "";
  }

  /** `\d+` at position 6 of `LIMIT dddd`. */
  lemma DigitsMatch(s: string)
    requires |s| == 10 && forall m :: 6 <= m < 10 ==> IsDigit(s[m])
    ensures MatchesAt(Some1(Digits), s, 6)
  {
    var p := Some1(Digits);
    SkipClassAt(Digits, s, 7, 10);
    assert p[1..] == [Many(Digits)] && p[1..][1..] == [];
    assert MatchesAt(p[1..][1..], s, 10);
    assert MatchesAt(p[1..], s, 7);
  }

  /** A statement that is just `LIMIT` and four digits captures those digits. */
  lemma LimitIs(s: string, digits: string)
    requires |digits| == 4 && AllDigits(digits) && s == "LIMIT " + digits
    ensures FirstNumber("LIMIT", s) == Some(digits)
  {
    LimitMatchesAtStart(s, digits);
    assert FirstMatch(NumberAfter("LIMIT"), s, 0) == Some(0);
    SkipClassAt(Spaces, s, 5, 6);
    SkipClassAt(Digits, s, 6, 10);
    assert s[6..10] == digits;
  }

  /** The pattern `\bLIMIT\s+\d+` matches `LIMIT dddd` at its start. */
  lemma LimitMatchesAtStart(s: string, digits: string)
    requires |digits| == 4 && AllDigits(digits) && s == "LIMIT " + digits
    ensures MatchesAt(NumberAfter("LIMIT"), s, 0)
  {
    var p := NumberAfter("LIMIT");
    LimitTailMatches(s, digits);
    assert p[1..] == [Lit("LIMIT")] + (Some1(Spaces) + Some1(Digits));
    assert p[1..][1..] == Some1(Spaces) + Some1(Digits);
    assert LitAt(s, 0, "LIMIT");
    assert MatchesAt(p[1..], s, 0);
  }

  /** `\s+\d+` matches `LIMIT dddd` from the space on. */
  lemma LimitTailMatches(s: string, digits: string)
    requires |digits| == 4 && AllDigits(digits) && s == "LIMIT " + digits
    ensures MatchesAt(Some1(Spaces) + Some1(Digits), s, 5)
  {
    var tail := Some1(Spaces) + Some1(Digits);
    assert forall m :: 6 <= m < 10 ==> s[m] == digits[m - 6];
    DigitsMatch(s);
    SkipClassAt(Spaces, s, 6, 6);
    SkipClassAt(Spaces, s, 5, 6);
    assert tail[1..] == [Many(Spaces)] + Some1(Digits) && tail[1..][1..] == Some1(Digits);
    assert MatchesAt(tail[1..], s, 6);
  }
}
