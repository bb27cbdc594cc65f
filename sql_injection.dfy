/**
 * `SQLInjectionAnalyzer`: a stateless detector that searches the statement
 * for every rule of a constant three-tier table and reports all matches.
 */
module SqlInjection {
  import opened Wrappers
  import opened Text
  import opened Domain
  import opened Patterns
  import opened Detection

  const Name := "sql_injection"
  const MessagePrefix := "SQL injection pattern detected: "

  /** `;\s*KEYWORD\b`: a second statement stacked after a semicolon. */
  function Stacked(keyword: string): Pattern {
    [Lit(";"), Many(Spaces), Lit(keyword), Boundary]
  }

  /** `\bOR\s+X\s*=\s*X` for an operand pattern `X`. */
  function Tautology(operand: Pattern): Pattern {
    [Boundary, Lit("OR")] + Some1(Spaces) + operand + [Many(Spaces), Lit("="), Many(Spaces)] + operand
  }

  /** `\bNAME\s*\(`: a call of a time- or error-based function. */
  function CallOf(name: string): Pattern {
    [Boundary, Lit(name), Many(Spaces), Lit("(")]
  }

  const HighRules: seq<Rule> := [
    Rule(Stacked("DROP"), "stacked DROP"),
    Rule(Stacked("DELETE"), "stacked DELETE"),
    Rule(Stacked("UPDATE"), "stacked UPDATE"),
    Rule(Stacked("INSERT"), "stacked INSERT"),
    Rule(Stacked("ALTER"), "stacked ALTER"),
    Rule(Stacked("CREATE"), "stacked CREATE"),
    Rule(Stacked("TRUNCATE"), "stacked TRUNCATE"),
    Rule(Stacked("WAITFOR"), "stacked WAITFOR"),
    Rule([Boundary, Lit("UNION")] + Some1(Spaces) + [Lit("ALL")] + Some1(Spaces) + [Lit("SELECT"), Boundary],
      "UNION ALL SELECT"),
    Rule([Boundary, Lit("UNION")] + Some1(Spaces) + [Lit("SELECT"), Boundary], "UNION SELECT")
  ]

  const MediumRules: seq<Rule> := [
    Rule(Tautology([Lit("1")]) + [Boundary], "tautology OR 1=1"),
    Rule(Tautology([Lit("'1'")]), "tautology OR '1'='1'"),
    Rule(Tautology([Lit("\"1\"")]), "tautology OR \"1\"=\"1\""),
    Rule(Tautology([Lit("'"), Letter, Lit("'")]), "tautology OR 'x'='x'"),
    Rule([Lit("--")], "comment --"),
    Rule([Lit("/*")], "comment /*"),
    Rule([Lit("#")], "comment #")
  ]

  const LowRules: seq<Rule> := [
    Rule(CallOf("SLEEP"), "time-based SLEEP"),
    Rule([Boundary, Lit("WAITFOR"), Boundary], "time-based WAITFOR"),
    Rule(CallOf("BENCHMARK"), "time-based BENCHMARK"),
    Rule(CallOf("EXTRACTVALUE"), "error-based EXTRACTVALUE"),
    Rule(CallOf("UPDATEXML"), "error-based UPDATEXML")
  ]

  /** `_patterns`, in the order `analyze` visits it: HIGH, MEDIUM, LOW. */
  const Table: seq<Tier> := [Tier(High, HighRules), Tier(Medium, MediumRules), Tier(Low, LowRules)]

  /** What `analyze` returns for a statement. */
  function Verdict(sql: string): Option<Finding> {
    BuildFinding(Name, MessagePrefix, TableHits(Table, sql))
  }

  /** `analyze`: scan the table, then build the finding. It reads no state, so equal statements get equal results. */
  method Analyze(query: Query) returns (r: Option<Finding>)
    ensures r == Verdict(query.sql)
  {
    var matches := ScanTiers(Table, query.sql);
    r := BuildFinding(Name, MessagePrefix, matches);
  }

  // ---------------------------------------------------------------------
  // Properties of the detector.

  /** The table holds 22 rules and its tiers run from HIGH down. */
  lemma TableShape()
    ensures RuleCount(Table) == 22
    ensures Descending(Table)
  {
    assert Table[..2][..1] == [Tier(High, HighRules)];
    assert Table[..2] == [Tier(High, HighRules), Tier(Medium, MediumRules)];
    assert RuleCount(Table[..2][..1]) == 10;
  }

  /** No finding exactly when no rule of any tier matches. */
  lemma NoneIffNoMatch(sql: string)
    ensures Verdict(sql).None? <==> forall t, r :: !RuleMatches(Table, t, r, sql)
  {
    TableHitsEmpty(Table, sql);
  }

  /**
   * A finding lists a description exactly when its rule matches; its
   * severity is the highest tier matched; it lists between 1 and 22
   * descriptions and its message names the first, which comes from a rule
   * of that highest tier.
   */
  lemma FindingContents(sql: string)
    requires Verdict(sql).Some?
    ensures Verdict(sql).value.analyzerName == "sql_injection"
    ensures Verdict(sql).value.details.Some? && Verdict(sql).value.details.value.Patterns?
    ensures var f := Verdict(sql).value; var ps := f.details.value.patterns;
      && 1 <= |ps| <= 22
      && f.message == "SQL injection pattern detected: " + ps[0]
      && (forall t, r :: RuleMatches(Table, t, r, sql) ==> Table[t].rules[r].description in ps)
      && (forall d :: d in ps ==> exists t, r :: RuleMatches(Table, t, r, sql) && d == Table[t].rules[r].description)
      && (forall t, r :: RuleMatches(Table, t, r, sql) ==> AtMost(Table[t].severity, f.severity))
      && (exists t, r :: RuleMatches(Table, t, r, sql) && Table[t].rules[r].description == ps[0]
                                                        && Table[t].severity == f.severity)
  {
    var hits := TableHits(Table, sql);
    var f := Verdict(sql).value;
    var ps := Descriptions(hits);
    TableShape();
    TableHitsMembers(Table, sql);
    TableHitsBound(Table, sql);
    FirstIsHighest(Table, sql);
    forall t, r | RuleMatches(Table, t, r, sql)
      ensures Table[t].rules[r].description in ps && AtMost(Table[t].severity, f.severity)
    {
      var m := Match(Table[t].severity, Table[t].rules[r].description);
      assert m in hits;
      var n :| 0 <= n < |hits| && hits[n] == m;
      assert ps[n] == m.description;
    }
    forall d | d in ps
      ensures exists t, r :: RuleMatches(Table, t, r, sql) && d == Table[t].rules[r].description
    {
      var n :| 0 <= n < |ps| && ps[n] == d;
      assert hits[n] in hits;
    }
    assert hits[0] in hits;
    var t, r :| RuleMatches(Table, t, r, sql) && hits[0] == Match(Table[t].severity, Table[t].rules[r].description);
    assert Table[t].rules[r].description == ps[0] && Table[t].severity == f.severity;
  }

  /** Any HIGH rule that matches makes the finding HIGH, whatever else matches. */
  lemma HighRuleGivesHigh(sql: string, r: nat)
    requires r < |HighRules| && Search(HighRules[r].pattern, sql)
    ensures Verdict(sql).Some? && Verdict(sql).value.severity == High
  {
    assert RuleMatches(Table, 0, r, sql);
    NoneIffNoMatch(sql);
    FindingContents(sql);
    var f := Verdict(sql).value;
    assert AtMost(High, f.severity);
  }

  /** IGNORECASE: upper-casing the statement changes nothing in the result. */
  lemma CaseInsensitive(sql: string)
    ensures Verdict(Upper(sql)) == Verdict(sql)
  {
    UpperSameUpToCase(sql);
    TableHitsUpToCase(Table, sql, Upper(sql));
  }

  /** `"; WAITFOR"` hits the stacked HIGH rule, so the finding is HIGH although WAITFOR is also a LOW rule. */
  lemma StackedWaitforIsHigh()
    ensures Verdict("; WAITFOR").Some? && Verdict("; WAITFOR").value.severity == High
  {
    var s := "; WAITFOR";
    var p := Stacked("WAITFOR");
    assert p[1..][1..][1..] == [Boundary];
    assert MatchesAt([Boundary], s, 9);
    assert LitAt(s, 2, "WAITFOR");
    assert MatchesAt(p[1..][1..], s, 2);
    SkipClassAt(Spaces, s, 1, 2);
    assert MatchesAt(p[1..], s, 1);
    assert MatchesAt(p, s, 0);
    assert HighRules[7].pattern == p;
    HighRuleGivesHigh(s, 7);
  }
}
