/**
 * What the two pattern detectors share: a constant table of severity tiers,
 * each a list of (pattern, description) rules; the scan that collects every
 * matching rule in tier-then-declaration order; and the finding built from
 * the collected matches.
 */
module Detection {
  import opened Wrappers
  import opened Domain
  import opened Patterns

  datatype Rule = Rule(pattern: Pattern, description: string)

  /** One entry of a `_patterns` table: the rules of one severity. */
  datatype Tier = Tier(severity: Severity, rules: seq<Rule>)

  /** One `(severity, description)` pair of the local `matches` list. */
  datatype Match = Match(severity: Severity, description: string)

  /** The matches contributed by one tier's rules, in declaration order. */
  function TierHits(severity: Severity, rules: seq<Rule>, sql: string): (r: seq<Match>)
    ensures |r| <= |rules|
    ensures forall n :: 0 <= n < |r| ==> r[n].severity == severity
    decreases |rules|
  {
    if rules == [] then []
    else
      var last := rules[|rules| - 1];
      TierHits(severity, rules[..|rules| - 1], sql)
        + (if Search(last.pattern, sql) then [Match(severity, last.description)] else [])
  }

  /** The matches of a whole table, tier after tier. */
  function TableHits(tiers: seq<Tier>, sql: string): (r: seq<Match>)
    decreases |tiers|
  {
    if tiers == [] then []
    else
      var last := tiers[|tiers| - 1];
      TableHits(tiers[..|tiers| - 1], sql) + TierHits(last.severity, last.rules, sql)
  }

  /** The number of rules in a table. */
  function RuleCount(tiers: seq<Tier>): nat
    decreases |tiers|
  {
    if tiers == [] then 0 else RuleCount(tiers[..|tiers| - 1]) + |tiers[|tiers| - 1].rules|
  }

  /** The nested `for severity ... for pattern, description ...` loop of `analyze`. */
  method ScanTiers(tiers: seq<Tier>, sql: string) returns (matches: seq<Match>)
    ensures matches == TableHits(tiers, sql)
  {
    matches := [];
    for t := 0 to |tiers|
      invariant matches == TableHits(tiers[..t], sql)
    {
      var tier := tiers[t];
      var found := matches;
      for r := 0 to |tier.rules|
        invariant matches == found + TierHits(tier.severity, tier.rules[..r], sql)
      {
        var rule := tier.rules[r];
        assert tier.rules[..r + 1][..r] == tier.rules[..r];
        if Search(rule.pattern, sql) {
          matches := matches + [Match(tier.severity, rule.description)];
        }
      }
      assert tier.rules[..|tier.rules|] == tier.rules;
      assert tiers[..t + 1][..t] == tiers[..t];
    }
    assert tiers[..|tiers|] == tiers;
  }

  // ---------------------------------------------------------------------
  // What the collected matches are.

  /** Rule `r` of tier `t` matches the statement. */
  predicate RuleMatches(tiers: seq<Tier>, t: int, r: int, sql: string) {
    0 <= t < |tiers| && 0 <= r < |tiers[t].rules| && Search(tiers[t].rules[r].pattern, sql)
  }

  lemma {:induction false} TierHitsMembers(severity: Severity, rules: seq<Rule>, sql: string)
    ensures forall m :: m in TierHits(severity, rules, sql) <==>
      exists r :: 0 <= r < |rules| && Search(rules[r].pattern, sql) && m == Match(severity, rules[r].description)
    decreases |rules|
  {
    if rules != [] {
      var init := rules[..|rules| - 1];
      TierHitsMembers(severity, init, sql);
      assert forall r :: 0 <= r < |init| ==> init[r] == rules[r];
    }
  }

  /** A match is collected exactly when some rule of its tier matches and carries its description. */
  lemma TableHitsMembers(tiers: seq<Tier>, sql: string)
    ensures forall m :: m in TableHits(tiers, sql) <==>
      exists t, r :: RuleMatches(tiers, t, r, sql) && m == Match(tiers[t].severity, tiers[t].rules[r].description)
  {
    forall m | m in TableHits(tiers, sql)
      ensures exists t, r :: RuleMatches(tiers, t, r, sql) && m == Match(tiers[t].severity, tiers[t].rules[r].description)
    {
      var t, r := HitSource(tiers, sql, m);
    }
    forall t, r | RuleMatches(tiers, t, r, sql)
      ensures Match(tiers[t].severity, tiers[t].rules[r].description) in TableHits(tiers, sql)
    {
      RuleHit(tiers, sql, t, r);
    }
  }

  /** Every collected match comes from a rule that matches. */
  lemma {:induction false} HitSource(tiers: seq<Tier>, sql: string, m: Match) returns (t: nat, r: nat)
    requires m in TableHits(tiers, sql)
    ensures RuleMatches(tiers, t, r, sql) && m == Match(tiers[t].severity, tiers[t].rules[r].description)
    decreases |tiers|
  {
    var init := tiers[..|tiers| - 1];
    var last := tiers[|tiers| - 1];
    if m in TableHits(init, sql) {
      t, r := HitSource(init, sql, m);
      assert init[t] == tiers[t];
    } else {
      TierHitsMembers(last.severity, last.rules, sql);
      t := |tiers| - 1;
      r :| 0 <= r < |last.rules| && Search(last.rules[r].pattern, sql) && m == Match(last.severity, last.rules[r].description);
    }
  }

  /** Every rule that matches contributes its match. */
  lemma {:induction false} RuleHit(tiers: seq<Tier>, sql: string, t: int, r: int)
    requires RuleMatches(tiers, t, r, sql)
    ensures Match(tiers[t].severity, tiers[t].rules[r].description) in TableHits(tiers, sql)
    decreases |tiers|
  {
    var init := tiers[..|tiers| - 1];
    var last := tiers[|tiers| - 1];
    if t < |init| {
      assert init[t] == tiers[t];
      RuleHit(init, sql, t, r);
    } else {
      TierHitsMembers(last.severity, last.rules, sql);
    }
  }

  /** Nothing is collected exactly when no rule of any tier matches. */
  lemma TableHitsEmpty(tiers: seq<Tier>, sql: string)
    ensures TableHits(tiers, sql) == [] <==> forall t, r :: !RuleMatches(tiers, t, r, sql)
  {
    TableHitsMembers(tiers, sql);
    var hits := TableHits(tiers, sql);
    if hits != [] {
      assert hits[0] in hits;
    }
    forall t, r | RuleMatches(tiers, t, r, sql)
      ensures hits != []
    {
      assert Match(tiers[t].severity, tiers[t].rules[r].description) in hits;
    }
  }

  /** At most one match per rule. */
  lemma {:induction false} TableHitsBound(tiers: seq<Tier>, sql: string)
    ensures |TableHits(tiers, sql)| <= RuleCount(tiers)
    decreases |tiers|
  {
    if tiers != [] {
      TableHitsBound(tiers[..|tiers| - 1], sql);
    }
  }

  /** Later rules of a tier contribute after earlier ones. */
  lemma {:induction false} TierHitsAppend(severity: Severity, a: seq<Rule>, b: seq<Rule>, sql: string)
    ensures TierHits(severity, a + b, sql) == TierHits(severity, a, sql) + TierHits(severity, b, sql)
    decreases |b|
  {
    if b == [] {
      assert a + b == a;
    } else {
      var b0 := b[..|b| - 1];
      assert (a + b)[..|a + b| - 1] == a + b0;
      TierHitsAppend(severity, a, b0, sql);
    }
  }

  /** Later tiers contribute after earlier ones. */
  lemma {:induction false} TableHitsAppend(a: seq<Tier>, b: seq<Tier>, sql: string)
    ensures TableHits(a + b, sql) == TableHits(a, sql) + TableHits(b, sql)
    decreases |b|
  {
    if b == [] {
      assert a + b == a;
    } else {
      var b0 := b[..|b| - 1];
      var last := b[|b| - 1];
      assert (a + b)[..|a + b| - 1] == a + b0;
      assert (a + b)[|a + b| - 1] == last;
      assert TableHits(a + b, sql) == TableHits(a + b0, sql) + TierHits(last.severity, last.rules, sql);
      assert TableHits(b, sql) == TableHits(b0, sql) + TierHits(last.severity, last.rules, sql);
      TableHitsAppend(a, b0, sql);
    }
  }

  /** The tiers are listed from the highest severity down. */
  predicate Descending(tiers: seq<Tier>) {
    forall a, b :: 0 <= a < b < |tiers| ==> tiers[b].severity.Rank() < tiers[a].severity.Rank()
  }

  /** The severities of the collected matches never increase along the list. */
  lemma {:induction false} HitsDescending(tiers: seq<Tier>, sql: string)
    requires Descending(tiers)
    ensures forall a, b :: 0 <= a < b < |TableHits(tiers, sql)| ==>
      AtMost(TableHits(tiers, sql)[b].severity, TableHits(tiers, sql)[a].severity)
    ensures forall n :: 0 <= n < |TableHits(tiers, sql)| ==>
      exists t :: 0 <= t < |tiers| && TableHits(tiers, sql)[n].severity == tiers[t].severity
    decreases |tiers|
  {
    if tiers != [] {
      var init := tiers[..|tiers| - 1];
      var last := tiers[|tiers| - 1];
      assert forall t :: 0 <= t < |init| ==> init[t] == tiers[t];
      HitsDescending(init, sql);
      var front := TableHits(init, sql);
      var back := TierHits(last.severity, last.rules, sql);
      var all := front + back;
      assert all == TableHits(tiers, sql);
      forall n | 0 <= n < |all|
        ensures exists t :: 0 <= t < |tiers| && all[n].severity == tiers[t].severity
      {
        if n < |front| {
          var t :| 0 <= t < |init| && front[n].severity == init[t].severity;
          assert all[n].severity == tiers[t].severity;
        } else {
          assert all[n] == back[n - |front|];
          assert all[n].severity == tiers[|tiers| - 1].severity;
        }
      }
      forall a, b | 0 <= a < b < |all|
        ensures AtMost(all[b].severity, all[a].severity)
      {
        if b < |front| {
          assert all[a] == front[a] && all[b] == front[b];
        } else if a >= |front| {
          assert all[a] == back[a - |front|] && all[b] == back[b - |front|];
        } else {
          assert all[a] == front[a];
          var t :| 0 <= t < |init| && front[a].severity == init[t].severity;
          assert all[b] == back[b - |front|];
        }
      }
    } else {
      assert TableHits(tiers, sql) == [];
    }
  }

  // ---------------------------------------------------------------------
  // The finding built from the matches.

  /** `max(m[0] for m in matches)`. */
  function Highest(ms: seq<Match>): (r: Severity)
    requires ms != []
    ensures forall n :: 0 <= n < |ms| ==> AtMost(ms[n].severity, r)
    ensures exists n :: 0 <= n < |ms| && ms[n].severity == r
  {
    if |ms| == 1 then ms[0].severity
    else
      var rest := Highest(ms[1..]);
      assert forall n :: 1 <= n < |ms| ==> ms[n] == ms[1..][n - 1];
      Max(ms[0].severity, rest)
  }

  /** `[m[1] for m in matches]`. */
  function Descriptions(ms: seq<Match>): (r: seq<string>)
    ensures |r| == |ms|
    ensures forall n :: 0 <= n < |ms| ==> r[n] == ms[n].description
  {
    if ms == [] then [] else [ms[0].description] + Descriptions(ms[1..])
  }

  /**
   * The end of `analyze`: no finding for no matches, otherwise the highest
   * severity, a message naming the first description, and all descriptions.
   */
  function BuildFinding(name: string, messagePrefix: string, ms: seq<Match>): (r: Option<Finding>)
    ensures r.None? <==> ms == []
    ensures r.Some? ==> r.value.analyzerName == name
    ensures r.Some? ==> forall n :: 0 <= n < |ms| ==> AtMost(ms[n].severity, r.value.severity)
    ensures r.Some? ==> exists n :: 0 <= n < |ms| && ms[n].severity == r.value.severity
    ensures r.Some? ==> r.value.message == messagePrefix + ms[0].description
    ensures r.Some? ==> r.value.details == Some(Patterns(Descriptions(ms)))
  {
    if ms == [] then None
    else Some(Finding(name, Highest(ms), messagePrefix + ms[0].description, Some(Patterns(Descriptions(ms)))))
  }

  /** The severities along a list of matches never increase. */
  predicate NonIncreasing(ms: seq<Match>) {
    forall a, b :: 0 <= a < b < |ms| ==> AtMost(ms[b].severity, ms[a].severity)
  }

  /** In a list whose severities never increase, the first match has the highest severity. */
  lemma HighestIsFirst(ms: seq<Match>)
    requires ms != [] && NonIncreasing(ms)
    ensures Highest(ms) == ms[0].severity
  {
    var n :| 0 <= n < |ms| && ms[n].severity == Highest(ms);
    assert AtMost(ms[n].severity, ms[0].severity);
    SeverityRanks();
  }

  /** With tiers from high to low, the first listed match is one of the highest severity. */
  lemma FirstIsHighest(tiers: seq<Tier>, sql: string)
    requires Descending(tiers) && TableHits(tiers, sql) != []
    ensures Highest(TableHits(tiers, sql)) == TableHits(tiers, sql)[0].severity
  {
    HitsDescending(tiers, sql);
    HighestIsFirst(TableHits(tiers, sql));
  }

  /**
   * LOW entries appended after a scan of tiers above LOW keep the list
   * ordered, and they are the only LOW entries in it.
   */
  lemma AppendLow(tiers: seq<Tier>, sql: string, extra: seq<Match>)
    requires Descending(tiers)
    requires forall t :: 0 <= t < |tiers| ==> tiers[t].severity != Low
    requires forall n :: 0 <= n < |extra| ==> extra[n].severity == Low
    ensures forall n :: 0 <= n < |TableHits(tiers, sql)| ==> TableHits(tiers, sql)[n].severity != Low
    ensures NonIncreasing(TableHits(tiers, sql) + extra)
    ensures forall m :: m in TableHits(tiers, sql) + extra && m.severity == Low ==> m in extra
  {
    var th := TableHits(tiers, sql);
    var all := th + extra;
    HitsDescending(tiers, sql);
    forall n | 0 <= n < |th|
      ensures th[n].severity != Low
    {
      var t :| 0 <= t < |tiers| && th[n].severity == tiers[t].severity;
    }
    forall a, b | 0 <= a < b < |all|
      ensures AtMost(all[b].severity, all[a].severity)
    {
      if b < |th| {
        assert all[a] == th[a] && all[b] == th[b];
      } else {
        assert all[b] == extra[b - |th|];
      }
    }
    forall m | m in all && m.severity == Low
      ensures m in extra
    {
      var n :| 0 <= n < |all| && all[n] == m;
      if n >= |th| {
        assert all[n] == extra[n - |th|];
      }
    }
  }

  /** The descriptions of a concatenation are the concatenated descriptions. */
  lemma DescriptionsAppend(a: seq<Match>, b: seq<Match>)
    ensures Descriptions(a + b) == Descriptions(a) + Descriptions(b)
  {
  }

  // ---------------------------------------------------------------------
  // IGNORECASE carries over from the patterns to the collected matches.

  lemma {:induction false} TierHitsUpToCase(severity: Severity, rules: seq<Rule>, s: string, u: string)
    requires SameUpToCase(s, u)
    ensures TierHits(severity, rules, s) == TierHits(severity, rules, u)
    decreases |rules|
  {
    if rules != [] {
      var init := rules[..|rules| - 1];
      SearchUpToCase(rules[|rules| - 1].pattern, s, u);
      TierHitsUpToCase(severity, init, s, u);
    }
  }

  /** Two statements that differ only in letter case collect the same matches. */
  lemma {:induction false} TableHitsUpToCase(tiers: seq<Tier>, s: string, u: string)
    requires SameUpToCase(s, u)
    ensures TableHits(tiers, s) == TableHits(tiers, u)
    decreases |tiers|
  {
    if tiers != [] {
      var init := tiers[..|tiers| - 1];
      var last := tiers[|tiers| - 1];
      assert forall t :: 0 <= t < |init| ==> init[t] == tiers[t];
      TierHitsUpToCase(last.severity, last.rules, s, u);
      TableHitsUpToCase(init, s, u);
    }
  }
}
