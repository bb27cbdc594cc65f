/**
 * `AnalyzerRegistry`: an ordered list of detectors, each asked in turn
 * about a query, keeping the findings that are not None.
 *
 * The three detector classes are the alternatives of `Analyzer`; a volume
 * detector is an object whose history changes with every call, so the same
 * object may be registered twice and then sees the query twice.  The
 * detectors' joint state is the map from each volume object to its history.
 */
module Registry {
  import opened Wrappers
  import opened Domain
  import SqlInjection
  import DataExfiltration
  import VolumeAnomaly

  type VolumeObject = VolumeAnomaly.VolumeAnomalyAnalyzer

  datatype Analyzer =
    | SqlInjectionAnalyzer
    | DataExfiltrationAnalyzer
    | VolumeAnomalyAnalyzer(volume: VolumeObject)

  type States = map<VolumeObject, VolumeAnomaly.History>

  /** Every volume detector among the analyzers is one of `objects`. */
  ghost predicate Covered(analyzers: seq<Analyzer>, objects: set<VolumeObject>) {
    forall a :: a in analyzers && a.VolumeAnomalyAnalyzer? ==> a.volume in objects
  }

  /** A suffix of a covered list is covered, and so is its first element. */
  lemma CoveredSuffix(analyzers: seq<Analyzer>, i: nat, objects: set<VolumeObject>)
    requires Covered(analyzers, objects) && i <= |analyzers|
    ensures Covered(analyzers[i..], objects)
    ensures i < |analyzers| && analyzers[i].VolumeAnomalyAnalyzer? ==> analyzers[i].volume in objects
  {
    assert forall a :: a in analyzers[i..] ==> a in analyzers;
    if i < |analyzers| {
      assert analyzers[i] in analyzers;
    }
  }

  /** The current history of each of `objects`. */
  ghost function StatesOf(objects: set<VolumeObject>): (r: States)
    reads objects
    ensures r.Keys == objects
  {
    map v | v in objects :: v.queries
  }

  /**
   * What the two stateless detectors say about a statement; they read no
   * state, so within one `analyze_all` each says the same every time.
   */
  datatype Verdicts = Verdicts(sqlInjection: Option<Finding>, dataExfiltration: Option<Finding>)

  function VerdictsOf(sql: string): Verdicts {
    Verdicts(SqlInjection.Verdict(sql), DataExfiltration.Verdict(sql))
  }

  /**
   * `vs` are the verdicts on `sql`.  Stated through a quantifier so that the
   * detectors' definitions are only unfolded where a proof asks for them.
   */
  ghost predicate VerdictsOn(vs: Verdicts, sql: string) {
    forall s :: s == sql ==> VerdictsOf(s) == vs
  }

  /** The verdicts on a statement, recorded as `VerdictsOn`. */
  lemma VerdictsFor(sql: string) returns (vs: Verdicts)
    ensures VerdictsOn(vs, sql)
  {
    vs := VerdictsOf(sql);
  }

  /** The result of one call of `analyze` in joint state `st`, given the stateless verdicts `vs`. */
  ghost function StepResult(a: Analyzer, vs: Verdicts, query: Query, now: DateTime, st: States): Option<Finding>
    requires a.VolumeAnomalyAnalyzer? ==> a.volume in st
  {
    match a
    case SqlInjectionAnalyzer => vs.sqlInjection
    case DataExfiltrationAnalyzer => vs.dataExfiltration
    case VolumeAnomalyAnalyzer(v) =>
      var user := VolumeAnomaly.UserKey(query);
      VolumeAnomaly.Verdict(|StepState(a, query, now, st)[v][user]|, v.windowSeconds, user)
  }

  /** The joint state after one call of `analyze`: only a volume detector's history changes. */
  ghost function StepState(a: Analyzer, query: Query, now: DateTime, st: States): (r: States)
    requires a.VolumeAnomalyAnalyzer? ==> a.volume in st
    ensures r.Keys == st.Keys
  {
    match a
    case VolumeAnomalyAnalyzer(v) =>
      st[v := VolumeAnomaly.Record(st[v], VolumeAnomaly.UserKey(query), VolumeAnomaly.EventTime(query, now), v.windowSeconds)]
    case _ => st
  }

  /** The results of the analyzers called one after another, each in the state its predecessors left. */
  ghost function Results(analyzers: seq<Analyzer>, vs: Verdicts, query: Query, now: DateTime, st: States): (r: seq<Option<Finding>>)
    requires Covered(analyzers, st.Keys)
    ensures |r| == |analyzers|
    decreases |analyzers|
  {
    if analyzers == [] then []
    else
      CoveredSuffix(analyzers, 1, st.Keys);
      CoveredSuffix(analyzers, 0, st.Keys);
      [StepResult(analyzers[0], vs, query, now, st)]
        + Results(analyzers[1..], vs, query, now, StepState(analyzers[0], query, now, st))
  }

  /** The joint state after the analyzers are called one after another. */
  ghost function FinalState(analyzers: seq<Analyzer>, query: Query, now: DateTime, st: States): (r: States)
    requires Covered(analyzers, st.Keys)
    ensures r.Keys == st.Keys
    decreases |analyzers|
  {
    if analyzers == [] then st
    else
      CoveredSuffix(analyzers, 1, st.Keys);
      CoveredSuffix(analyzers, 0, st.Keys);
      FinalState(analyzers[1..], query, now, StepState(analyzers[0], query, now, st))
  }

  /** The results of `analyze_all`: the non-None ones, in registration order. */
  ghost function Findings(analyzers: seq<Analyzer>, query: Query, now: DateTime, st: States): seq<Finding>
    requires Covered(analyzers, st.Keys)
  {
    Somes(Results(analyzers, VerdictsOf(query.sql), query, now, st))
  }

  /** `Findings` computed with verdicts recorded by `VerdictsOn`. */
  lemma FindingsWith(analyzers: seq<Analyzer>, vs: Verdicts, query: Query, now: DateTime, st: States)
    requires Covered(analyzers, st.Keys) && VerdictsOn(vs, query.sql)
    ensures Findings(analyzers, query, now, st) == Somes(Results(analyzers, vs, query, now, st))
  {
    assert VerdictsOf(query.sql) == vs;
  }

  class AnalyzerRegistry {
    var analyzers: seq<Analyzer>
    /** The volume detectors registered so far. */
    ghost var volumes: set<VolumeObject>

    ghost predicate Valid()
      reads this
    {
      Covered(analyzers, volumes)
    }

    /** `__init__`: no analyzers. */
    constructor ()
      ensures Valid() && analyzers == [] && volumes == {}
    {
      analyzers := [];
      volumes := {};
    }

    /** `register`: append to the end. */
    method Register(analyzer: Analyzer)
      requires Valid()
      modifies this
      ensures Valid()
      ensures analyzers == old(analyzers) + [analyzer]
      ensures volumes == old(volumes) + (if analyzer.VolumeAnomalyAnalyzer? then {analyzer.volume} else {})
    {
      analyzers := analyzers + [analyzer];
      if analyzer.VolumeAnomalyAnalyzer? {
        volumes := volumes + {analyzer.volume};
      }
    }

    /** `analyzers`: the registered analyzers, in registration order. */
    function Analyzers(): seq<Analyzer>
      reads this
    {
      analyzers
    }

    /**
     * `analyze_all`: every analyzer once, in order, keeping the findings.
     * `now` is the clock reading a volume detector falls back on; `vs` are
     * the stateless detectors' verdicts on the statement.
     */
    method AnalyzeAll(query: Query, now: DateTime) returns (findings: seq<Finding>, ghost vs: Verdicts)
      requires Valid()
      modifies volumes
      ensures VerdictsOn(vs, query.sql)
      ensures findings == Somes(Results(analyzers, vs, query, now, old(StatesOf(volumes))))
      ensures StatesOf(volumes) == FinalState(analyzers, query, now, old(StatesOf(volumes)))
    {
      ghost var start := StatesOf(volumes);
      vs := VerdictsFor(query.sql);
      ghost var results: seq<Option<Finding>> := [];
      findings := [];
      assert analyzers[0..] == analyzers;
      for i := 0 to |analyzers|
        invariant Covered(analyzers[i..], volumes)
        invariant findings == Somes(results)
        invariant results + Results(analyzers[i..], vs, query, now, StatesOf(volumes)) == Results(analyzers, vs, query, now, start)
        invariant FinalState(analyzers[i..], query, now, StatesOf(volumes)) == FinalState(analyzers, query, now, start)
      {
        ghost var rest := Results(analyzers[i + 1..], vs, query, now, StepState(analyzers[i], query, now, StatesOf(volumes)));
        var result := CallAt(i, query, now, vs);
        AppendAssoc(results, [result], rest);
        SomesSnoc(results, result);
        results := results + [result];
        if result.Some? {
          findings := findings + [result.value];
        }
      }
      assert analyzers[|analyzers|..] == [];
      assert results == Results(analyzers, vs, query, now, start);
    }

    /** The `i`-th detector's call within `analyze_all`: one step of `Results` and `FinalState`. */
    method CallAt(i: nat, query: Query, now: DateTime, ghost vs: Verdicts) returns (result: Option<Finding>)
      requires Valid() && i < |analyzers| && VerdictsOn(vs, query.sql)
      modifies volumes
      ensures Covered(analyzers[i..], volumes) && Covered(analyzers[i + 1..], volumes)
      ensures result == StepResult(analyzers[i], vs, query, now, old(StatesOf(volumes)))
      ensures StatesOf(volumes) == StepState(analyzers[i], query, now, old(StatesOf(volumes)))
      ensures Results(analyzers[i..], vs, query, now, old(StatesOf(volumes)))
        == [result] + Results(analyzers[i + 1..], vs, query, now, StatesOf(volumes))
      ensures FinalState(analyzers[i..], query, now, old(StatesOf(volumes)))
        == FinalState(analyzers[i + 1..], query, now, StatesOf(volumes))
    {
      var a := analyzers[i];
      ghost var before := StatesOf(volumes);
      CoveredSuffix(analyzers, i, volumes);
      CoveredSuffix(analyzers, i + 1, volumes);
      result := Call(a, query, now, vs, before);
      ghost var after := StatesOf(volumes);
      assert forall w :: w in before && !(a.VolumeAnomalyAnalyzer? && w == a.volume) ==> after[w] == before[w];
      UpdateOne(before, after, a, query, now);
      Advance(analyzers, i, vs, query, now, before);
    }
  }

  /** One call of `analyze` on the detector `a`. */
  method Call(a: Analyzer, query: Query, now: DateTime, ghost vs: Verdicts, ghost st: States)
    returns (result: Option<Finding>)
    requires VerdictsOn(vs, query.sql)
    requires a.VolumeAnomalyAnalyzer? ==> a.volume in st && st[a.volume] == a.volume.queries
    modifies if a.VolumeAnomalyAnalyzer? then {a.volume} else {}
    ensures result == StepResult(a, vs, query, now, st)
    ensures a.VolumeAnomalyAnalyzer? ==> a.volume.queries == StepState(a, query, now, st)[a.volume]
  {
    assert VerdictsOf(query.sql) == vs;
    match a {
      case SqlInjectionAnalyzer =>
        result := SqlInjection.Analyze(query);
      case DataExfiltrationAnalyzer =>
        result := DataExfiltration.Analyze(query);
      case VolumeAnomalyAnalyzer(v) =>
        result := v.Analyze(query, now);
    }
  }

  /** A joint state that differs from `before` only where `StepState` says is the state `StepState` gives. */
  lemma UpdateOne(before: States, after: States, a: Analyzer, query: Query, now: DateTime)
    requires before.Keys == after.Keys
    requires a.VolumeAnomalyAnalyzer? ==>
      a.volume in before && after[a.volume] == StepState(a, query, now, before)[a.volume]
    requires forall w :: w in before && !(a.VolumeAnomalyAnalyzer? && w == a.volume) ==> after[w] == before[w]
    ensures after == StepState(a, query, now, before)
  {
  }

  /** `Results` and `FinalState` from position `i` on, after one step. */
  lemma Advance(analyzers: seq<Analyzer>, i: nat, vs: Verdicts, query: Query, now: DateTime, st: States)
    requires i < |analyzers| && Covered(analyzers[i..], st.Keys)
    ensures Covered(analyzers[i + 1..], st.Keys)
    ensures var st1 := StepState(analyzers[i], query, now, st);
      && Results(analyzers[i..], vs, query, now, st)
         == [StepResult(analyzers[i], vs, query, now, st)] + Results(analyzers[i + 1..], vs, query, now, st1)
      && FinalState(analyzers[i..], query, now, st) == FinalState(analyzers[i + 1..], query, now, st1)
  {
    assert analyzers[i..][0] == analyzers[i] && analyzers[i..][1..] == analyzers[i + 1..];
    CoveredSuffix(analyzers[i..], 0, st.Keys);
    CoveredSuffix(analyzers[i..], 1, st.Keys);
  }

  /** `Somes` of a list extended by one element. */
  lemma {:induction false} SomesSnoc<T>(xs: seq<Option<T>>, x: Option<T>)
    ensures Somes(xs + [x]) == Somes(xs) + (if x.Some? then [x.value] else [])
    decreases |xs|
  {
    if xs == [] {
      assert xs + [x] == [x];
    } else {
      var head := if xs[0].Some? then [xs[0].value] else [];
      var last := if x.Some? then [x.value] else [];
      assert (xs + [x])[0] == xs[0] && (xs + [x])[1..] == xs[1..] + [x];
      assert Somes(xs + [x]) == head + Somes(xs[1..] + [x]);
      SomesSnoc(xs[1..], x);
      assert Somes(xs) == head + Somes(xs[1..]);
      AppendAssoc(head, Somes(xs[1..]), last);
    }
  }

  // ---------------------------------------------------------------------
  // Properties of `analyze_all`.

  /** No analyzers, no findings. */
  lemma EmptyRegistry(query: Query, now: DateTime, st: States)
    ensures Findings([], query, now, st) == []
  {
  }

  /** There are at most as many findings as analyzers. */
  lemma FindingsBound(analyzers: seq<Analyzer>, query: Query, now: DateTime, st: States)
    requires Covered(analyzers, st.Keys)
    ensures |Findings(analyzers, query, now, st)| <= |analyzers|
  {
  }

  /** A stateless detector's result does not depend on the state or on `now`, and it changes no state. */
  lemma StatelessStep(a: Analyzer, query: Query, now1: DateTime, now2: DateTime, st1: States, st2: States)
    requires !a.VolumeAnomalyAnalyzer?
    ensures StepResult(a, VerdictsOf(query.sql), query, now1, st1) == StepResult(a, VerdictsOf(query.sql), query, now2, st2)
    ensures StepState(a, query, now1, st1) == st1
  {
  }

  /**
   * Registering one more analyzer adds its result, taken in the state the
   * others leave, after theirs: `analyze_all` keeps registration order.
   */
  lemma {:induction false} ResultsSnoc(analyzers: seq<Analyzer>, a: Analyzer, vs: Verdicts, query: Query, now: DateTime, st: States)
    requires Covered(analyzers + [a], st.Keys)
    ensures Covered(analyzers, st.Keys)
    ensures Results(analyzers + [a], vs, query, now, st)
      == Results(analyzers, vs, query, now, st) + [StepResult(a, vs, query, now, FinalState(analyzers, query, now, st))]
    ensures FinalState(analyzers + [a], query, now, st) == StepState(a, query, now, FinalState(analyzers, query, now, st))
    decreases |analyzers|
  {
    var all := analyzers + [a];
    CoveredFront(analyzers, a, st.Keys);
    FinalStateSnoc(analyzers, a, query, now, st);
    if analyzers == [] {
      assert all == [a] && all[1..] == [];
    } else {
      assert all[0] == analyzers[0] && all[1..] == analyzers[1..] + [a];
      CoveredSuffix(all, 1, st.Keys);
      CoveredSuffix(all, 0, st.Keys);
      CoveredSuffix(analyzers, 1, st.Keys);
      var st1 := StepState(analyzers[0], query, now, st);
      ResultsSnoc(analyzers[1..], a, vs, query, now, st1);
      ResultsSnocCons(analyzers, a, vs, query, now, st, st1);
    }
  }

  /** The analyzers registered before another are covered when all of them are. */
  lemma CoveredFront(analyzers: seq<Analyzer>, a: Analyzer, objects: set<VolumeObject>)
    requires Covered(analyzers + [a], objects)
    ensures Covered(analyzers, objects)
    ensures a.VolumeAnomalyAnalyzer? ==> a.volume in objects
  {
    var all := analyzers + [a];
    assert forall x :: x in analyzers ==> x in all;
    assert a in all;
  }

  /** `ResultsSnoc` for a non-empty list, given it for the list's tail. */
  lemma ResultsSnocCons(analyzers: seq<Analyzer>, a: Analyzer, vs: Verdicts, query: Query, now: DateTime, st: States, st1: States)
    requires analyzers != [] && Covered(analyzers + [a], st.Keys) && Covered(analyzers, st.Keys)
    requires analyzers[0].VolumeAnomalyAnalyzer? ==> analyzers[0].volume in st
    requires st1 == StepState(analyzers[0], query, now, st)
    requires Covered(analyzers[1..] + [a], st1.Keys) && Covered(analyzers[1..], st1.Keys)
    requires (analyzers + [a])[1..] == analyzers[1..] + [a]
    requires Results(analyzers[1..] + [a], vs, query, now, st1)
      == Results(analyzers[1..], vs, query, now, st1) + [StepResult(a, vs, query, now, FinalState(analyzers[1..], query, now, st1))]
    ensures Results(analyzers + [a], vs, query, now, st)
      == Results(analyzers, vs, query, now, st) + [StepResult(a, vs, query, now, FinalState(analyzers, query, now, st))]
  {
    var head := [StepResult(analyzers[0], vs, query, now, st)];
    assert (analyzers + [a])[0] == analyzers[0];
    assert Results(analyzers + [a], vs, query, now, st) == head + Results(analyzers[1..] + [a], vs, query, now, st1);
    assert Results(analyzers, vs, query, now, st) == head + Results(analyzers[1..], vs, query, now, st1);
    assert FinalState(analyzers, query, now, st) == FinalState(analyzers[1..], query, now, st1);
    AppendAssoc(head, Results(analyzers[1..], vs, query, now, st1),
                [StepResult(a, vs, query, now, FinalState(analyzers, query, now, st))]);
  }

  /** Registering one more analyzer adds its step to the final state. */
  lemma {:induction false} FinalStateSnoc(analyzers: seq<Analyzer>, a: Analyzer, query: Query, now: DateTime, st: States)
    requires Covered(analyzers + [a], st.Keys)
    ensures Covered(analyzers, st.Keys)
    ensures a.VolumeAnomalyAnalyzer? ==> a.volume in FinalState(analyzers, query, now, st)
    ensures FinalState(analyzers + [a], query, now, st) == StepState(a, query, now, FinalState(analyzers, query, now, st))
    decreases |analyzers|
  {
    var all := analyzers + [a];
    CoveredFront(analyzers, a, st.Keys);
    if analyzers == [] {
      assert all == [a] && all[1..] == [];
    } else {
      assert all[0] == analyzers[0] && all[1..] == analyzers[1..] + [a];
      CoveredSuffix(all, 1, st.Keys);
      CoveredSuffix(all, 0, st.Keys);
      CoveredSuffix(analyzers, 1, st.Keys);
      FinalStateSnoc(analyzers[1..], a, query, now, StepState(analyzers[0], query, now, st));
    }
  }

  /** With only stateless detectors, the findings are the detectors' verdicts in order, and nothing changes. */
  lemma {:induction false} StatelessRun(analyzers: seq<Analyzer>, vs: Verdicts, query: Query, now: DateTime, st: States)
    requires forall n :: 0 <= n < |analyzers| ==> !analyzers[n].VolumeAnomalyAnalyzer?
    ensures Covered(analyzers, st.Keys)
    ensures FinalState(analyzers, query, now, st) == st
    ensures forall n :: 0 <= n < |analyzers| ==>
      Results(analyzers, vs, query, now, st)[n] == StepResult(analyzers[n], vs, query, now, st)
    decreases |analyzers|
  {
    assert forall a :: a in analyzers ==> !a.VolumeAnomalyAnalyzer?;
    if analyzers != [] {
      StatelessRun(analyzers[1..], vs, query, now, st);
      forall n | 1 <= n < |analyzers|
        ensures Results(analyzers, vs, query, now, st)[n] == StepResult(analyzers[n], vs, query, now, st)
      {
        assert analyzers[1..][n - 1] == analyzers[n];
      }
    }
  }
}
