/**
 * `QueryPipeline.run`: read the queries of a source one at a time, ask the
 * registry about each, and when there are findings, send one alert to
 * every output in order.
 *
 * Outputs are numbered 0 .. outputs-1 and what they do with an alert is not
 * modelled: the pipeline keeps the record of its `send` calls.  The clock
 * gives one reading per query (the k-th query is handled at `clock(k)`),
 * used both by the volume detectors and as the alert's timestamp.
 */
module Pipeline {
  import opened Wrappers
  import opened Domain
  import opened Registry
  import opened Inputs

  /** One `send` call: the output it went to and the alert. */
  datatype Delivery = Delivery(output: nat, alert: Alert)

  /** Sending one alert to every output, in output order. */
  function Broadcast(alert: Alert, outputs: nat): (r: seq<Delivery>)
    ensures |r| == outputs
    ensures forall o :: 0 <= o < outputs ==> r[o] == Delivery(o, alert)
  {
    seq(outputs, o requires 0 <= o < outputs => Delivery(o, alert))
  }

  /** Sending the alerts in turn, each to every output. */
  function Broadcasts(alerts: seq<Alert>, outputs: nat): (r: seq<Delivery>)
    decreases |alerts|
  {
    if alerts == [] then []
    else
      var k := |alerts| - 1;
      Broadcasts(alerts[..k], outputs) + Broadcast(alerts[k], outputs)
  }

  /** Sending two runs of alerts sends the first, then the second. */
  lemma {:induction false} BroadcastsAppend(xs: seq<Alert>, ys: seq<Alert>, outputs: nat)
    ensures Broadcasts(xs + ys, outputs) == Broadcasts(xs, outputs) + Broadcasts(ys, outputs)
    decreases |ys|
  {
    if ys == [] {
      assert xs + ys == xs;
    } else {
      var k := |ys| - 1;
      var last := Broadcast(ys[k], outputs);
      assert (xs + ys)[..|xs| + k] == xs + ys[..k] && (xs + ys)[|xs| + k] == ys[k];
      assert Broadcasts(xs + ys, outputs) == Broadcasts(xs + ys[..k], outputs) + last;
      BroadcastsAppend(xs, ys[..k], outputs);
      assert Broadcasts(ys, outputs) == Broadcasts(ys[..k], outputs) + last;
      AppendAssoc(Broadcasts(xs, outputs), Broadcasts(ys[..k], outputs), last);
    }
  }

  /** The alerts that went to output `o`, in the order they were sent. */
  function Received(ds: seq<Delivery>, o: nat): seq<Alert> {
    FilterMap(ds, (d: Delivery) => if d.output == o then Some(d.alert) else None)
  }

  /** One broadcast reaches each output once, and no other output. */
  lemma {:induction false} ReceivedBroadcast(alert: Alert, outputs: nat, o: nat)
    ensures Received(Broadcast(alert, outputs), o) == if o < outputs then [alert] else []
    decreases outputs
  {
    var pick := (d: Delivery) => if d.output == o then Some(d.alert) else None;
    if outputs > 0 {
      var n := outputs - 1;
      assert Broadcast(alert, outputs) == Broadcast(alert, n) + [Delivery(n, alert)];
      FilterMapAppend(Broadcast(alert, n), [Delivery(n, alert)], pick);
      ReceivedBroadcast(alert, n, o);
      assert [Delivery(n, alert)][1..] == [];
      assert FilterMap([Delivery(n, alert)], pick) == if o == n then [alert] else [];
    }
  }

  /** Every output receives every alert, in order; other outputs receive nothing. */
  lemma {:induction false} ReceivedBroadcasts(alerts: seq<Alert>, outputs: nat, o: nat)
    ensures Received(Broadcasts(alerts, outputs), o) == if o < outputs then alerts else []
    decreases |alerts|
  {
    var pick := (d: Delivery) => if d.output == o then Some(d.alert) else None;
    if alerts != [] {
      var k := |alerts| - 1;
      ReceivedBroadcasts(alerts[..k], outputs, o);
      FilterMapAppend(Broadcasts(alerts[..k], outputs), Broadcast(alerts[k], outputs), pick);
      ReceivedBroadcast(alerts[k], outputs, o);
      assert alerts == alerts[..k] + [alerts[k]];
    }
  }

  // ---------------------------------------------------------------------
  // The specification of a run.

  /** The detectors' joint state after the queries, handled one after another. */
  ghost function StateAfter(analyzers: seq<Analyzer>, qs: seq<Query>, clock: nat -> DateTime, st: States): (r: States)
    requires Covered(analyzers, st.Keys)
    ensures r.Keys == st.Keys
    decreases |qs|
  {
    if qs == [] then st
    else
      var k := |qs| - 1;
      FinalState(analyzers, qs[k], clock(k), StateAfter(analyzers, qs[..k], clock, st))
  }

  /** The alert for a query with the given findings: none when there are none. */
  function AlertFor(query: Query, findings: seq<Finding>, now: DateTime): (r: seq<Alert>)
    ensures r == [] <==> findings == []
    ensures r != [] ==> r == [Alert(query, findings, now)]
  {
    if findings == [] then [] else [Alert(query, findings, now)]
  }

  /** The alerts of a run over `qs`, in query order, where `fss[k]` are the findings for the k-th query. */
  function AlertsOf(qs: seq<Query>, fss: seq<seq<Finding>>, clock: nat -> DateTime): seq<Alert>
    requires |fss| == |qs|
    decreases |qs|
  {
    if qs == [] then []
    else
      var k := |qs| - 1;
      AlertsOf(qs[..k], fss[..k], clock) + AlertFor(qs[k], fss[k], clock(k))
  }

  /**
   * `fss` are the findings of a run of the analyzers over `qs` from the
   * joint state `st`, where `vss` are the pattern detectors' verdicts: the
   * k-th query meets the state the queries before it left.
   */
  ghost predicate RunOf(analyzers: seq<Analyzer>, qs: seq<Query>, vss: seq<Verdicts>, fss: seq<seq<Finding>>,
                        clock: nat -> DateTime, st: States) {
    && Covered(analyzers, st.Keys)
    && |vss| == |qs| && |fss| == |qs|
    && forall k :: 0 <= k < |qs| ==>
         AnalyzedAs(analyzers, vss[k], qs[k], clock(k), StateAfter(analyzers, qs[..k], clock, st), fss[k])
  }

  /**
   * `fs` are the findings of the analyzers for `query` at `now` in state
   * `st`.  Stated through a quantifier that only a mention of those results
   * unfolds, which keeps it cheap in proofs that only pass it along.
   */
  ghost predicate AnalyzedAs(analyzers: seq<Analyzer>, vs: Verdicts, query: Query, now: DateTime, st: States, fs: seq<Finding>) {
    forall st' {:trigger Results(analyzers, vs, query, now, st')} ::
      st' == st && Covered(analyzers, st'.Keys) ==> fs == Somes(Results(analyzers, vs, query, now, st'))
  }

  /** `vss` holds what the pattern detectors say about each query of `qs`. */
  ghost predicate VerdictsOnAll(vss: seq<Verdicts>, qs: seq<Query>) {
    |vss| == |qs| && forall k :: 0 <= k < |qs| ==> VerdictsOn(vss[k], qs[k].sql)
  }

  /** One more query: the state after it is the state its analysis leaves. */
  lemma StateAfterSnoc(analyzers: seq<Analyzer>, qs: seq<Query>, q: Query, clock: nat -> DateTime, st: States)
    requires Covered(analyzers, st.Keys)
    ensures StateAfter(analyzers, qs + [q], clock, st) ==
      FinalState(analyzers, q, clock(|qs|), StateAfter(analyzers, qs, clock, st))
  {
    assert (qs + [q])[..|qs|] == qs && (qs + [q])[|qs|] == q;
  }

  /** One more query analyzed in the state the run left extends the run. */
  lemma RunOfSnoc(analyzers: seq<Analyzer>, qs: seq<Query>, vss: seq<Verdicts>, fss: seq<seq<Finding>>,
                  q: Query, vs: Verdicts, fs: seq<Finding>, clock: nat -> DateTime, st: States)
    requires RunOf(analyzers, qs, vss, fss, clock, st)
    requires AnalyzedAs(analyzers, vs, q, clock(|qs|), StateAfter(analyzers, qs, clock, st), fs)
    ensures RunOf(analyzers, qs + [q], vss + [vs], fss + [fs], clock, st)
  {
    forall k | 0 <= k < |qs| + 1
      ensures AnalyzedAs(analyzers, (vss + [vs])[k], (qs + [q])[k], clock(k),
                         StateAfter(analyzers, (qs + [q])[..k], clock, st), (fss + [fs])[k])
    {
      if k < |qs| {
        assert (fss + [fs])[k] == fss[k] && (vss + [vs])[k] == vss[k];
        assert (qs + [q])[k] == qs[k] && (qs + [q])[..k] == qs[..k];
      } else {
        assert (fss + [fs])[k] == fs && (vss + [vs])[k] == vs;
        assert (qs + [q])[k] == q && (qs + [q])[..k] == qs;
      }
    }
  }

  /** The verdicts recorded for one more query extend those of the run. */
  lemma OnAllSnoc(vss: seq<Verdicts>, qs: seq<Query>, vs: Verdicts, q: Query)
    requires VerdictsOnAll(vss, qs) && VerdictsOn(vs, q.sql)
    ensures VerdictsOnAll(vss + [vs], qs + [q])
  {
    forall k | 0 <= k < |qs| + 1
      ensures VerdictsOn((vss + [vs])[k], (qs + [q])[k].sql)
    {
      if k < |qs| {
        assert (vss + [vs])[k] == vss[k] && (qs + [q])[k] == qs[k];
      }
    }
  }

  /**
   * The state of `run` after the queries `done`: the verdicts and findings
   * recorded for them, the detectors' state they leave, and the `send`
   * calls made since `sent0`.  Stated through a quantifier that only a
   * mention of the state after `done` unfolds, so that the loop of `run`
   * carries it without looking inside.
   */
  ghost predicate Progress(analyzers: seq<Analyzer>, done: seq<Query>, vss: seq<Verdicts>, fss: seq<seq<Finding>>,
                           clock: nat -> DateTime, start: States, states: States,
                           sent0: seq<Delivery>, sent: seq<Delivery>, outputs: nat) {
    && Covered(analyzers, start.Keys)
    && forall d {:trigger StateAfter(analyzers, d, clock, start)} :: d == done ==>
      && RunOf(analyzers, d, vss, fss, clock, start)
      && VerdictsOnAll(vss, d)
      && states == StateAfter(analyzers, d, clock, start)
      && sent == sent0 + Broadcasts(AlertsOf(d, fss, clock), outputs)
  }

  /** `run` starts with nothing done. */
  lemma ProgressStart(analyzers: seq<Analyzer>, clock: nat -> DateTime, start: States, sent0: seq<Delivery>, outputs: nat)
    requires Covered(analyzers, start.Keys)
    ensures Progress(analyzers, [], [], [], clock, start, start, sent0, sent0, outputs)
  {
    assert sent0 + [] == sent0;
    assert StateAfter(analyzers, [], clock, start) == start;
  }

  /** What `Progress` says, spelled out. */
  lemma ProgressMeans(analyzers: seq<Analyzer>, done: seq<Query>, vss: seq<Verdicts>, fss: seq<seq<Finding>>,
                      clock: nat -> DateTime, start: States, states: States,
                      sent0: seq<Delivery>, sent: seq<Delivery>, outputs: nat)
    requires Progress(analyzers, done, vss, fss, clock, start, states, sent0, sent, outputs)
    ensures RunOf(analyzers, done, vss, fss, clock, start) && VerdictsOnAll(vss, done)
    ensures states == StateAfter(analyzers, done, clock, start)
    ensures sent == sent0 + Broadcasts(AlertsOf(done, fss, clock), outputs)
  {
    assert StateAfter(analyzers, done, clock, start) == StateAfter(analyzers, done, clock, start);
  }

  /** Handling one more query as `run` does keeps `Progress`. */
  lemma ProgressStep(analyzers: seq<Analyzer>, done: seq<Query>, vss: seq<Verdicts>, fss: seq<seq<Finding>>,
                     clock: nat -> DateTime, start: States, states: States, sent0: seq<Delivery>, sent: seq<Delivery>,
                     outputs: nat, q: Query, vs: Verdicts, findings: seq<Finding>, states': States, sent': seq<Delivery>)
    requires Progress(analyzers, done, vss, fss, clock, start, states, sent0, sent, outputs)
    requires VerdictsOn(vs, q.sql)
    requires AnalyzedAs(analyzers, vs, q, clock(|done|), states, findings)
    requires Covered(analyzers, states.Keys) && states' == FinalState(analyzers, q, clock(|done|), states)
    requires sent' == sent + Broadcasts(AlertFor(q, findings, clock(|done|)), outputs)
    ensures Progress(analyzers, done + [q], vss + [vs], fss + [findings], clock, start, states', sent0, sent', outputs)
  {
    ProgressMeans(analyzers, done, vss, fss, clock, start, states, sent0, sent, outputs);
    var now := clock(|done|);
    var earlier := Broadcasts(AlertsOf(done, fss, clock), outputs);
    var latest := Broadcasts(AlertFor(q, findings, now), outputs);
    RunOfSnoc(analyzers, done, vss, fss, q, vs, findings, clock, start);
    StateAfterSnoc(analyzers, done, q, clock, start);
    OnAllSnoc(vss, done, vs, q);
    BroadcastsAppend(AlertsOf(done, fss, clock), AlertFor(q, findings, now), outputs);
    assert (done + [q])[..|done|] == done && (fss + [findings])[..|done|] == fss;
    AppendAssoc(sent0, earlier, latest);
  }

  // ---------------------------------------------------------------------
  // What a run promises.

  /** Every alert has findings, and there is at most one alert per query. */
  lemma {:induction false} AlertsHaveFindings(qs: seq<Query>, fss: seq<seq<Finding>>, clock: nat -> DateTime)
    requires |fss| == |qs|
    ensures forall a :: a in AlertsOf(qs, fss, clock) ==> a.findings != []
    ensures |AlertsOf(qs, fss, clock)| <= |qs|
    decreases |qs|
  {
    if qs != [] {
      var k := |qs| - 1;
      AlertsHaveFindings(qs[..k], fss[..k], clock);
    }
  }

  /** The alerts of the first queries of a run are the first alerts of the run. */
  lemma {:induction false} AlertsPrefix(qs: seq<Query>, fss: seq<seq<Finding>>, clock: nat -> DateTime, j: nat)
    requires |fss| == |qs| && j <= |qs|
    ensures AlertsOf(qs[..j], fss[..j], clock) <= AlertsOf(qs, fss, clock)
    decreases |qs|
  {
    if j < |qs| {
      var k := |qs| - 1;
      assert qs[..k][..j] == qs[..j] && fss[..k][..j] == fss[..j];
      AlertsPrefix(qs[..k], fss[..k], clock, j);
    } else {
      assert qs[..j] == qs && fss[..j] == fss;
    }
  }

  /** The k-th query raises an alert, with its findings and time, exactly when it has findings. */
  lemma AlertsExactly(qs: seq<Query>, fss: seq<seq<Finding>>, clock: nat -> DateTime, k: nat)
    requires |fss| == |qs| && k < |qs|
    ensures fss[k] != [] <==> Alert(qs[k], fss[k], clock(k)) in AlertsOf(qs, fss, clock)
  {
    AlertsHaveFindings(qs, fss, clock);
    AlertsPrefix(qs, fss, clock, k + 1);
    assert qs[..k + 1][..k] == qs[..k] && fss[..k + 1][..k] == fss[..k];
    assert qs[..k + 1][k] == qs[k] && fss[..k + 1][k] == fss[k];
  }

  /** A run where no query has findings raises no alert. */
  lemma {:induction false} NoFindingsNoAlerts(qs: seq<Query>, fss: seq<seq<Finding>>, clock: nat -> DateTime)
    requires |fss| == |qs| && forall k :: 0 <= k < |fss| ==> fss[k] == []
    ensures AlertsOf(qs, fss, clock) == []
    decreases |qs|
  {
    if qs != [] {
      var k := |qs| - 1;
      assert forall i :: 0 <= i < k ==> fss[..k][i] == fss[i];
      NoFindingsNoAlerts(qs[..k], fss[..k], clock);
    }
  }

  /**
   * In a run, the k-th query raises an alert exactly when the registry has
   * findings for it, and the alert carries the query, those findings and the time.
   */
  lemma AlertIffFindings(analyzers: seq<Analyzer>, qs: seq<Query>, vss: seq<Verdicts>, fss: seq<seq<Finding>>,
                         clock: nat -> DateTime, st: States, k: nat)
    requires RunOf(analyzers, qs, vss, fss, clock, st) && VerdictsOnAll(vss, qs) && k < |qs|
    ensures
      var findings := Findings(analyzers, qs[k], clock(k), StateAfter(analyzers, qs[..k], clock, st));
      findings != [] <==> Alert(qs[k], findings, clock(k)) in AlertsOf(qs, fss, clock)
  {
    FindingsWith(analyzers, vss[k], qs[k], clock(k), StateAfter(analyzers, qs[..k], clock, st));
    assert AnalyzedAs(analyzers, vss[k], qs[k], clock(k), StateAfter(analyzers, qs[..k], clock, st), fss[k]);
    AlertsExactly(qs, fss, clock, k);
  }

  /** With no analyzers registered a run raises no alert. */
  lemma NoAnalyzersNoAlerts(qs: seq<Query>, vss: seq<Verdicts>, fss: seq<seq<Finding>>, clock: nat -> DateTime, st: States)
    requires RunOf([], qs, vss, fss, clock, st)
    ensures AlertsOf(qs, fss, clock) == []
  {
    forall k | 0 <= k < |fss|
      ensures fss[k] == []
    {
      assert AnalyzedAs([], vss[k], qs[k], clock(k), StateAfter([], qs[..k], clock, st), fss[k]);
      assert Results([], vss[k], qs[k], clock(k), StateAfter([], qs[..k], clock, st)) == [];
    }
    NoFindingsNoAlerts(qs, fss, clock);
  }

  // ---------------------------------------------------------------------
  // The pipeline.

  class QueryPipeline {
    const input: Source
    const registry: AnalyzerRegistry
    /** How many outputs there are. */
    const outputs: nat
    /** The `send` calls made so far. */
    var sent: seq<Delivery>

    constructor (input: Source, registry: AnalyzerRegistry, outputs: nat)
      ensures this.input == input && this.registry == registry && this.outputs == outputs
      ensures sent == []
    {
      this.input := input;
      this.registry := registry;
      this.outputs := outputs;
      sent := [];
    }

    /** `output.send(alert)` on output `o`. */
    method Send(o: nat, alert: Alert)
      modifies this
      ensures sent == old(sent) + [Delivery(o, alert)]
    {
      sent := sent + [Delivery(o, alert)];
    }

    /** The inner loop of `run`: the alert goes to every output in order. */
    method SendToAll(alert: Alert)
      modifies this
      ensures sent == old(sent) + Broadcast(alert, outputs)
    {
      for o := 0 to outputs
        invariant sent == old(sent) + Broadcast(alert, o)
      {
        assert Broadcast(alert, o + 1) == Broadcast(alert, o) + [Delivery(o, alert)];
        Send(o, alert);
      }
    }

    /**
     * The body of `run` for one query: `analyze_all`, then an alert to every
     * output when there are findings.
     */
    method Handle(query: Query, now: DateTime) returns (findings: seq<Finding>, ghost vs: Verdicts)
      requires registry.Valid()
      requires SourceObject(input) != this && forall v :: v in registry.volumes ==> SourceObject(input) != v
      modifies this, registry.volumes
      ensures unchanged(SourceObject(input))
      ensures VerdictsOn(vs, query.sql)
      ensures AnalyzedAs(registry.analyzers, vs, query, now, old(StatesOf(registry.volumes)), findings)
      ensures StatesOf(registry.volumes) == FinalState(registry.analyzers, query, now, old(StatesOf(registry.volumes)))
      ensures sent == old(sent) + Broadcasts(AlertFor(query, findings, now), outputs)
    {
      findings, vs := registry.AnalyzeAll(query, now);
      if findings != [] {
        var alert := Alert(query, findings, now);
        SendToAll(alert);
        assert [alert][..0] == [];
      }
    }

    /**
     * `run`: until the source is exhausted, take the next query, analyze it,
     * and broadcast an alert when there are findings.  `vss` records what
     * the pattern detectors said about each query and `fss` the findings.
     */
    method Run(clock: nat -> DateTime, ghost queries: seq<Query>) returns (ghost vss: seq<Verdicts>, ghost fss: seq<seq<Finding>>)
      requires SourceValid(input) && HasPending(input, queries) && registry.Valid()
      modifies this, SourceObject(input), registry.volumes
      ensures SourceValid(input) && HasPending(input, [])
      ensures Progress(registry.analyzers, queries, vss, fss, clock, old(StatesOf(registry.volumes)),
                       StatesOf(registry.volumes), old(sent), sent, outputs)
    {
      ghost var start := StatesOf(registry.volumes);
      ghost var done: seq<Query> := [];
      ghost var rest := queries;
      vss, fss := [], [];
      var k := 0;
      ProgressStart(registry.analyzers, clock, start, sent, outputs);
      while true
        invariant SourceValid(input) && HasPending(input, rest) && registry.Valid()
        invariant k == |done| && queries == done + rest
        invariant SourceObject(input) != this && SourceObject(input) != registry
        invariant forall v :: v in registry.volumes ==> SourceObject(input) != v
        invariant Progress(registry.analyzers, done, vss, fss, clock, start, StatesOf(registry.volumes), old(sent), sent, outputs)
        decreases |rest|
      {
        var q := NextQuery(input, rest);
        if q.None? {
          break;
        }
        var now := clock(k);
        ghost var states := StatesOf(registry.volumes);
        ghost var sentBefore := sent;
        var findings, vs := Handle(q.value, now);
        ProgressStep(registry.analyzers, done, vss, fss, clock, start, states, old(sent), sentBefore, outputs,
                     q.value, vs, findings, StatesOf(registry.volumes), sent);
        assert rest == [q.value] + rest[1..];
        done := done + [q.value];
        rest := rest[1..];
        vss := vss + [vs];
        fss := fss + [findings];
        k := k + 1;
      }
      assert done == queries;
    }
  }
}
