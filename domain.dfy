/**
 * The shared vocabulary of the detection engine: severities, queries with
 * their optional metadata, findings and alerts.  All of them are immutable
 * values in the source (frozen dataclasses), so they are datatypes here.
 */
module Domain {
  import opened Wrappers

  /** Alert severity, ordered LOW < MEDIUM < HIGH by its integer value. */
  datatype Severity = Low | Medium | High {

    /** The `IntEnum` value of the level. */
    function Rank(): (r: nat)
      ensures 1 <= r <= 3
    {
      match this
      case Low => 1
      case Medium => 2
      case High => 3
    }
  }

  /** `a <= b` on severities. */
  predicate AtMost(a: Severity, b: Severity) {
    a.Rank() <= b.Rank()
  }

  /** The levels are exactly 1, 2, 3 and strictly increasing, so `AtMost` is a total order. */
  lemma SeverityRanks()
    ensures Low.Rank() == 1 && Medium.Rank() == 2 && High.Rank() == 3
    ensures forall a: Severity, b: Severity :: a.Rank() == b.Rank() ==> a == b
    ensures forall a: Severity, b: Severity :: AtMost(a, b) || AtMost(b, a)
  {
  }

  /** Python's `max` on two severities. */
  function Max(a: Severity, b: Severity): (m: Severity)
    ensures AtMost(a, m) && AtMost(b, m)
    ensures m == a || m == b
  {
    if a.Rank() >= b.Rank() then a else b
  }

  /**
   * A point in time as a Python `datetime` holds it: `micros` is the clock
   * reading in microseconds since 1970-01-01 00:00:00 on that clock, and
   * `offset` is the UTC offset in microseconds for an aware value or `None`
   * for a naive one.
   */
  datatype DateTime = DateTime(micros: int, offset: Option<int>) {

    /** `datetime.timestamp()` in microseconds; a naive value is read in the host zone, taken to be UTC. */
    function Instant(): int {
      micros - offset.GetOr(0)
    }
  }

  /** Optional metadata of a query; every field defaults to absent. */
  datatype QueryMetadata = QueryMetadata(
    timestamp: Option<DateTime>,
    userId: Option<string>,
    durationMs: Option<int>,
    source: Option<string>)

  /** A captured statement and its optional metadata. */
  datatype Query = Query(sql: string, metadata: Option<QueryMetadata>)

  /** The structured `details` dictionary of the findings the three detectors produce. */
  datatype Details =
    | Patterns(patterns: seq<string>)
    | VolumeDetails(queryCount: nat, windowSeconds: nat, userId: string)

  /** One detector's verdict on one query. */
  datatype Finding = Finding(
    analyzerName: string,
    severity: Severity,
    message: string,
    details: Option<Details>)

  /** The highest severity of a non-empty sequence of findings. */
  function MaxSeverity(findings: seq<Finding>): (r: Severity)
    requires findings != []
    ensures forall i :: 0 <= i < |findings| ==> AtMost(findings[i].severity, r)
    ensures exists i :: 0 <= i < |findings| && findings[i].severity == r
  {
    if |findings| == 1 then findings[0].severity
    else
      var rest := MaxSeverity(findings[1..]);
      assert forall i :: 1 <= i < |findings| ==> findings[i] == findings[1..][i - 1];
      Max(findings[0].severity, rest)
  }

  /** The findings of all detectors for one query, with the time the alert was built. */
  datatype Alert = Alert(query: Query, findings: seq<Finding>, timestamp: DateTime) {

    /** `Alert.severity`: the highest finding severity, or LOW when there is none. */
    function TopSeverity(): (r: Severity)
      ensures findings == [] ==> r == Low
      ensures forall i :: 0 <= i < |findings| ==> AtMost(findings[i].severity, r)
      ensures findings != [] ==> exists i :: 0 <= i < |findings| && findings[i].severity == r
    {
      if findings == [] then Low else MaxSeverity(findings)
    }
  }

  /** An alert built without findings: the `findings` default is the empty tuple. */
  function AlertWithoutFindings(query: Query, timestamp: DateTime): (a: Alert)
    ensures a.findings == [] && a.TopSeverity() == Low
    ensures a.query == query && a.timestamp == timestamp
  {
    Alert(query, [], timestamp)
  }

  /** `Alert.severity` does not depend on the order of the findings. */
  lemma TopSeverityOrderIndependent(a: Alert, b: Alert)
    requires multiset(a.findings) == multiset(b.findings)
    ensures a.TopSeverity() == b.TopSeverity()
  {
    var ra, rb := a.TopSeverity(), b.TopSeverity();
    if a.findings == [] {
      assert |b.findings| == |multiset(b.findings)| == 0;
    } else {
      assert b.findings != [] by {
        assert |multiset(b.findings)| == |a.findings| > 0;
      }
      var i :| 0 <= i < |a.findings| && a.findings[i].severity == ra;
      var j :| 0 <= j < |b.findings| && b.findings[j].severity == rb;
      assert a.findings[i] in multiset(b.findings);
      assert b.findings[j] in multiset(a.findings);
      var i' :| 0 <= i' < |b.findings| && b.findings[i'] == a.findings[i];
      var j' :| 0 <= j' < |a.findings| && a.findings[j'] == b.findings[j];
      assert AtMost(ra, rb) && AtMost(rb, ra);
      SeverityRanks();
    }
  }
}
