/**
 * `VolumeAnomalyAnalyzer`: the one stateful detector.  It keeps, per user,
 * the times of that user's recent queries; each call first drops, for every
 * user, the times that have left the window ending at the current query's
 * time, then records the current query and reports when the user's count
 * exceeds 20, 50 or 100.
 *
 * Times are `DateTime` values compared by `Instant()` in microseconds, and
 * the window is a whole number of seconds.
 */
module VolumeAnomaly {
  import opened Wrappers
  import opened Text
  import opened Domain

  const Name := "volume_anomaly"
  const Anonymous := "__anonymous__"
  const HighThreshold := 100
  const MediumThreshold := 50
  const LowThreshold := 20
  const MicrosPerSecond := 1_000_000

  type History = map<string, seq<DateTime>>

  /** The bucket of a query: its metadata's user id, or the shared anonymous bucket. */
  function UserKey(query: Query): string {
    if query.metadata.Some? && query.metadata.value.userId.Some? then query.metadata.value.userId.value
    else Anonymous
  }

  /** The time of a query: its metadata's timestamp, or the clock reading `now`. */
  function EventTime(query: Query, now: DateTime): DateTime {
    if query.metadata.Some? && query.metadata.value.timestamp.Some? then query.metadata.value.timestamp.value
    else now
  }

  /** `expired_threshold`: the instant one window before `current`. */
  function Threshold(current: DateTime, windowSeconds: nat): int {
    current.Instant() - windowSeconds * MicrosPerSecond
  }

  /** The times of a list strictly after the threshold, in their order. */
  function Survivors(times: seq<DateTime>, threshold: int): (r: seq<DateTime>)
    ensures |r| <= |times|
    ensures forall t :: t in r <==> t in times && t.Instant() > threshold
  {
    if times == [] then []
    else (if times[0].Instant() > threshold then [times[0]] else []) + Survivors(times[1..], threshold)
  }

  /** The state after `_cleanup_expired`: every list filtered, emptied users removed. */
  function Pruned(h: History, threshold: int): History {
    map u | u in h && Survivors(h[u], threshold) != [] :: Survivors(h[u], threshold)
  }

  /** Cleanup part way through its loop: the users in `done` are pruned, the others untouched. */
  ghost function PartlyPruned(h: History, threshold: int, done: set<string>): History {
    map u | u in h && (u !in done || Survivors(h[u], threshold) != []) ::
      if u in done then Survivors(h[u], threshold) else h[u]
  }

  /** One turn of the cleanup loop prunes one more user. */
  lemma PartlyPrunedStep(h: History, threshold: int, done: set<string>, u: string)
    requires u in h && u !in done
    ensures var q := PartlyPruned(h, threshold, done);
      && u in q && q[u] == h[u]
      && var kept := Survivors(h[u], threshold);
         (if kept == [] then q[u := kept] - {u} else q[u := kept]) == PartlyPruned(h, threshold, done + {u})
  {
    var q := PartlyPruned(h, threshold, done);
    var kept := Survivors(h[u], threshold);
    var next := PartlyPruned(h, threshold, done + {u});
    var updated := if kept == [] then q[u := kept] - {u} else q[u := kept];
    assert updated.Keys == next.Keys;
    forall v | v in next
      ensures updated[v] == next[v]
    {
    }
  }

  /** Once every user is done, the cleanup is complete. */
  lemma PartlyPrunedAll(h: History, threshold: int)
    ensures PartlyPruned(h, threshold, h.Keys) == Pruned(h, threshold)
  {
    var a, b := PartlyPruned(h, threshold, h.Keys), Pruned(h, threshold);
    assert a.Keys == b.Keys;
  }

  /** The state after `analyze` records `ts` for `user`. */
  function Record(h: History, user: string, ts: DateTime, windowSeconds: nat): History {
    var p := Pruned(h, Threshold(ts, windowSeconds));
    p[user := (if user in p then p[user] else []) + [ts]]
  }

  /** The severity a count reaches; every threshold is exclusive. */
  function Classify(count: nat): Option<Severity> {
    if count > HighThreshold then Some(High)
    else if count > MediumThreshold then Some(Medium)
    else if count > LowThreshold then Some(Low)
    else None
  }

  /** The f-string of the message; the float window prints with one decimal, as `60.0`. */
  function Message(count: nat, windowSeconds: nat): string {
    "High query volume detected: " + NatToString(count) + " queries in " + NatToString(windowSeconds) + ".0s window"
  }

  /** The finding for a user whose list holds `count` times. */
  function Verdict(count: nat, windowSeconds: nat, user: string): (r: Option<Finding>)
    ensures r.None? <==> Classify(count).None?
  {
    match Classify(count)
    case None => None
    case Some(severity) =>
      Some(Finding(Name, severity, Message(count, windowSeconds), Some(VolumeDetails(count, windowSeconds, user))))
  }

  /** Every user in the state has at least one recorded time. */
  predicate NoEmptyLists(h: History) {
    forall u :: u in h ==> h[u] != []
  }

  class VolumeAnomalyAnalyzer {
    const windowSeconds: nat
    var queries: History

    /** `__init__`: an empty history. */
    constructor (windowSeconds: nat)
      ensures this.windowSeconds == windowSeconds
      ensures queries == map[]
    {
      this.windowSeconds := windowSeconds;
      queries := map[];
    }

    /** `_cleanup_expired`: filter the list of every user present when the call starts. */
    method CleanupExpired(current: DateTime)
      modifies this
      ensures queries == Pruned(old(queries), Threshold(current, windowSeconds))
    {
      var threshold := current.Instant() - windowSeconds * MicrosPerSecond;
      ghost var start := queries;
      var users := queries.Keys;
      var remaining := users;
      while remaining != {}
        invariant remaining <= users == start.Keys
        invariant queries == PartlyPruned(start, threshold, users - remaining)
        decreases remaining
      {
        var u :| u in remaining;
        ghost var done := users - remaining;
        PartlyPrunedStep(start, threshold, done, u);
        var kept := Survivors(queries[u], threshold);
        queries := queries[u := kept];
        if kept == [] {
          queries := queries - {u};
        }
        remaining := remaining - {u};
        assert users - remaining == done + {u};
      }
      assert users - remaining == users by {
        assert remaining == {};
      }
      PartlyPrunedAll(start, threshold);
    }

    /** `analyze`, with `now` the reading of `datetime.now()` used when the query carries no timestamp. */
    method Analyze(query: Query, now: DateTime) returns (r: Option<Finding>)
      modifies this
      ensures queries == Record(old(queries), UserKey(query), EventTime(query, now), windowSeconds)
      ensures UserKey(query) in queries
      ensures r == Verdict(|queries[UserKey(query)]|, windowSeconds, UserKey(query))
      ensures NoEmptyLists(queries)
    {
      var user := UserKey(query);
      var timestamp := EventTime(query, now);
      CleanupExpired(timestamp);
      var list := if user in queries then queries[user] else [];
      queries := queries[user := list + [timestamp]];
      var count := |queries[user]|;
      var severity: Option<Severity> := None;
      if count > HighThreshold {
        severity := Some(High);
      } else if count > MediumThreshold {
        severity := Some(Medium);
      } else if count > LowThreshold {
        severity := Some(Low);
      }
      if severity.None? {
        r := None;
      } else {
        r := Some(Finding(Name, severity.value, Message(count, windowSeconds), Some(VolumeDetails(count, windowSeconds, user))));
      }
      RecordNoEmptyLists(old(queries), user, timestamp, windowSeconds);
    }
  }

  // ---------------------------------------------------------------------
  // Properties of the sliding window.

  /** A recorded time survives a cleanup exactly when it is strictly inside the window. */
  lemma PrunedMembers(h: History, threshold: int, u: string, t: DateTime)
    ensures (u in Pruned(h, threshold) && t in Pruned(h, threshold)[u]) <==>
            (u in h && t in h[u] && t.Instant() > threshold)
  {
  }

  /** A time exactly one window older than the current one is dropped. */
  lemma ExactlyWindowOldIsDropped(h: History, user: string, ts: DateTime, windowSeconds: nat, u: string, t: DateTime)
    requires t.Instant() == ts.Instant() - windowSeconds * MicrosPerSecond
    requires u != user || t != ts
    ensures u in Record(h, user, ts, windowSeconds) ==> t !in Record(h, user, ts, windowSeconds)[u]
  {
    var th := Threshold(ts, windowSeconds);
    PrunedMembers(h, th, u, t);
  }

  /** After a call every user has a non-empty list. */
  lemma RecordNoEmptyLists(h: History, user: string, ts: DateTime, windowSeconds: nat)
    ensures NoEmptyLists(Record(h, user, ts, windowSeconds))
  {
  }

  /** The current user's list ends with the new time, after the surviving old ones. */
  lemma RecordAppends(h: History, user: string, ts: DateTime, windowSeconds: nat)
    ensures user in Record(h, user, ts, windowSeconds)
    ensures var l := Record(h, user, ts, windowSeconds)[user];
      && l[|l| - 1] == ts
      && |l| == 1 + (if user in h then |Survivors(h[user], Threshold(ts, windowSeconds))| else 0)
  {
    var p := Pruned(h, Threshold(ts, windowSeconds));
    if user in h && Survivors(h[user], Threshold(ts, windowSeconds)) != [] {
      assert user in p;
    }
  }

  /** The other users' lists are only pruned. */
  lemma RecordOthers(h: History, user: string, ts: DateTime, windowSeconds: nat, v: string)
    requires v != user
    ensures v in Record(h, user, ts, windowSeconds) <==> v in h && Survivors(h[v], Threshold(ts, windowSeconds)) != []
    ensures v in Record(h, user, ts, windowSeconds) ==>
      Record(h, user, ts, windowSeconds)[v] == Survivors(h[v], Threshold(ts, windowSeconds))
  {
  }

  /** A user's new list, and so its count and finding, depend only on that user's own history. */
  lemma UsersIndependent(h1: History, h2: History, user: string, ts: DateTime, windowSeconds: nat)
    requires user in h1 <==> user in h2
    requires user in h1 ==> h1[user] == h2[user]
    ensures Record(h1, user, ts, windowSeconds)[user] == Record(h2, user, ts, windowSeconds)[user]
  {
    var th := Threshold(ts, windowSeconds);
    assert (user in Pruned(h1, th)) == (user in Pruned(h2, th));
  }

  /** The count bands: at most 20 none, 21 to 50 LOW, 51 to 100 MEDIUM, above 100 HIGH. */
  lemma {:induction false} ThresholdBands(count: nat)
    ensures Classify(count).None? <==> count <= 20
    ensures Classify(count) == Some(Low) <==> 21 <= count <= 50
    ensures Classify(count) == Some(Medium) <==> 51 <= count <= 100
    ensures Classify(count) == Some(High) <==> count > 100
  {
  }

  /** A finding names the analyzer and carries the count, the window and the resolved user. */
  lemma VerdictDetails(count: nat, windowSeconds: nat, user: string)
    requires Verdict(count, windowSeconds, user).Some?
    ensures var f := Verdict(count, windowSeconds, user).value;
      && f.analyzerName == "volume_anomaly"
      && f.severity == Classify(count).value
      && f.details == Some(VolumeDetails(count, windowSeconds, user))
      && count > 20
  {
  }

  /** Queries without metadata and queries whose metadata has no user id share the anonymous bucket. */
  lemma AnonymousBucket(sql1: string, sql2: string, m: QueryMetadata)
    requires m.userId.None?
    ensures UserKey(Query(sql1, None)) == UserKey(Query(sql2, Some(m))) == "__anonymous__"
  {
  }

  /** The user has exactly `n` recorded times, all equal to `ts`. */
  predicate SameTimes(h: History, user: string, ts: DateTime, n: nat) {
    user in h && |h[user]| == n && forall t :: t in h[user] ==> t == ts
  }

  /**
   * Recording `n` queries at one time for one user who has no times yet
   * leaves exactly `n` times: with `n = 21` the 21st call reports LOW.
   */
  lemma {:induction false} RepeatedQueries(h: History, user: string, ts: DateTime, windowSeconds: nat, n: nat)
    requires windowSeconds > 0
    requires user !in h
    ensures n > 0 ==> SameTimes(Repeat(h, user, ts, windowSeconds, n), user, ts, n)
    decreases n
  {
    if n > 1 {
      RepeatedQueries(h, user, ts, windowSeconds, n - 1);
    }
    if n > 0 {
      RepeatOneMore(h, user, ts, windowSeconds, n);
    }
  }

  lemma RepeatOneMore(h: History, user: string, ts: DateTime, windowSeconds: nat, n: nat)
    requires windowSeconds > 0 && n > 0
    requires SameTimes(Repeat(h, user, ts, windowSeconds, n - 1), user, ts, n - 1) || (n == 1 && user !in h)
    ensures SameTimes(Repeat(h, user, ts, windowSeconds, n), user, ts, n)
  {
    RecordOneMore(Repeat(h, user, ts, windowSeconds, n - 1), user, ts, windowSeconds, n - 1);
  }

  lemma RecordOneMore(h: History, user: string, ts: DateTime, windowSeconds: nat, k: nat)
    requires windowSeconds > 0
    requires SameTimes(h, user, ts, k) || (k == 0 && user !in h)
    ensures SameTimes(Record(h, user, ts, windowSeconds), user, ts, k + 1)
  {
    RecordSameTime(h, user, ts, windowSeconds);
  }

  /** Recording at the time all of the user's entries already have keeps them all. */
  lemma RecordSameTime(h: History, user: string, ts: DateTime, windowSeconds: nat)
    requires windowSeconds > 0
    requires user in h ==> forall t :: t in h[user] ==> t == ts
    ensures user in Record(h, user, ts, windowSeconds)
    ensures Record(h, user, ts, windowSeconds)[user] == (if user in h then h[user] else []) + [ts]
  {
    var th := Threshold(ts, windowSeconds);
    if user in h {
      SameTimeSurvives(h[user], ts, windowSeconds);
      if h[user] != [] {
        assert user in Pruned(h, th);
      }
    }
  }

  /** `n` calls of `Record` for one user at one time. */
  function Repeat(h: History, user: string, ts: DateTime, windowSeconds: nat, n: nat): History
    decreases n
  {
    if n == 0 then h else Record(Repeat(h, user, ts, windowSeconds, n - 1), user, ts, windowSeconds)
  }

  /** With a positive window, a list of times all equal to the current one survives whole. */
  lemma {:induction false} SameTimeSurvives(times: seq<DateTime>, ts: DateTime, windowSeconds: nat)
    requires windowSeconds > 0
    requires forall t :: t in times ==> t == ts
    ensures Survivors(times, Threshold(ts, windowSeconds)) == times
  {
    if times != [] {
      assert times[0] in times;
      assert forall t :: t in times[1..] ==> t in times;
      SameTimeSurvives(times[1..], ts, windowSeconds);
      assert times == [times[0]] + times[1..];
    }
  }
}
