/**
 * Anchored regular expressions built from a sequence of segments, each of
 * which is a single character, a fixed-width class run, a greedy `+`/`*`
 * run of a class, or the final `.*$`.  Each segment is matched greedily and
 * never revisited.  For the patterns written with it this is what Python's
 * backtracking engine finds: every `+`/`*` run is followed by a segment whose
 * first character lies outside the run's class, so a shorter run can never
 * let the rest match, and a `.*$` that meets a newline fails however many
 * whitespace characters the run before it leaves over.
 */
module Segments {
  import opened Wrappers
  import opened Text

  datatype Seg =
    | Char(c: char)          // a literal character
    | Exactly(k: CharClass, n: nat)  // `\d{n}`
    | Plus(k: CharClass)     // `\s+`, `\w+`, `\d+`, `[^:]+`
    | Star(k: CharClass)     // `\s*`, `[^:]*`
    | RestOfLine             // `.*$`: everything left, which must hold no newline

  predicate AllIn(k: CharClass, t: string) {
    forall j :: 0 <= j < |t| ==> InClass(k, t[j])
  }

  /** The texts a segment can capture. */
  predicate Shape(g: Seg, t: string) {
    match g
    case Char(c) => t == [c]
    case Exactly(k, n) => |t| == n && AllIn(k, t)
    case Plus(k) => t != [] && AllIn(k, t)
    case Star(k) => AllIn(k, t)
    case RestOfLine => '\n' !in t
  }

  /** `t` is what the greedy step captures when `next` follows it. */
  predicate Fits(g: Seg, t: string, next: string) {
    && Shape(g, t)
    && match g
       case Plus(k) => next == [] || !InClass(k, next[0])
       case Star(k) => next == [] || !InClass(k, next[0])
       case RestOfLine => next == []
       case _ => true
  }

  /** `t` is what the greedy step captures when the pieces `rest` follow it. */
  predicate FitsBefore(g: Seg, t: string, rest: seq<string>) {
    && Shape(g, t)
    && match g
       case Plus(k) => rest == [] || (rest[0] != [] && !InClass(k, rest[0][0]))
       case Star(k) => rest == [] || (rest[0] != [] && !InClass(k, rest[0][0]))
       case RestOfLine => rest == []
       case _ => true
  }

  /** Where segment `g` ends when it starts at `i`, if it matches there. */
  function Step(g: Seg, s: string, i: nat): (r: Option<nat>)
    requires i <= |s|
    ensures r.Some? ==> i <= r.value <= |s| && Shape(g, s[i..r.value])
    ensures r.Some? && g.RestOfLine? ==> r.value == |s|
  {
    match g
    case Char(c) => if i < |s| && s[i] == c then Some(i + 1) else None
    case Exactly(k, n) =>
      if i + n <= |s| && AllIn(k, s[i..i + n]) then Some(i + n) else None
    case Plus(k) =>
      var j := SkipClass(k, s, i);
      SkipClassRun(k, s, i);
      if j > i then Some(j) else None
    case Star(k) =>
      SkipClassRun(k, s, i);
      Some(SkipClass(k, s, i))
    case RestOfLine => if '\n' in s[i..] then None else Some(|s|)
  }

  function Concat(ts: seq<string>): string {
    if ts == [] then [] else ts[0] + Concat(ts[1..])
  }

  /** The captures of all segments, one per segment, matching from position `i`. */
  function MatchSegs(gs: seq<Seg>, s: string, i: nat): (r: Option<seq<string>>)
    requires i <= |s|
    ensures r.Some? ==> |r.value| == |gs|
    ensures r.Some? ==> i + |Concat(r.value)| <= |s|
    decreases |gs|
  {
    if gs == [] then Some([])
    else
      var j :- Step(gs[0], s, i);
      var rest :- MatchSegs(gs[1..], s, j);
      var r := [s[i..j]] + rest;
      assert r[1..] == rest;
      assert s[i..j + |Concat(rest)|] == s[i..j] + s[j..j + |Concat(rest)|];
      Some(r)
  }

  /** Each capture has its segment's shape. */
  lemma {:induction false} MatchSegsShapes(gs: seq<Seg>, s: string, i: nat)
    requires i <= |s| && MatchSegs(gs, s, i).Some?
    ensures forall k :: 0 <= k < |gs| ==> Shape(gs[k], MatchSegs(gs, s, i).value[k])
    decreases |gs|
  {
    if gs != [] {
      var j := Step(gs[0], s, i).value;
      var r := MatchSegs(gs, s, i).value;
      MatchSegsShapes(gs[1..], s, j);
      var rest := MatchSegs(gs[1..], s, j).value;
      assert r == [s[i..j]] + rest;
      forall k | 0 <= k < |gs|
        ensures Shape(gs[k], r[k])
      {
        if k > 0 {
          assert r[k] == rest[k - 1] && gs[k] == gs[1..][k - 1];
        }
      }
    }
  }

  /** The greedy step consumes exactly a fitting capture. */
  lemma StepFits(g: Seg, s: string, i: nat, t: string, next: string)
    requires i <= |s| && s[i..] == t + next && Fits(g, t, next)
    ensures Step(g, s, i) == Some(i + |t|)
  {
    assert s[i..i + |t|] == t;
    match g {
      case Plus(k) =>
        SkipFits(k, s, i, t, next);
      case Star(k) =>
        SkipFits(k, s, i, t, next);
      case RestOfLine =>
        assert s[i..] == t;
      case _ =>
    }
  }

  lemma SkipFits(k: CharClass, s: string, i: nat, t: string, next: string)
    requires i <= |s| && s[i..] == t + next && AllIn(k, t)
    requires next == [] || !InClass(k, next[0])
    ensures SkipClass(k, s, i) == i + |t|
  {
    assert forall m :: i <= m < i + |t| ==> s[m] == t[m - i];
    assert i + |t| < |s| ==> s[i + |t|] == next[0];
    SkipClassAt(k, s, i, i + |t|);
  }

  /** The greedy segments look no further than their captures when the last one is a literal or fixed run. */
  predicate ClosedAtEnd(gs: seq<Seg>) {
    gs == [] || gs[|gs| - 1].Char? || gs[|gs| - 1].Exactly?
  }

  /** The first segment consumes exactly the first capture. */
  lemma FirstStep(gs: seq<Seg>, ts: seq<string>, s: string, i: nat, tail: string) returns (j: nat)
    requires |gs| == |ts| && gs != [] && i <= |s| && s[i..] == Concat(ts) + tail
    requires FitsBefore(gs[0], ts[0], ts[1..])
    requires |gs| > 1 || tail == [] || gs[0].Char? || gs[0].Exactly?
    ensures Step(gs[0], s, i) == Some(j) && i <= j <= |s| && s[i..j] == ts[0]
    ensures s[j..] == Concat(ts[1..]) + tail
  {
    var next := Concat(ts[1..]) + tail;
    NextFits(gs[0], ts[0], ts[1..], tail);
    AppendAssoc(ts[0], Concat(ts[1..]), tail);
    assert s[i..] == ts[0] + next;
    StepFits(gs[0], s, i, ts[0], next);
    j := i + |ts[0]|;
    assert s[i..j] == s[i..][..|ts[0]|];
  }

  /** A capture that fits before the pieces `rest` fits before their concatenation. */
  lemma NextFits(g: Seg, t: string, rest: seq<string>, tail: string)
    requires FitsBefore(g, t, rest)
    requires rest != [] || tail == [] || g.Char? || g.Exactly?
    ensures Fits(g, t, Concat(rest) + tail)
  {
    if rest != [] && rest[0] != [] {
      assert (Concat(rest) + tail)[0] == rest[0][0];
    }
  }

  /** Each capture fits before the captures that follow it. */
  predicate AllFit(gs: seq<Seg>, ts: seq<string>)
    decreases |gs|
  {
    && |gs| == |ts|
    && (gs != [] ==> FitsBefore(gs[0], ts[0], ts[1..]) && AllFit(gs[1..], ts[1..]))
  }

  /** Matching the concatenation of fitting captures gives those captures back. */
  lemma {:induction false} MatchConcat(gs: seq<Seg>, ts: seq<string>, s: string, i: nat, tail: string)
    requires i <= |s| && s[i..] == Concat(ts) + tail
    requires AllFit(gs, ts)
    requires tail == [] || ClosedAtEnd(gs)
    ensures MatchSegs(gs, s, i) == Some(ts)
    decreases |gs|
  {
    if gs != [] {
      var j := FirstStep(gs, ts, s, i, tail);
      assert tail == [] || ClosedAtEnd(gs[1..]);
      MatchConcat(gs[1..], ts[1..], s, j, tail);
      MatchSegsCons(gs, s, i, j, ts);
    }
  }

  /** `MatchSegs` unfolded once, at a first capture `ts[0]` ending at `j`. */
  lemma MatchSegsCons(gs: seq<Seg>, s: string, i: nat, j: nat, ts: seq<string>)
    requires i <= |s| && gs != [] && ts != [] && Step(gs[0], s, i) == Some(j) && s[i..j] == ts[0]
    requires MatchSegs(gs[1..], s, j) == Some(ts[1..])
    ensures MatchSegs(gs, s, i) == Some(ts)
  {
    assert [ts[0]] + ts[1..] == ts;
  }

  /** Fitting captures stay fitting when more follow a stage that ends on a literal or fixed run. */
  lemma {:induction false} AllFitAppend(g1: seq<Seg>, t1: seq<string>, g2: seq<Seg>, t2: seq<string>)
    requires AllFit(g1, t1) && ClosedAtEnd(g1) && AllFit(g2, t2)
    ensures AllFit(g1 + g2, t1 + t2)
    decreases |g1|
  {
    if g1 == [] {
      assert g1 + g2 == g2 && t1 + t2 == t2;
    } else {
      assert (g1 + g2)[0] == g1[0] && (t1 + t2)[0] == t1[0];
      assert (g1 + g2)[1..] == g1[1..] + g2 && (t1 + t2)[1..] == t1[1..] + t2;
      if |g1| > 1 {
        assert (t1[1..] + t2)[0] == t1[1..][0];
        assert ClosedAtEnd(g1[1..]);
      }
      AllFitAppend(g1[1..], t1[1..], g2, t2);
    }
  }
}
