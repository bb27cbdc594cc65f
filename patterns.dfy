/**
 * The regular expressions of the two pattern detectors, compiled with
 * `re.IGNORECASE`, written as sequences of atoms.  `MatchesAt` is the
 * backtracking semantics of Python's `re` engine on this fragment: a
 * repetition may stop after any number of characters of its class, and
 * an alternation may take any of its branches.  `Search` is
 * `pattern.search(text) is not None`.
 */
module Patterns {
  import opened Wrappers
  import opened Text

  /** The classes the detectors' patterns repeat: whitespace, digits and word characters. */
  type FoldClass = k: CharClass | !k.AllBut? witness Spaces

  datatype Atom =
    | Lit(text: string)          // the literal text, letters compared without case
    | AnyOf(texts: seq<string>)  // a non-capturing group of literal alternatives
    | Letter                     // `[a-z]`, which IGNORECASE widens to `[a-zA-Z]`
    | Class(k: FoldClass)        // exactly one character of the class
    | Many(k: FoldClass)         // `k*`: zero or more characters of the class
    | Boundary                   // `\b`

  type Pattern = seq<Atom>

  /** `\s+`, `\d+` and `\w+`. */
  function Some1(k: FoldClass): Pattern {
    [Class(k), Many(k)]
  }

  /** Equality of two characters under IGNORECASE. */
  predicate SameLetter(a: char, b: char) {
    Lower(a) == Lower(b)
  }

  /** `w` occurs at position `i` of `s`, ignoring case. */
  predicate LitAt(s: string, i: nat, w: string) {
    i + |w| <= |s| && forall m :: 0 <= m < |w| ==> SameLetter(w[m], s[i + m])
  }

  predicate IsWordAt(s: string, i: int) {
    0 <= i < |s| && IsWordChar(s[i])
  }

  /** `\b`: a word character on exactly one side of position `i`. */
  predicate AtBoundary(s: string, i: nat) {
    IsWordAt(s, i - 1) != IsWordAt(s, i)
  }

  /** The pattern matches `s` starting at position `i` (the match may end anywhere). */
  predicate MatchesAt(p: Pattern, s: string, i: nat)
    requires i <= |s|
    decreases |p|
  {
    if p == [] then true
    else
      var rest := p[1..];
      match p[0]
      case Lit(w) => LitAt(s, i, w) && MatchesAt(rest, s, i + |w|)
      case AnyOf(ws) => exists w :: w in ws && LitAt(s, i, w) && MatchesAt(rest, s, i + |w|)
      case Letter => i < |s| && IsLetter(s[i]) && MatchesAt(rest, s, i + 1)
      case Class(k) => i < |s| && InClass(k, s[i]) && MatchesAt(rest, s, i + 1)
      case Many(k) => exists j :: i <= j <= SkipClass(k, s, i) && MatchesAt(rest, s, j)
      case Boundary => AtBoundary(s, i) && MatchesAt(rest, s, i)
  }

  /** Some start position at or after `i` matches. */
  predicate SearchFrom(p: Pattern, s: string, i: nat)
    requires i <= |s|
    decreases |s| - i
  {
    MatchesAt(p, s, i) || (i < |s| && SearchFrom(p, s, i + 1))
  }

  /** `re.search(p, s)` finds a match. */
  predicate Search(p: Pattern, s: string) {
    SearchFrom(p, s, 0)
  }

  lemma {:induction false} SearchFromExists(p: Pattern, s: string, i: nat)
    requires i <= |s|
    ensures SearchFrom(p, s, i) <==> exists j :: i <= j <= |s| && MatchesAt(p, s, j)
    decreases |s| - i
  {
    if MatchesAt(p, s, i) {
      assert exists j :: i <= j <= |s| && MatchesAt(p, s, j);
    } else if i < |s| {
      SearchFromExists(p, s, i + 1);
      if exists j :: i <= j <= |s| && MatchesAt(p, s, j) {
        var j :| i <= j <= |s| && MatchesAt(p, s, j);
        assert i + 1 <= j;
      }
    }
  }

  /** A search succeeds exactly when the pattern matches at some position. */
  lemma SearchExists(p: Pattern, s: string)
    ensures Search(p, s) <==> exists j :: 0 <= j <= |s| && MatchesAt(p, s, j)
  {
    SearchFromExists(p, s, 0);
  }

  /** The leftmost position at or after `i` where the pattern matches: where `re.search` reports its match. */
  function FirstMatch(p: Pattern, s: string, i: nat): (r: Option<nat>)
    requires i <= |s|
    ensures r.Some? ==> i <= r.value <= |s| && MatchesAt(p, s, r.value)
    ensures r.Some? ==> forall j :: i <= j < r.value ==> !MatchesAt(p, s, j)
    ensures r.None? ==> forall j :: i <= j <= |s| ==> !MatchesAt(p, s, j)
    decreases |s| - i
  {
    if MatchesAt(p, s, i) then Some(i)
    else if i < |s| then FirstMatch(p, s, i + 1)
    else None
  }

  // ---------------------------------------------------------------------
  // IGNORECASE: the result of a match does not depend on letter case.

  /** Two texts that differ at most in the case of their letters. */
  predicate SameUpToCase(s: string, t: string) {
    |s| == |t| && forall i :: 0 <= i < |s| ==> SameLetter(s[i], t[i])
  }

  lemma SameLetterClasses(k: FoldClass, c: char, d: char)
    requires SameLetter(c, d)
    ensures InClass(k, c) == InClass(k, d)
    ensures IsWordChar(c) == IsWordChar(d) && IsLetter(c) == IsLetter(d)
  {
    if IsLetter(c) != IsLetter(d) {
      assert false;
    }
  }

  lemma {:induction false} SkipUpToCase(k: FoldClass, s: string, t: string, i: nat)
    requires SameUpToCase(s, t) && i <= |s|
    ensures SkipClass(k, s, i) == SkipClass(k, t, i)
    decreases |s| - i
  {
    if i < |s| {
      SameLetterClasses(k, s[i], t[i]);
      SkipUpToCase(k, s, t, i + 1);
    }
  }

  lemma LitUpToCase(s: string, t: string, i: nat, w: string)
    requires SameUpToCase(s, t)
    ensures LitAt(s, i, w) == LitAt(t, i, w)
  {
    if i + |w| <= |s| {
      forall m | 0 <= m < |w|
        ensures SameLetter(w[m], s[i + m]) == SameLetter(w[m], t[i + m])
      {
        assert SameLetter(s[i + m], t[i + m]);
      }
    }
  }

  lemma BoundaryUpToCase(s: string, t: string, i: nat)
    requires SameUpToCase(s, t) && i <= |s|
    ensures AtBoundary(s, i) == AtBoundary(t, i)
  {
    if i > 0 {
      SameLetterClasses(Spaces, s[i - 1], t[i - 1]);
    }
    if i < |s| {
      SameLetterClasses(Spaces, s[i], t[i]);
    }
  }

  lemma {:induction false} MatchesUpToCase(p: Pattern, s: string, t: string, i: nat)
    requires SameUpToCase(s, t) && i <= |s|
    ensures MatchesAt(p, s, i) == MatchesAt(p, t, i)
    decreases |p|
  {
    if p != [] {
      var rest := p[1..];
      match p[0]
      case Lit(w) =>
        LitUpToCase(s, t, i, w);
        if LitAt(s, i, w) {
          MatchesUpToCase(rest, s, t, i + |w|);
        }
      case AnyOf(ws) =>
        forall w | w in ws && LitAt(s, i, w)
          ensures LitAt(t, i, w) && MatchesAt(rest, s, i + |w|) == MatchesAt(rest, t, i + |w|)
        {
          LitUpToCase(s, t, i, w);
          MatchesUpToCase(rest, s, t, i + |w|);
        }
        forall w | w in ws
          ensures LitAt(s, i, w) == LitAt(t, i, w)
        {
          LitUpToCase(s, t, i, w);
        }
      case Letter =>
        if i < |s| {
          SameLetterClasses(Spaces, s[i], t[i]);
          MatchesUpToCase(rest, s, t, i + 1);
        }
      case Class(k) =>
        if i < |s| {
          SameLetterClasses(k, s[i], t[i]);
          MatchesUpToCase(rest, s, t, i + 1);
        }
      case Many(k) =>
        SkipUpToCase(k, s, t, i);
        forall j | i <= j <= SkipClass(k, s, i)
          ensures MatchesAt(rest, s, j) == MatchesAt(rest, t, j)
        {
          MatchesUpToCase(rest, s, t, j);
        }
      case Boundary =>
        BoundaryUpToCase(s, t, i);
        MatchesUpToCase(rest, s, t, i);
    }
  }

  lemma {:induction false} SearchFromUpToCase(p: Pattern, s: string, t: string, i: nat)
    requires SameUpToCase(s, t) && i <= |s|
    ensures SearchFrom(p, s, i) == SearchFrom(p, t, i)
    ensures FirstMatch(p, s, i) == FirstMatch(p, t, i)
    decreases |s| - i
  {
    MatchesUpToCase(p, s, t, i);
    if i < |s| {
      SearchFromUpToCase(p, s, t, i + 1);
    }
  }

  /** IGNORECASE: changing the case of letters changes neither whether nor where a pattern matches. */
  lemma SearchUpToCase(p: Pattern, s: string, t: string)
    requires SameUpToCase(s, t)
    ensures Search(p, s) == Search(p, t)
    ensures FirstMatch(p, s, 0) == FirstMatch(p, t, 0)
  {
    SearchFromUpToCase(p, s, t, 0);
  }

  /** `str.upper()` only changes the case of letters. */
  lemma UpperSameUpToCase(s: string)
    ensures SameUpToCase(s, Upper(s))
  {
    var u := Upper(s);
    forall i | 0 <= i < |s|
      ensures SameLetter(s[i], u[i])
    {
    }
  }

  // ---------------------------------------------------------------------
  // The capturing patterns `\bKEYWORD\s+(\d+)` of the exfiltration detector.

  /** `\bKEYWORD\s+(\d+)`. */
  function NumberAfter(keyword: string): Pattern {
    [Boundary, Lit(keyword)] + Some1(Spaces) + Some1(Digits)
  }

  /**
   * Group 1 of a match of `NumberAfter(keyword)` started at `j`: the digits
   * after the run of whitespace that follows the keyword.  Since neither
   * repetition can give back a character the next atom would accept, the
   * first path the backtracking engine succeeds on takes both runs whole.
   */
  function DigitsGroup(keyword: string, s: string, j: nat): string
    requires j + |keyword| <= |s|
  {
    var d := SkipClass(Spaces, s, j + |keyword|);
    s[d..SkipClass(Digits, s, d)]
  }

  /** After `\s+\d+` matches at `e`, the whitespace run from `e` is followed by a digit. */
  lemma SpacesThenDigit(s: string, e: nat)
    requires e <= |s| && MatchesAt(Some1(Spaces) + Some1(Digits), s, e)
    ensures e < |s| && SkipClass(Spaces, s, e) < |s| && IsDigit(s[SkipClass(Spaces, s, e)])
  {
    var p := Some1(Spaces) + Some1(Digits);
    assert p[1..] == [Many(Spaces)] + ([Class(Digits)] + [Many(Digits)]);
    assert InClass(Spaces, s[e]) && MatchesAt(p[1..], s, e + 1);
    RunThenDigit(s, e + 1, [Many(Digits)]);
    assert SkipClass(Spaces, s, e) == SkipClass(Spaces, s, e + 1);
  }

  /** After `\s*\d` matches at `i`, the whitespace run from `i` is followed by a digit. */
  lemma RunThenDigit(s: string, i: nat, rest: Pattern)
    requires i <= |s| && MatchesAt([Many(Spaces)] + ([Class(Digits)] + rest), s, i)
    ensures SkipClass(Spaces, s, i) < |s| && IsDigit(s[SkipClass(Spaces, s, i)])
  {
    var m := ManyWitness(Spaces, [Class(Digits)] + rest, s, i);
    ClassHead(Digits, rest, s, m);
    SkipClassRun(Spaces, s, i);
    assert !InClass(Spaces, s[m]);
  }

  /** Where a repetition that matches gives over to the rest of the pattern. */
  lemma ManyWitness(k: FoldClass, rest: Pattern, s: string, i: nat) returns (m: nat)
    requires i <= |s| && MatchesAt([Many(k)] + rest, s, i)
    ensures i <= m <= SkipClass(k, s, i) && MatchesAt(rest, s, m)
  {
    assert ([Many(k)] + rest)[1..] == rest;
    m :| i <= m <= SkipClass(k, s, i) && MatchesAt(rest, s, m);
  }

  /** A class atom that matches consumes one character of the class. */
  lemma ClassHead(k: FoldClass, rest: Pattern, s: string, i: nat)
    requires i <= |s| && MatchesAt([Class(k)] + rest, s, i)
    ensures i < |s| && InClass(k, s[i])
  {
  }

  /** A match of `NumberAfter` captures a non-empty run of digits. */
  lemma GroupIsNumber(keyword: string, s: string, j: nat)
    requires j <= |s| && MatchesAt(NumberAfter(keyword), s, j)
    ensures j + |keyword| < |s|
    ensures DigitsGroup(keyword, s, j) != [] && AllDigits(DigitsGroup(keyword, s, j))
  {
    var p := NumberAfter(keyword);
    assert p[1..] == [Lit(keyword)] + Some1(Spaces) + Some1(Digits);
    assert p[1..][1..] == Some1(Spaces) + Some1(Digits);
    assert MatchesAt(p[1..], s, j);
    SpacesThenDigit(s, j + |keyword|);
    SkipClassRun(Digits, s, SkipClass(Spaces, s, j + |keyword|));
  }

  /** The text of group 1 of `re.search(NumberAfter(keyword), s)`, or None when there is no match. */
  function FirstNumber(keyword: string, s: string): (r: Option<string>)
    ensures r.Some? <==> Search(NumberAfter(keyword), s)
    ensures r.Some? ==> r.value != [] && AllDigits(r.value)
  {
    SearchExists(NumberAfter(keyword), s);
    match FirstMatch(NumberAfter(keyword), s, 0)
    case None => None
    case Some(j) =>
      GroupIsNumber(keyword, s, j);
      assert MatchesAt(NumberAfter(keyword), s, j);
      Some(DigitsGroup(keyword, s, j))
  }

  /** Case changes leave the captured digits alone. */
  lemma FirstNumberUpToCase(keyword: string, s: string, t: string)
    requires SameUpToCase(s, t)
    ensures FirstNumber(keyword, s) == FirstNumber(keyword, t)
  {
    var p := NumberAfter(keyword);
    SearchUpToCase(p, s, t);
    var fm := FirstMatch(p, s, 0);
    if fm.Some? {
      var j := fm.value;
      GroupIsNumber(keyword, s, j);
      var e := j + |keyword|;
      var d := SkipClass(Spaces, s, e);
      SkipUpToCase(Spaces, s, t, e);
      SkipUpToCase(Digits, s, t, d);
      SkipClassRun(Digits, s, d);
      DigitsUpToCase(s, t, d, SkipClass(Digits, s, d));
    }
  }

  /** A run of digits reads the same in two texts that agree up to case. */
  lemma DigitsUpToCase(s: string, t: string, d: nat, f: nat)
    requires SameUpToCase(s, t) && d <= f <= |s|
    requires forall m :: d <= m < f ==> IsDigit(s[m])
    ensures s[d..f] == t[d..f]
  {
    forall m | d <= m < f
      ensures s[m] == t[m]
    {
      SameDigit(s[m], t[m]);
    }
  }

  /** Only a digit is a digit up to case. */
  lemma SameDigit(c: char, d: char)
    requires IsDigit(c) && SameLetter(c, d)
    ensures c == d
  {
  }
}
