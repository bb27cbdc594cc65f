/**
 * Character classes and the Python `str` operations that the two log
 * parsers and the pattern detectors rely on.  Whitespace is Python's full
 * `str.isspace()` set (which is also what `\s` matches in a `str` pattern);
 * word characters, digits and case folding are their ASCII parts.
 */
module Text {

  /** `str.isspace()`, i.e. the regex class `\s`. */
  predicate IsSpace(c: char) {
    || c == ' '
    || ('\t' <= c <= '\r')
    || ('\U{1c}' <= c <= '\U{1f}')
    || c == '\U{85}' || c == '\U{a0}' || c == '\U{1680}'
    || ('\U{2000}' <= c <= '\U{200a}')
    || c == '\U{2028}' || c == '\U{2029}' || c == '\U{202f}' || c == '\U{205f}'
    || c == '\U{3000}'
  }

  /** The regex class `\d`. */
  predicate IsDigit(c: char) {
    '0' <= c <= '9'
  }

  /** The regex class `[a-z]` under IGNORECASE. */
  predicate IsLetter(c: char) {
    ('a' <= c <= 'z') || ('A' <= c <= 'Z')
  }

  /** The regex class `\w`. */
  predicate IsWordChar(c: char) {
    IsLetter(c) || IsDigit(c) || c == '_'
  }

  /** Simple lower-casing, used for IGNORECASE comparison. */
  function Lower(c: char): (d: char)
    ensures IsLetter(c) <==> IsLetter(d)
    ensures !IsLetter(c) ==> d == c
    ensures 'A' <= d <= 'Z' ==> false
  {
    if 'A' <= c <= 'Z' then (c as int + 32) as char else c
  }

  /** `str.upper()` on the ASCII letters. */
  function Upper(s: string): (r: string)
    ensures |r| == |s|
    ensures forall i :: 0 <= i < |s| ==> (if 'a' <= s[i] <= 'z' then r[i] as int == s[i] as int - 32 else r[i] == s[i])
  {
    if s == [] then []
    else [if 'a' <= s[0] <= 'z' then (s[0] as int - 32) as char else s[0]] + Upper(s[1..])
  }

  predicate StartsWith(s: string, prefix: string) {
    |prefix| <= |s| && s[..|prefix|] == prefix
  }

  predicate EndsWith(s: string, suffix: string) {
    |suffix| <= |s| && s[|s| - |suffix|..] == suffix
  }

  /** `str.lstrip()`: drop leading whitespace. */
  function LStrip(s: string): (r: string)
    ensures |r| <= |s| && r == s[|s| - |r|..]
    ensures forall i :: 0 <= i < |s| - |r| ==> IsSpace(s[i])
    ensures r == [] || !IsSpace(r[0])
  {
    if s != [] && IsSpace(s[0]) then LStrip(s[1..]) else s
  }

  /** `str.rstrip(chars)` for a set of characters given as a predicate. */
  function RStripWhile(s: string, drop: char -> bool): (r: string)
    ensures |r| <= |s| && r == s[..|r|]
    ensures forall i :: |r| <= i < |s| ==> drop(s[i])
    ensures r == [] || !drop(r[|r| - 1])
  {
    if s != [] && drop(s[|s| - 1]) then RStripWhile(s[..|s| - 1], drop) else s
  }

  /** `str.rstrip()`: drop trailing whitespace. */
  function RStrip(s: string): (r: string)
    ensures |r| <= |s| && r == s[..|r|]
    ensures forall i :: |r| <= i < |s| ==> IsSpace(s[i])
    ensures r == [] || !IsSpace(r[|r| - 1])
  {
    RStripWhile(s, IsSpace)
  }

  /** `str.rstrip(",")`. */
  function RStripCommas(s: string): (r: string)
    ensures |r| <= |s| && r == s[..|r|]
    ensures forall i :: |r| <= i < |s| ==> s[i] == ','
    ensures r == [] || r[|r| - 1] != ','
  {
    RStripWhile(s, c => c == ',')
  }

  /** `str.strip()`: the slice of `s` between its leading and trailing whitespace. */
  function Strip(s: string): (r: string)
    ensures LeadingSpaces(s) + |r| <= |s|
    ensures r == s[LeadingSpaces(s)..LeadingSpaces(s) + |r|]
    ensures r == [] || (!IsSpace(r[0]) && !IsSpace(r[|r| - 1]))
  {
    RStrip(LStrip(s))
  }

  /** How many whitespace characters `str.lstrip()` removes. */
  function LeadingSpaces(s: string): (n: nat)
    ensures n <= |s|
  {
    |s| - |LStrip(s)|
  }

  /** Stripping twice is stripping once. */
  lemma StripIdempotent(s: string)
    ensures Strip(Strip(s)) == Strip(s)
  {
    var r := Strip(s);
    assert LStrip(r) == r;
    assert RStrip(r) == r;
  }

  /** A string without surrounding whitespace is its own strip. */
  lemma StripNoop(s: string)
    requires s == [] || (!IsSpace(s[0]) && !IsSpace(s[|s| - 1]))
    ensures Strip(s) == s
  {
    assert LStrip(s) == s;
    assert RStrip(s) == s;
  }

  predicate AllDigits(s: string) {
    forall i :: 0 <= i < |s| ==> IsDigit(s[i])
  }

  /** `int(s)` on a string of decimal digits. */
  function DecimalValue(s: string): nat
    requires AllDigits(s)
  {
    if s == [] then 0
    else DecimalValue(s[..|s| - 1]) * 10 + (s[|s| - 1] as int - '0' as int)
  }

  /** `str(n)` for a natural number. */
  function NatToString(n: nat): (r: string)
    ensures r != [] && AllDigits(r)
    ensures DecimalValue(r) == n
    ensures r[0] == '0' ==> n == 0
  {
    var d := [(n % 10 + '0' as int) as char];
    if n < 10 then d
    else
      var p := NatToString(n / 10);
      assert (p + d)[..|p + d| - 1] == p;
      p + d
  }

  /** `str(i)` for an integer. */
  function IntToString(i: int): string {
    if i < 0 then "-" + NatToString(-i) else NatToString(i)
  }

  /** Decimal rendering is injective: distinct numbers print differently. */
  lemma NatToStringInjective(m: nat, n: nat)
    requires NatToString(m) == NatToString(n)
    ensures m == n
  {
  }

  /** `str(i)` is injective too: the sign is the one non-digit it can start with. */
  lemma IntToStringInjective(i: int, j: int)
    requires IntToString(i) == IntToString(j)
    ensures i == j
  {
    if i < 0 && j >= 0 {
      assert false;
    } else if i >= 0 && j < 0 {
      assert false;
    } else if i < 0 {
      assert NatToString(-i) == IntToString(i)[1..] == IntToString(j)[1..] == NatToString(-j);
      NatToStringInjective(-i, -j);
    } else {
      NatToStringInjective(i, j);
    }
  }

  /** The first position of `c` in `s`, or `|s|` when `c` does not occur. */
  function IndexOf(s: string, c: char): (i: nat)
    ensures i <= |s|
    ensures forall j :: 0 <= j < i ==> s[j] != c
    ensures i < |s| ==> s[i] == c
  {
    if s == [] then 0
    else if s[0] == c then 0
    else 1 + IndexOf(s[1..], c)
  }

  lemma IndexOfConcat(a: string, c: char, b: string)
    requires c !in a
    ensures IndexOf(a + [c] + b, c) == |a|
  {
    var s := a + [c] + b;
    assert s[|a|] == c;
    assert forall j :: 0 <= j < |a| ==> s[j] == a[j];
  }

  /** `s.split(sep)` for a one-character separator. */
  function Split(s: string, sep: char): (parts: seq<string>)
    ensures |parts| >= 1
    ensures forall k :: 0 <= k < |parts| ==> sep !in parts[k]
    ensures Join(parts, sep) == s
    decreases |s|
  {
    var i := IndexOf(s, sep);
    if i == |s| then [s]
    else
      var rest := Split(s[i + 1..], sep);
      assert s == s[..i] + [sep] + s[i + 1..];
      [s[..i]] + rest
  }

  /** `sep.join(parts)`. */
  function Join(parts: seq<string>, sep: char): string
    requires |parts| >= 1
  {
    if |parts| == 1 then parts[0] else parts[0] + [sep] + Join(parts[1..], sep)
  }

  /** The classes a regex quantifier can repeat. */
  datatype CharClass = Spaces | Digits | WordChars | AllBut(excluded: char)

  predicate InClass(k: CharClass, c: char) {
    match k
    case Spaces => IsSpace(c)
    case Digits => IsDigit(c)
    case WordChars => IsWordChar(c)
    case AllBut(x) => c != x
  }

  /** The end of the longest run of class `k` starting at `i`. */
  function SkipClass(k: CharClass, s: string, i: nat): (j: nat)
    requires i <= |s|
    ensures i <= j <= |s|
    ensures j == |s| || !InClass(k, s[j])
    decreases |s| - i
  {
    if i < |s| && InClass(k, s[i]) then SkipClass(k, s, i + 1) else i
  }

  /** Every character the run passes over is of class `k`. */
  lemma {:induction false} SkipClassRun(k: CharClass, s: string, i: nat)
    requires i <= |s|
    ensures forall m :: i <= m < SkipClass(k, s, i) ==> InClass(k, s[m])
    decreases |s| - i
  {
    if i < |s| && InClass(k, s[i]) {
      SkipClassRun(k, s, i + 1);
    }
  }

  /** The run ends at the first position outside the class. */
  lemma {:induction false} SkipClassAt(k: CharClass, s: string, i: nat, j: nat)
    requires i <= j <= |s|
    requires forall m :: i <= m < j ==> InClass(k, s[m])
    requires j == |s| || !InClass(k, s[j])
    ensures SkipClass(k, s, i) == j
    decreases j - i
  {
    if i < j {
      SkipClassAt(k, s, i + 1, j);
    }
  }
}
