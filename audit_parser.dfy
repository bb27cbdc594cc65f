/**
 * The pgaudit message grammar (layer 2 of the log parser) and its
 * structured-row variant, as `PgAuditLogParser` implements them in
 * input/supabase/parser.py.
 *
 * A message is `AUDIT:` followed by the fixed prefix
 * `audit_type,statement_id,substatement_id,class,command,object_type,object_name,`
 * and then the SQL statement verbatim.  Every field of the prefix is the text up
 * to the next comma (none of the prefix's regex classes admit a comma), so the
 * regex is modelled by cutting at the first seven commas and checking each
 * field's shape.
 */
module AuditParser {
  import opened Wrappers
  import opened Text
  import opened Domain

  /** A parsed pgaudit entry; the last four fields come from the surrounding record. */
  datatype ParsedAuditLog = ParsedAuditLog(
    auditType: string,
    statementId: nat,
    substatementId: nat,
    commandClass: string,
    command: string,
    objectType: Option<string>,
    objectName: Option<string>,
    statement: string,
    parameter: Option<string>,
    timestamp: Option<DateTime>,
    userName: Option<string>,
    databaseName: Option<string>,
    sessionId: Option<string>)

  /** The redaction marker pgaudit writes in place of parameters. */
  const NotLogged: string := "<not logged>"

  /** One comma-terminated field: its text and the position just after its comma. */
  datatype Cut = Cut(text: string, next: nat)

  /** The text from `i` up to the next comma, if there is a comma. */
  function NextField(s: string, i: nat): (r: Option<Cut>)
    requires i <= |s|
    ensures r.Some? ==> i < r.value.next <= |s| && s[r.value.next - 1] == ','
    ensures r.Some? ==> r.value.text == s[i..r.value.next - 1] && ',' !in r.value.text
    ensures r.None? <==> ',' !in s[i..]
  {
    var k := IndexOf(s[i..], ',');
    if k == |s| - i then None else Some(Cut(s[i..i + k], i + k + 1))
  }

  /** `\d+` */
  predicate IsNumberField(t: string) {
    t != [] && AllDigits(t)
  }

  /** `\w+` */
  predicate IsWordField(t: string) {
    t != [] && forall i :: 0 <= i < |t| ==> IsWordChar(t[i])
  }

  /** `\w+(?:\s+\w+)*`: words separated by whitespace, as in "CREATE TABLE". */
  predicate IsCommandField(t: string) {
    && t != []
    && IsWordChar(t[0]) && IsWordChar(t[|t| - 1])
    && forall i :: 0 <= i < |t| ==> IsWordChar(t[i]) || IsSpace(t[i])
  }

  /** The groups of a successful `AUDIT_PREFIX.match`, and `match.end()`. */
  datatype PrefixMatch = PrefixMatch(
    auditType: string,
    statementId: nat,
    substatementId: nat,
    commandClass: string,
    command: string,
    objectType: string,
    objectName: string,
    end: nat)

  /** The next `n` comma-terminated fields from position `i`. */
  function CutFields(s: string, i: nat, n: nat): (r: Option<seq<Cut>>)
    requires i <= |s|
    ensures r.Some? ==> |r.value| == n
    ensures r.Some? ==> forall j :: 0 <= j < n ==> ',' !in r.value[j].text
    ensures r.Some? && n > 0 ==> r.value[n - 1].next <= |s|
    decreases n
  {
    if n == 0 then Some([])
    else
      var c :- NextField(s, i);
      var rest :- CutFields(s, c.next, n - 1);
      Some([c] + rest)
  }

  /** `AUDIT_PREFIX.match(m)`. */
  function MatchAuditPrefix(m: string): (r: Option<PrefixMatch>)
    ensures r.Some? ==> r.value.end <= |m|
    ensures r.Some? ==> StartsWith(m, "AUDIT:")
    ensures r.Some? ==> r.value.auditType == "SESSION" || r.value.auditType == "OBJECT"
    ensures r.Some? ==> IsWordField(r.value.commandClass) && IsCommandField(r.value.command)
    ensures r.Some? ==> ',' !in r.value.objectType && ',' !in r.value.objectName
  {
    if !StartsWith(m, "AUDIT:") then None
    else
      var f :- CutFields(m, SkipClass(Spaces, m, 6), 7);
      if && (f[0].text == "SESSION" || f[0].text == "OBJECT")
         && IsNumberField(f[1].text) && IsNumberField(f[2].text)
         && IsWordField(f[3].text) && IsCommandField(f[4].text)
      then
        Some(PrefixMatch(f[0].text, DecimalValue(f[1].text), DecimalValue(f[2].text),
                         f[3].text, f[4].text, f[5].text, f[6].text, f[6].next))
      else None
  }

  /** `x or None` on a captured string. */
  function NoneIfEmpty(t: string): (r: Option<string>)
    ensures r.None? <==> t == []
    ensures r.Some? ==> r.value == t
  {
    if t == [] then None else Some(t)
  }

  /** The statement and parameter that `parse_event_message` makes of the text after the prefix. */
  function SplitStatement(remainder: string): (r: (string, Option<string>))
    ensures r.1 == None || r.1 == Some(NotLogged)
    ensures r.1.Some? <==> EndsWith(Strip(remainder), NotLogged)
    ensures r.1.None? ==> r.0 == Strip(remainder)
    ensures r.0 == [] || (!IsSpace(r.0[0]) && !IsSpace(r.0[|r.0| - 1]))
  {
    var statement := Strip(remainder);
    if EndsWith(statement, NotLogged) then
      (Strip(RStripCommas(statement[..|statement| - |NotLogged|])), Some(NotLogged))
    else (statement, None)
  }

  /**
   * `PgAuditLogParser.parse_event_message`.  The prefix is matched on the
   * stripped message but its end offset is applied to the message as given,
   * as the source does; both callers pass messages without leading whitespace.
   */
  function ParseEventMessage(msg: string): (r: Option<ParsedAuditLog>)
    ensures r.Some? <==> MatchAuditPrefix(Strip(msg)).Some?
    ensures r.Some? ==> r.value.auditType == "SESSION" || r.value.auditType == "OBJECT"
    ensures r.Some? ==> r.value.parameter == None || r.value.parameter == Some(NotLogged)
    ensures r.Some? ==> (r.value.objectType.Some? ==> r.value.objectType.value != [])
    ensures r.Some? ==> (r.value.objectName.Some? ==> r.value.objectName.value != [])
    ensures r.Some? ==> r.value.timestamp == None && r.value.userName == None
    ensures r.Some? ==> r.value.databaseName == None && r.value.sessionId == None
  {
    var pm :- MatchAuditPrefix(Strip(msg));
    var (statement, parameter) := SplitStatement(msg[pm.end..]);
    Some(ParsedAuditLog(
      pm.auditType, pm.statementId, pm.substatementId, pm.commandClass, pm.command,
      NoneIfEmpty(pm.objectType), NoneIfEmpty(pm.objectName),
      statement, parameter, None, None, None, None))
  }

  // ---------------------------------------------------------------------
  // The reference encoder: what a well-formed pgaudit message looks like.
  // ---------------------------------------------------------------------

  /** The content of a pgaudit entry; `redacted` adds the trailing `,<not logged>`. */
  datatype AuditEntry = AuditEntry(
    auditType: string,
    statementId: nat,
    substatementId: nat,
    commandClass: string,
    command: string,
    objectType: Option<string>,
    objectName: Option<string>,
    statement: string,
    redacted: bool)

  predicate OptionalField(f: Option<string>) {
    f.Some? ==> f.value != [] && ',' !in f.value
  }

  /** The entries a pgaudit message can carry unambiguously. */
  predicate WellFormed(e: AuditEntry) {
    && (e.auditType == "SESSION" || e.auditType == "OBJECT")
    && IsWordField(e.commandClass)
    && IsCommandField(e.command)
    && OptionalField(e.objectType) && OptionalField(e.objectName)
    && (e.statement == [] || (!IsSpace(e.statement[0]) && !IsSpace(e.statement[|e.statement| - 1])))
    && !EndsWith(e.statement, NotLogged)
    && (e.redacted && e.statement != [] ==> e.statement[|e.statement| - 1] != ',')
  }

  /** Each field followed by a comma. */
  function FieldsText(fields: seq<string>): string {
    if fields == [] then [] else fields[0] + [','] + FieldsText(fields[1..])
  }

  function PrefixFields(e: AuditEntry): seq<string> {
    [e.auditType, NatToString(e.statementId), NatToString(e.substatementId),
     e.commandClass, e.command, e.objectType.GetOr(""), e.objectName.GetOr("")]
  }

  function StatementText(e: AuditEntry): string {
    e.statement + (if e.redacted then [','] + NotLogged else "")
  }

  /** The message pgaudit writes for `e`. */
  function Render(e: AuditEntry): string {
    "AUDIT: " + FieldsText(PrefixFields(e)) + StatementText(e)
  }

  /** What `parse_event_message` should make of `Render(e)`. */
  function Expected(e: AuditEntry): ParsedAuditLog {
    ParsedAuditLog(
      e.auditType, e.statementId, e.substatementId, e.commandClass, e.command,
      e.objectType, e.objectName, e.statement,
      if e.redacted then Some(NotLogged) else None,
      None, None, None, None)
  }

  /** Cutting one comma-terminated field off a suffix of `s`. */
  lemma FieldStep(s: string, i: nat, a: string, t: string)
    requires i <= |s| && s[i..] == a + [','] + t && ',' !in a
    ensures NextField(s, i) == Some(Cut(a, i + |a| + 1))
    ensures s[i + |a| + 1..] == t
  {
    IndexOfConcat(a, ',', t);
    assert s[i..i + |a|] == s[i..][..|a|] == a;
  }

  lemma RenderStripped(e: AuditEntry)
    requires WellFormed(e)
    ensures Strip(Render(e)) == Render(e)
  {
    var m := Render(e);
    var st := StatementText(e);
    var fs := PrefixFields(e);
    var ft := FieldsText(fs);
    assert m == "AUDIT: " + ft + st;
    assert m[0] == 'A';
    if e.redacted {
      assert m[|m| - 1] == st[|st| - 1] == '>';
    } else if e.statement == [] {
      LastOfFields(fs);
      assert m == "AUDIT: " + ft;
      assert m[|m| - 1] == ft[|ft| - 1] == ',';
    } else {
      assert m[|m| - 1] == st[|st| - 1];
    }
    StripNoop(m);
  }

  lemma LastOfFields(fs: seq<string>)
    requires fs != []
    ensures |FieldsText(fs)| > 0 && FieldsText(fs)[|FieldsText(fs)| - 1] == ','
  {
    if |fs| > 1 {
      LastOfFields(fs[1..]);
    }
  }

  lemma RStripOneComma(x: string)
    requires x == [] || x[|x| - 1] != ','
    ensures RStripCommas(x + [',']) == x
  {
    var u := x + [','];
    assert u[..|u| - 1] == x;
    assert RStripCommas(u) == RStripCommas(x);
    assert RStripCommas(x) == x;
  }

  /** A redacted statement splits back into the statement and the marker. */
  lemma SplitRedacted(statement: string)
    requires statement == [] || (!IsSpace(statement[0]) && !IsSpace(statement[|statement| - 1]))
    requires statement != [] ==> statement[|statement| - 1] != ','
    ensures SplitStatement(statement + [','] + NotLogged) == (statement, Some(NotLogged))
  {
    var st := statement + [','] + NotLogged;
    assert st[|st| - 1] == '>';
    assert !IsSpace(st[0]) by {
      if statement == [] { assert st[0] == ','; } else { assert st[0] == statement[0]; }
    }
    StripNoop(st);
    StripNoop(statement);
    assert st[|st| - |NotLogged|..] == NotLogged;
    assert st[..|st| - |NotLogged|] == statement + [','];
    RStripOneComma(statement);
  }

  /** `rstrip(",")` removes a whole run of commas and stops at the first other character. */
  lemma RStripCommaRun(x: string, c: string)
    requires x == [] || x[|x| - 1] != ','
    requires forall i :: 0 <= i < |c| ==> c[i] == ','
    ensures RStripCommas(x + c) == x
  {
    var u := x + c;
    var r := RStripCommas(u);
    assert r == u[..|x|] == x;
  }

  /** Every comma of a run between the statement and the marker is dropped. */
  lemma SplitCommaRun(statement: string, c: string)
    requires statement == [] || (!IsSpace(statement[0]) && !IsSpace(statement[|statement| - 1]))
    requires statement != [] ==> statement[|statement| - 1] != ','
    requires c != [] && forall i :: 0 <= i < |c| ==> c[i] == ','
    ensures SplitStatement(statement + c + NotLogged) == (statement, Some(NotLogged))
  {
    var st := statement + c + NotLogged;
    assert st[|st| - 1] == '>';
    assert !IsSpace(st[0]) by {
      if statement == [] { assert st[0] == c[0]; } else { assert st[0] == statement[0]; }
    }
    StripNoop(st);
    StripNoop(statement);
    assert st[|st| - |NotLogged|..] == NotLogged;
    assert st[..|st| - |NotLogged|] == statement + c;
    RStripCommaRun(statement, c);
  }

  /** A run of whitespace after a stripped statement is stripped off again. */
  lemma StripSpaceRun(statement: string, w: string)
    requires statement != [] && !IsSpace(statement[0]) && !IsSpace(statement[|statement| - 1])
    requires forall i :: 0 <= i < |w| ==> IsSpace(w[i])
    ensures Strip(statement + w) == statement
  {
    var x := statement + w;
    assert LStrip(x) == x;
    var r := RStrip(x);
    assert r == x[..|statement|] == statement;
  }

  /**
   * Whitespace before the marker stops `rstrip(",")`, which runs before the
   * final `strip()`: the statement keeps what it ends with, a comma included
   * (`SELECT 1, <not logged>` splits into `SELECT 1,` and the marker).
   */
  lemma SplitSpacedMarker(statement: string, w: string)
    requires statement != [] && !IsSpace(statement[0]) && !IsSpace(statement[|statement| - 1])
    requires w != [] && forall i :: 0 <= i < |w| ==> IsSpace(w[i])
    ensures SplitStatement(statement + w + NotLogged) == (statement, Some(NotLogged))
  {
    var st := statement + w + NotLogged;
    assert st[|st| - 1] == '>';
    assert st[0] == statement[0];
    StripNoop(st);
    var x := statement + w;
    assert st[|st| - |NotLogged|..] == NotLogged;
    assert st[..|st| - |NotLogged|] == x;
    assert x[|x| - 1] == w[|w| - 1];
    assert RStripCommas(x) == x;
    StripSpaceRun(statement, w);
  }

  /** An unredacted statement is its own split. */
  lemma SplitPlain(statement: string)
    requires statement == [] || (!IsSpace(statement[0]) && !IsSpace(statement[|statement| - 1]))
    requires !EndsWith(statement, NotLogged)
    ensures SplitStatement(statement) == (statement, None)
  {
    StripNoop(statement);
  }

  /** No field contains a comma. */
  predicate CommaFree(fs: seq<string>) {
    forall j :: 0 <= j < |fs| ==> ',' !in fs[j]
  }

  /** The cuts carry exactly the texts `fs`, in order. */
  predicate TextsAre(cuts: seq<Cut>, fs: seq<string>) {
    |cuts| == |fs| && forall j :: 0 <= j < |fs| ==> cuts[j].text == fs[j]
  }

  /** Where the last of `cuts` ends, or `start` when there are none. */
  function EndOf(cuts: seq<Cut>, start: nat): nat {
    if cuts == [] then start else cuts[|cuts| - 1].next
  }

  /** Cutting comma-free fields laid out from `start` gives back those fields, then the tail. */
  lemma {:induction false} CutsOfFields(m: string, start: nat, fs: seq<string>, st: string) returns (cuts: seq<Cut>)
    requires start <= |m| && m[start..] == FieldsText(fs) + st
    requires CommaFree(fs)
    ensures CutFields(m, start, |fs|) == Some(cuts) && TextsAre(cuts, fs)
    ensures EndOf(cuts, start) <= |m| && m[EndOf(cuts, start)..] == st
    decreases |fs|
  {
    if fs == [] {
      cuts := [];
    } else {
      var c := FirstField(m, start, fs, st);
      var rest := CutsOfFields(m, c.next, fs[1..], st);
      cuts := [c] + rest;
      ConsCuts(m, start, fs, st, c, rest);
    }
  }

  /** The inductive step of `CutsOfFields`: the first cut in front of the others. */
  lemma ConsCuts(m: string, start: nat, fs: seq<string>, st: string, c: Cut, rest: seq<Cut>)
    requires start <= |m| && fs != []
    requires NextField(m, start) == Some(c) && c.text == fs[0] && c.next <= |m|
    requires CutFields(m, c.next, |fs[1..]|) == Some(rest) && TextsAre(rest, fs[1..])
    requires EndOf(rest, c.next) <= |m| && m[EndOf(rest, c.next)..] == st
    ensures CutFields(m, start, |fs|) == Some([c] + rest) && TextsAre([c] + rest, fs)
    ensures EndOf([c] + rest, start) <= |m| && m[EndOf([c] + rest, start)..] == st
  {
    CutFieldsStep(m, start, |fs|, c, rest);
    TextsCons(c, rest, fs);
    assert EndOf([c] + rest, start) == EndOf(rest, c.next);
  }

  /** The first of the laid-out fields is cut off first, and the rest follow it. */
  lemma FirstField(m: string, start: nat, fs: seq<string>, st: string) returns (c: Cut)
    requires start <= |m| && m[start..] == FieldsText(fs) + st
    requires fs != [] && CommaFree(fs)
    ensures NextField(m, start) == Some(c) && c.text == fs[0]
    ensures c.next <= |m| && m[c.next..] == FieldsText(fs[1..]) + st
    ensures CommaFree(fs[1..])
  {
    var ft := FieldsText(fs[1..]);
    assert FieldsText(fs) == fs[0] + [','] + ft;
    AppendAssoc(fs[0] + [','], ft, st);
    assert ',' !in fs[0];
    FieldStep(m, start, fs[0], ft + st);
    c := Cut(fs[0], start + |fs[0]| + 1);
    CommaFreeTail(fs);
  }

  /** `CutFields` unfolded once, for a field found at `start`. */
  lemma CutFieldsStep(s: string, start: nat, n: nat, c: Cut, rest: seq<Cut>)
    requires start <= |s| && 0 < n && NextField(s, start) == Some(c)
    requires CutFields(s, c.next, n - 1) == Some(rest)
    ensures CutFields(s, start, n) == Some([c] + rest)
  {
  }

  lemma CommaFreeTail(fs: seq<string>)
    requires fs != [] && CommaFree(fs)
    ensures CommaFree(fs[1..])
  {
    forall j | 0 <= j < |fs| - 1
      ensures ',' !in fs[1..][j]
    {
      assert fs[1..][j] == fs[j + 1];
    }
  }

  lemma TextsCons(c: Cut, rest: seq<Cut>, fs: seq<string>)
    requires fs != [] && c.text == fs[0] && TextsAre(rest, fs[1..])
    ensures TextsAre([c] + rest, fs)
  {
    var all := [c] + rest;
    forall j | 0 <= j < |fs|
      ensures all[j].text == fs[j]
    {
      if j > 0 {
        assert all[j] == rest[j - 1] && fs[j] == fs[1..][j - 1];
      }
    }
  }

  lemma RenderLayout(e: AuditEntry)
    requires WellFormed(e)
    ensures StartsWith(Render(e), "AUDIT:")
    ensures SkipClass(Spaces, Render(e), 6) == 7
    ensures Render(e)[7..] == FieldsText(PrefixFields(e)) + StatementText(e)
  {
    var m := Render(e);
    var ft := FieldsText(PrefixFields(e));
    assert ft[0] == e.auditType[0];
    assert m[..6] == "AUDIT:";
    assert m[6] == ' ';
    assert m[7] == e.auditType[0];
  }

  /** `MatchAuditPrefix` once the seven fields are cut and each has its shape. */
  lemma PrefixFromCuts(m: string, f: seq<Cut>)
    requires StartsWith(m, "AUDIT:") && SkipClass(Spaces, m, 6) == 7 && 7 <= |m|
    requires CutFields(m, 7, 7) == Some(f)
    requires f[0].text == "SESSION" || f[0].text == "OBJECT"
    requires IsNumberField(f[1].text) && IsNumberField(f[2].text)
    requires IsWordField(f[3].text) && IsCommandField(f[4].text)
    ensures MatchAuditPrefix(m) == Some(PrefixMatch(f[0].text, DecimalValue(f[1].text), DecimalValue(f[2].text),
                                                    f[3].text, f[4].text, f[5].text, f[6].text, f[6].next))
  {
  }

  /** The prefix of a rendered entry matches with the entry's fields and ends where the statement starts. */
  lemma MatchRendered(e: AuditEntry)
    requires WellFormed(e)
    ensures var pm := MatchAuditPrefix(Render(e));
      && pm.Some?
      && pm.value.auditType == e.auditType
      && pm.value.statementId == e.statementId && pm.value.substatementId == e.substatementId
      && pm.value.commandClass == e.commandClass && pm.value.command == e.command
      && pm.value.objectType == e.objectType.GetOr("") && pm.value.objectName == e.objectName.GetOr("")
      && Render(e)[pm.value.end..] == StatementText(e)
  {
    var m := Render(e);
    var fs := PrefixFields(e);
    RenderLayout(e);
    assert CommaFree(fs);
    var end := PrefixOfLayout(m, fs, StatementText(e));
  }

  /** A message laid out as `AUDIT: ` + seven well-shaped fields + a tail matches the prefix, which ends where the tail starts. */
  lemma PrefixOfLayout(m: string, fs: seq<string>, st: string) returns (end: nat)
    requires StartsWith(m, "AUDIT:") && SkipClass(Spaces, m, 6) == 7 && 7 <= |m|
    requires m[7..] == FieldsText(fs) + st && |fs| == 7 && CommaFree(fs)
    requires fs[0] == "SESSION" || fs[0] == "OBJECT"
    requires IsNumberField(fs[1]) && IsNumberField(fs[2]) && IsWordField(fs[3]) && IsCommandField(fs[4])
    ensures MatchAuditPrefix(m) == Some(PrefixMatch(fs[0], DecimalValue(fs[1]), DecimalValue(fs[2]),
                                                    fs[3], fs[4], fs[5], fs[6], end))
    ensures end <= |m| && m[end..] == st
  {
    var f := CutsOfFields(m, 7, fs, st);
    PrefixFromCuts(m, f);
    end := f[6].next;
    assert EndOf(f, 7) == end;
  }

  /** The statement part of a rendered entry splits back into its statement and marker. */
  lemma SplitRendered(e: AuditEntry)
    requires WellFormed(e)
    ensures SplitStatement(StatementText(e)) == (e.statement, if e.redacted then Some(NotLogged) else None)
  {
    var st := StatementText(e);
    if e.redacted {
      assert st == e.statement + [','] + NotLogged;
      SplitRedacted(e.statement);
    } else {
      assert st == e.statement;
      SplitPlain(e.statement);
    }
  }

  /** `ParseEventMessage` on a message without surrounding whitespace, from its two parts. */
  lemma ParseFromParts(msg: string, pm: PrefixMatch, statement: string, parameter: Option<string>)
    requires Strip(msg) == msg && MatchAuditPrefix(msg) == Some(pm)
    requires SplitStatement(msg[pm.end..]) == (statement, parameter)
    ensures ParseEventMessage(msg) == Some(ParsedAuditLog(
      pm.auditType, pm.statementId, pm.substatementId, pm.commandClass, pm.command,
      NoneIfEmpty(pm.objectType), NoneIfEmpty(pm.objectName),
      statement, parameter, None, None, None, None))
  {
  }

  /** Parsing a rendered well-formed entry gives the entry back. */
  lemma ParseRender(e: AuditEntry)
    requires WellFormed(e)
    ensures ParseEventMessage(Render(e)) == Some(Expected(e))
  {
    var m := Render(e);
    SplitRendered(e);
    RenderStripped(e);
    MatchRendered(e);
    var pm := MatchAuditPrefix(m).value;
    ParseFromParts(m, pm, e.statement, if e.redacted then Some(NotLogged) else None);
    assert NoneIfEmpty(pm.objectType) == e.objectType;
    assert NoneIfEmpty(pm.objectName) == e.objectName;
  }

  // ---------------------------------------------------------------------
  // The structured-row variant.
  // ---------------------------------------------------------------------

  /** A JSON-like value of a log row (floats are not modelled). */
  datatype Value =
    | VNone
    | VBool(b: bool)
    | VInt(i: int)
    | VStr(s: string)
    | VTime(t: DateTime)
    | VList(items: seq<Value>)
    | VDict(fields: map<string, Value>)

  type Row = map<string, Value>

  /**
   * The library conversions the parser calls and this model does not
   * interpret: `datetime.fromisoformat`, `datetime.fromtimestamp` applied to a
   * count of microseconds, and `str()` of a list, dict or datetime.  A
   * conversion that raises ValueError or OSError (both caught) is `None`.
   */
  datatype Lib = Lib(
    fromIsoFormat: string -> Option<DateTime>,
    fromMicros: int -> Option<DateTime>,
    reprComposite: Value -> string)

  /** `dict.get(key)` */
  function Get(row: Row, key: string): Value {
    if key in row then row[key] else VNone
  }

  /** `str(value)` */
  function Str(v: Value, lib: Lib): string {
    match v
    case VNone => "None"
    case VBool(b) => if b then "True" else "False"
    case VInt(i) => IntToString(i)
    case VStr(s) => s
    case _ => lib.reprComposite(v)
  }

  /** `s.replace("Z", "+00:00")` */
  function ReplaceZ(s: string): (r: string)
    ensures 'Z' !in r
    ensures 'Z' !in s ==> r == s
  {
    if s == [] then []
    else (if s[0] == 'Z' then "+00:00" else [s[0]]) + ReplaceZ(s[1..])
  }

  /** `_extract_timestamp`: a datetime, ISO-8601 text or integer microseconds, else `None`. */
  function ExtractTimestamp(row: Row, lib: Lib): (r: Option<DateTime>)
    ensures "timestamp" !in row ==> r == None
    ensures Get(row, "timestamp").VTime? ==> r == Some(Get(row, "timestamp").t)
    ensures Get(row, "timestamp").VStr? ==> r == lib.fromIsoFormat(ReplaceZ(Get(row, "timestamp").s))
    ensures Get(row, "timestamp").VInt? ==> r == lib.fromMicros(Get(row, "timestamp").i)
    ensures Get(row, "timestamp").VList? || Get(row, "timestamp").VDict? ==> r == None
  {
    match Get(row, "timestamp")
    case VNone => None
    case VTime(t) => Some(t)
    case VStr(s) => lib.fromIsoFormat(ReplaceZ(s))
    // bool is a subclass of int in Python
    case VBool(b) => lib.fromMicros(if b then 1 else 0)
    case VInt(i) => lib.fromMicros(i)
    case _ => None
  }

  /** Following a dotted path through nested dicts; `VNone` as soon as a step is not a dict. */
  function Walk(v: Value, parts: seq<string>): Value
    decreases |parts|
  {
    if parts == [] then v
    else match v
      case VDict(m) => Walk(if parts[0] in m then m[parts[0]] else VNone, parts[1..])
      case _ => VNone
  }

  /** What `_extract_nested(row, *keys)` returns. */
  function Lookup(row: Row, keys: seq<string>, lib: Lib): Option<string> {
    if keys == [] then None
    else if '.' in keys[0] then
      var v := Walk(VDict(row), Split(keys[0], '.'));
      if !v.VNone? then Some(Str(v, lib)) else Lookup(row, keys[1..], lib)
    else if keys[0] in row then
      if row[keys[0]].VNone? then None else Some(Str(row[keys[0]], lib))
    else Lookup(row, keys[1..], lib)
  }

  /** `_extract_nested`, with its two loops. */
  method ExtractNested(row: Row, keys: seq<string>, lib: Lib) returns (r: Option<string>)
    ensures r == Lookup(row, keys, lib)
  {
    for k := 0 to |keys|
      invariant Lookup(row, keys, lib) == Lookup(row, keys[k..], lib)
    {
      var key := keys[k];
      assert keys[k..][1..] == keys[k + 1..];
      if '.' in key {
        var parts := Split(key, '.');
        var value := VDict(row);
        var j := 0;
        while j < |parts|
          invariant 0 <= j <= |parts|
          invariant Walk(VDict(row), parts) == Walk(value, parts[j..])
        {
          assert parts[j..][1..] == parts[j + 1..];
          if value.VDict? {
            value := if parts[j] in value.fields then value.fields[parts[j]] else VNone;
          } else {
            value := VNone;
            break;
          }
          j := j + 1;
        }
        if !value.VNone? {
          return Some(Str(value, lib));
        }
      } else if key in row {
        return if row[key].VNone? then None else Some(Str(row[key], lib));
      }
    }
    return None;
  }

  /** `Split` of a dotted two-part key. */
  lemma SplitDotted(a: string, b: string)
    requires '.' !in a && '.' !in b
    ensures Split(a + "." + b, '.') == [a, b]
  {
    var s := a + "." + b;
    IndexOfConcat(a, '.', b);
    assert s[|a| + 1..] == b;
    assert s[..|a|] == a;
  }

  /** The nested form `parsed.<field>` wins over the flat `<field>`; neither present gives `None`. */
  lemma NestedBeforeFlat(row: Row, field: string, lib: Lib)
    requires '.' !in field
    ensures var nested := Walk(Get(row, "parsed"), [field]);
            Lookup(row, ["parsed." + field, field], lib) ==
              if !nested.VNone? then Some(Str(nested, lib))
              else if field in row && !row[field].VNone? then Some(Str(row[field], lib))
              else None
  {
    SplitDotted("parsed", field);
    assert "parsed." + field == "parsed" + "." + field;
    var keys := ["parsed." + field, field];
    assert '.' in keys[0] by { assert keys[0][6] == '.'; }
    assert keys[1..] == [field];
    assert keys[1..][1..] == [];
    var parts := ["parsed", field];
    assert parts[1..] == [field];
    assert Walk(VDict(row), parts) == Walk(Get(row, "parsed"), [field]);
    assert Lookup(row, [field], lib) ==
      if field in row && !row[field].VNone? then Some(Str(row[field], lib)) else None;
  }

  /** The message of a row, when it is a string (`row.get("event_message", "")`). */
  function EventMessage(row: Row): Option<string> {
    match Get(row, "event_message")
    case VStr(s) => Some(s)
    case _ => None
  }

  /** `parse_log_row`: the message's audit fields plus timestamp, user, database and session from the row. */
  function ParseLogRow(row: Row, lib: Lib): (r: Option<ParsedAuditLog>)
    ensures EventMessage(row).None? ==> r == None
    ensures EventMessage(row).Some? && !StartsWith(EventMessage(row).value, "AUDIT:") ==> r == None
    ensures r.Some? <==> EventMessage(row).Some? && StartsWith(EventMessage(row).value, "AUDIT:")
                         && ParseEventMessage(EventMessage(row).value).Some?
    ensures r.Some? ==> r.value == ParseEventMessage(EventMessage(row).value).value.(
                          timestamp := ExtractTimestamp(row, lib),
                          userName := Lookup(row, ["parsed.user_name", "user_name"], lib),
                          databaseName := Lookup(row, ["parsed.database_name", "database_name"], lib),
                          sessionId := Lookup(row, ["parsed.session_id", "session_id"], lib))
  {
    var msg :- EventMessage(row);
    if msg == [] || !StartsWith(msg, "AUDIT:") then None
    else
      var parsed :- ParseEventMessage(msg);
      Some(ParsedAuditLog(
        parsed.auditType, parsed.statementId, parsed.substatementId, parsed.commandClass,
        parsed.command, parsed.objectType, parsed.objectName, parsed.statement, parsed.parameter,
        ExtractTimestamp(row, lib),
        Lookup(row, ["parsed.user_name", "user_name"], lib),
        Lookup(row, ["parsed.database_name", "database_name"], lib),
        Lookup(row, ["parsed.session_id", "session_id"], lib)))
  }
}
