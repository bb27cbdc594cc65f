# supabase-query-alert, modelled in Dafny

supabase-query-alert watches the SQL a PostgreSQL database runs and raises
alerts about suspicious statements. Queries come from one of three sources:

- a fixed list;
- the structured rows that the Supabase logs service returns for pgaudit entries;
- the lines of a PostgreSQL log file in the `%t:%r:%u@%d:[%p]:` prefix format.

Each query is handed to an analyzer registry. The registry asks three
detectors in turn:

- SQL injection, a three-tier table of case-insensitive regular expressions;
- data exfiltration, a table plus `LIMIT` and `OFFSET` checks;
- volume anomaly, a per-user sliding window of query times with thresholds 20, 50 and 100.

When any detector reports a finding, the pipeline builds one alert and sends
it to every output.

The model follows the source's own structure:

| Module | Models |
|---|---|
| `Domain` | The value types: severities ordered LOW < MEDIUM < HIGH, query metadata, queries, findings, and alerts with their `severity` property. |
| `Text` | The string operations the parsers use: `strip`, `rstrip(',')`, `split`, case folding, decimal digits, `str()` of an integer. |
| `AuditParser` | The pgaudit message grammar (`AUDIT_PREFIX`), `parse_event_message`, and the row-level `parse_log_row` with its timestamp and nested-field extraction. |
| `Segments` and `LogLineParser` | The anchored `LOG_LINE_PATTERN`, and `parse_line`, `_parse_prefix`, `_parse_timestamp` and `_parse_user_db`. |
| `Patterns`, `Detection`, `SqlInjection`, `DataExfiltration` | Python `re.search` with `IGNORECASE` on the fragment of regular expressions the detectors use, plus the two pattern detectors' three-tier scan. |
| `VolumeAnomaly` | The stateful volume detector, as a class whose per-user history its `analyze` method updates in place. |
| `Registry` | `AnalyzerRegistry`, as a class holding its analyzer list; `analyze_all` is a loop over it. |
| `Inputs` | The three query sources, as classes with an index that `__anext__` advances. |
| `LogClient` | The network-free parts of `SupabaseLogClient`: the range check, the defaults and clamps, the default SQL text, and `_extract_rows`. |
| `Pipeline` | `QueryPipeline.run`, as a loop over a source whose invariant ties the alerts sent to the findings of every query read. |

Stateful code is modelled in imperative Dafny:

- the volume detector's history, the registry's analyzer list, each source's position and the pipeline's record of `send` calls are class fields;
- the loops of `_cleanup_expired`, `analyze_all`, `_parse_rows`, the log-file `__anext__`, `_extract_nested` and `run` are `while`/`for` loops with invariants;
- each loop is proved against a specification function on values, and the properties are proved about those functions.

## Model

| member | source | states |
|---|---|---|
| `Domain.Severity.Rank` | src/supabase_query_alert/domain/models.py:9-14 | the `IntEnum` values are 1, 2 and 3 |
| `Domain.SeverityRanks` | src/supabase_query_alert/domain/models.py:9-14 | LOW = 1, MEDIUM = 2, HIGH = 3; the value determines the level, and any two levels are comparable |
| `Domain.Max` | src/supabase_query_alert/analyzers/sql_injection.py:52 | `max` of two severities is one of them and at least both |
| `Domain.MaxSeverity` | src/supabase_query_alert/domain/models.py:58 | the maximum of non-empty findings bounds every finding's severity and is attained by one of them |
| `Domain.Alert.TopSeverity` | src/supabase_query_alert/domain/models.py:53-58 | LOW without findings; otherwise an upper bound of all finding severities that some finding attains |
| `Domain.AlertWithoutFindings` | src/supabase_query_alert/domain/models.py:50 | an alert built with the default (empty) findings has severity LOW |
| `Domain.TopSeverityOrderIndependent` | src/supabase_query_alert/domain/models.py:53-58 | alerts whose findings are permutations of each other have the same severity |
| `Text.Strip` | src/supabase_query_alert/input/supabase/parser.py:52 | the result is a contiguous slice of the input, with only whitespace removed on either side and none left at its ends |
| `Text.StripIdempotent` | src/supabase_query_alert/input/supabase/parser.py:45 | stripping twice is stripping once |
| `Text.StripNoop` | src/supabase_query_alert/input/logfile/parser.py:37 | a string with no whitespace at its ends is its own strip |
| `Text.RStripCommas` | src/supabase_query_alert/input/supabase/parser.py:56 | `rstrip(',')` removes exactly the trailing commas |
| `Text.Upper` | src/supabase_query_alert/input/logfile/parser.py:93 | `upper()` on ASCII: same length, lower-case letters raised, everything else kept |
| `Text.NatToString` | src/supabase_query_alert/input/logfile/parser.py:67 | `str(n)` is a non-empty digit string whose decimal value is `n`, with no leading zero unless `n` is 0 |
| `Text.IntToStringInjective` | src/supabase_query_alert/input/supabase/client.py:104 | `str()` of an integer determines the integer |
| `Text.Split` | src/supabase_query_alert/input/supabase/parser.py:135 | `split(sep)` gives at least one part, no part contains the separator, and joining the parts gives the input back |
| `Text.IndexOfConcat` | src/supabase_query_alert/input/logfile/parser.py:30 | the first separator of `a + sep + b` is at the length of `a` when `a` has none |
| `Text.SkipClass` | src/supabase_query_alert/input/logfile/parser.py:22 | a greedy class run stops at the end or at the first character outside the class |
| `Text.SkipClassRun` | src/supabase_query_alert/input/logfile/parser.py:22 | every character a greedy run passes over is in the class |
| `AuditParser.NextField` | src/supabase_query_alert/input/supabase/parser.py:36-37 | a `[^,]*,` field is the text up to the first comma; there is no field exactly when no comma is left |
| `AuditParser.CutFields` | src/supabase_query_alert/input/supabase/parser.py:31-37 | the seven comma-terminated fields: exactly that many, none containing a comma |
| `AuditParser.MatchAuditPrefix` | src/supabase_query_alert/input/supabase/parser.py:29-38 | a match implies the message starts with `AUDIT:`, the type is SESSION or OBJECT, the class is `\w+`, the command is `\w+(\s+\w+)*`, and the object fields have no comma |
| `AuditParser.SplitStatement` | src/supabase_query_alert/input/supabase/parser.py:52-57 | the parameter is `<not logged>` exactly when the stripped remainder ends with it; otherwise the statement is the stripped remainder; the statement is always stripped |
| `AuditParser.ParseEventMessage` | src/supabase_query_alert/input/supabase/parser.py:40-69 | a result exactly when the stripped message matches the prefix; the type, the parameter and the empty-to-None object fields are constrained; the row-only fields are None |
| `AuditParser.RenderStripped` | src/supabase_query_alert/input/supabase/parser.py:45 | a well-formed rendered entry is already stripped |
| `AuditParser.MatchRendered` | src/supabase_query_alert/input/supabase/parser.py:29-38 | the prefix regex matches a rendered entry and returns each of its fields, ending where the statement starts |
| `AuditParser.SplitRendered` | src/supabase_query_alert/input/supabase/parser.py:52-57 | the statement of a rendered entry splits back into the statement and, when redacted, `<not logged>` |
| `AuditParser.SplitRedacted` | src/supabase_query_alert/input/supabase/parser.py:55-57 | `statement,<not logged>` splits into the statement and the marker |
| `AuditParser.RStripCommaRun` | src/supabase_query_alert/input/supabase/parser.py:57 | `rstrip(",")` removes a whole run of trailing commas and stops at the first other character |
| `AuditParser.SplitCommaRun` | src/supabase_query_alert/input/supabase/parser.py:55-57 | a whole run of commas between the statement and `<not logged>` is dropped, not just one |
| `AuditParser.SplitSpacedMarker` | src/supabase_query_alert/input/supabase/parser.py:55-57 | whitespace before `<not logged>` keeps the statement's own trailing comma, because the commas are stripped before the whitespace |
| `AuditParser.SplitPlain` | src/supabase_query_alert/input/supabase/parser.py:52-55 | a stripped statement without the marker is kept whole with no parameter |
| `AuditParser.ParseRender` | src/supabase_query_alert/input/supabase/parser.py:40-69 | round trip: parsing the rendering of any well-formed entry gives back that entry |
| `AuditParser.ReplaceZ` | src/supabase_query_alert/input/supabase/parser.py:120 | the result has no `Z`, and a string without `Z` is unchanged |
| `AuditParser.ExtractTimestamp` | src/supabase_query_alert/input/supabase/parser.py:110-130 | absent: None; a datetime: itself; a string: `fromisoformat` after the `Z` replacement; an integer: `fromtimestamp` of microseconds; anything else: None |
| `AuditParser.ExtractNested` | src/supabase_query_alert/input/supabase/parser.py:132-147 | the loop over the keys returns the value of the first dotted key whose walk reaches a non-None value, or of the first present flat key |
| `AuditParser.SplitDotted` | src/supabase_query_alert/input/supabase/parser.py:135 | `parsed.user_name` splits into its two parts |
| `AuditParser.NestedBeforeFlat` | src/supabase_query_alert/input/supabase/parser.py:90-92 | the `parsed.*` value wins over the flat key whenever it is present |
| `AuditParser.ParseLogRow` | src/supabase_query_alert/input/supabase/parser.py:71-108 | None for a missing or non-`AUDIT:` message; otherwise the parsed message with the row's timestamp, user, database and session |
| `Segments.Step` | src/supabase_query_alert/input/logfile/parser.py:21-28 | one segment consumes a piece of its shape; `.*$` consumes the rest of the line |
| `Segments.MatchSegs` | src/supabase_query_alert/input/logfile/parser.py:41 | an anchored match yields one capture per segment, within the input |
| `Segments.MatchSegsShapes` | src/supabase_query_alert/input/logfile/parser.py:21-28 | every capture of a match has its segment's shape |
| `Segments.MatchConcat` | src/supabase_query_alert/input/logfile/parser.py:21-28 | the pattern matches the concatenation of fitting pieces and captures exactly those pieces |
| `LogLineParser.MatchLogLine` | src/supabase_query_alert/input/logfile/parser.py:21-28 | every group of a match has its regex's shape (digits, `\w+`, `[^:]*`) |
| `LogLineParser.PiecesFit` | src/supabase_query_alert/input/logfile/parser.py:21-28 | the pieces of any well-formed line fit the pattern's segments |
| `LogLineParser.MatchRenderedLine` | src/supabase_query_alert/input/logfile/parser.py:21-28 | round trip: `LOG_LINE_PATTERN` matched against a rendered well-formed line returns exactly its groups |
| `LogLineParser.RenderedLineStripped` | src/supabase_query_alert/input/logfile/parser.py:37 | a rendered well-formed line survives `strip()` unchanged |
| `LogLineParser.ParseUserDb` | src/supabase_query_alert/input/logfile/parser.py:97-103 | an empty conn gives no user or database; a user is non-empty and `@`-free; with a database, conn is `user@db` |
| `LogLineParser.UserDbSplit` | src/supabase_query_alert/input/logfile/parser.py:30 | `u@d` splits into user `u` and database `d` |
| `LogLineParser.UserOnly` | src/supabase_query_alert/input/logfile/parser.py:30 | a conn without `@` is a user with no database |
| `LogLineParser.NoUser` | src/supabase_query_alert/input/logfile/parser.py:30 | a conn starting with `@` matches nothing and gives neither |
| `LogLineParser.DaysInMonth` | src/supabase_query_alert/input/logfile/parser.py:92 | a month has 28 to 31 days |
| `LogLineParser.EpochIsZero` | src/supabase_query_alert/input/logfile/parser.py:92 | 1970-01-01 00:00:00 is instant 0 |
| `LogLineParser.NextDay` | src/supabase_query_alert/input/logfile/parser.py:92 | consecutive days are one day apart |
| `LogLineParser.NewYear` | src/supabase_query_alert/input/logfile/parser.py:92 | January 1 follows December 31 |
| `LogLineParser.MarchFirst` | src/supabase_query_alert/input/logfile/parser.py:92 | March 1 follows February 28 or, in a leap year, February 29 |
| `LogLineParser.MonthStep` | src/supabase_query_alert/input/logfile/parser.py:92 | the first of each month follows the last day of the month before |
| `LogLineParser.ParseTimestamp` | src/supabase_query_alert/input/logfile/parser.py:91-95 | a datetime exactly when the fields form a valid calendar time; aware UTC exactly when the zone upper-cases to `UTC`, naive otherwise |
| `LogLineParser.LowerUtcTagged` | src/supabase_query_alert/input/logfile/parser.py:93 | `utc` counts as UTC and `EST` does not |
| `LogLineParser.ParsePrefix` | src/supabase_query_alert/input/logfile/parser.py:70-89 | defined exactly when the timestamp is; client empty-to-None after strip; user and database from the stripped conn; pid as a number; the level as captured |
| `LogLineParser.SessionId` | src/supabase_query_alert/input/logfile/parser.py:67 | a session id exactly for a non-zero pid, and it spells that pid |
| `LogLineParser.ParseLine` | src/supabase_query_alert/input/logfile/parser.py:35-68 | None for blank and non-audit lines; a result exactly when prefix and message both parse, namely the message fields with the prefix's timestamp, user, database and session |
| `LogLineParser.ParseLineAsWritten` | src/supabase_query_alert/input/logfile/parser.py:49 | the source raises exactly on an audit line whose timestamp is not a calendar time |
| `LogLineParser.CorrectedAgrees` | src/supabase_query_alert/input/logfile/parser.py:35-68 | where the source returns a value the corrected parser returns the same; where it raises, the corrected parser gives None |
| `LogLineParser.BadMonthRaises` | src/supabase_query_alert/input/logfile/parser.py:92 | a well-formed audit line dated month 13 makes the source raise |
| `LogLineParser.LineOfRendered` | src/supabase_query_alert/input/logfile/parser.py:37-43 | a rendered line is stripped and matched back to its groups |
| `LogLineParser.ParseRenderedLine` | src/supabase_query_alert/input/logfile/parser.py:35-68 | round trip: a rendered audit line with a valid timestamp parses to its message's fields plus its prefix |
| `Patterns.SearchExists` | src/supabase_query_alert/analyzers/sql_injection.py:46 | `search` succeeds exactly when the pattern matches at some position |
| `Patterns.FirstMatch` | src/supabase_query_alert/analyzers/data_exfiltration.py:42 | the leftmost match position: it matches and no earlier position does; None when no position matches |
| `Patterns.MatchesUpToCase` | src/supabase_query_alert/analyzers/sql_injection.py:12 | with `IGNORECASE`, texts that differ only in letter case match the same patterns at the same positions |
| `Patterns.SearchUpToCase` | src/supabase_query_alert/analyzers/sql_injection.py:46 | texts equal up to case have the same search result and the same leftmost match |
| `Patterns.UpperSameUpToCase` | src/supabase_query_alert/analyzers/sql_injection.py:12 | a text and its upper-case form are equal up to case |
| `Patterns.GroupIsNumber` | src/supabase_query_alert/analyzers/data_exfiltration.py:31-32 | the `(\d+)` group of `KEYWORD\s+(\d+)` is a non-empty digit string |
| `Patterns.FirstNumber` | src/supabase_query_alert/analyzers/data_exfiltration.py:42-43 | `group(1)` of the first match exists exactly when the pattern is found, and it is a non-empty digit string |
| `Patterns.FirstNumberUpToCase` | src/supabase_query_alert/analyzers/data_exfiltration.py:31 | the captured number does not depend on letter case |
| `Detection.TierHits` | src/supabase_query_alert/analyzers/sql_injection.py:45-47 | one tier contributes at most one match per rule, all of that tier's severity |
| `Detection.ScanTiers` | src/supabase_query_alert/analyzers/sql_injection.py:42-47 | the nested loop collects exactly the table's matches, in table order |
| `Detection.TierHitsMembers` | src/supabase_query_alert/analyzers/sql_injection.py:45-47 | a match is in a tier's hits exactly when some rule of the tier is found in the text |
| `Detection.TableHitsMembers` | src/supabase_query_alert/analyzers/sql_injection.py:44-47 | a match is collected exactly when some rule of some tier is found, with that tier's severity and that rule's description |
| `Detection.TableHitsEmpty` | src/supabase_query_alert/analyzers/sql_injection.py:49-50 | no matches exactly when no rule is found |
| `Detection.TableHitsBound` | src/supabase_query_alert/analyzers/sql_injection.py:42-47 | at most one match per rule |
| `Detection.HitsDescending` | src/supabase_query_alert/analyzers/sql_injection.py:44 | scanning HIGH, MEDIUM, LOW yields matches in non-increasing severity, each of a tier's severity |
| `Detection.BuildFinding` | src/supabase_query_alert/analyzers/sql_injection.py:49-60 | no finding exactly when no matches; otherwise the analyzer's name, the maximum severity, the first description in the message, and all descriptions in order as details |
| `Detection.FirstIsHighest` | src/supabase_query_alert/analyzers/sql_injection.py:52 | the highest severity is the first match's, so the message names a match of the reported severity |
| `Detection.AppendLow` | src/supabase_query_alert/analyzers/data_exfiltration.py:37-48 | table hits of HIGH and MEDIUM followed by LOW extras stay non-increasing, and every LOW match is an extra |
| `Detection.TableHitsUpToCase` | src/supabase_query_alert/analyzers/sql_injection.py:44-47 | the collected matches do not depend on letter case |
| `SqlInjection.Analyze` | src/supabase_query_alert/analyzers/sql_injection.py:41-60 | `analyze` returns the detector's verdict on the statement |
| `SqlInjection.TableShape` | src/supabase_query_alert/analyzers/sql_injection.py:10-39 | the table has 22 rules in tiers HIGH, MEDIUM, LOW |
| `SqlInjection.NoneIffNoMatch` | src/supabase_query_alert/analyzers/sql_injection.py:49-50 | no finding exactly when none of the 22 patterns is found |
| `SqlInjection.FindingContents` | src/supabase_query_alert/analyzers/sql_injection.py:52-60 | the finding's name, message and details (1 to 22 descriptions, exactly those of the rules found), and a severity that is the highest tier found and the first description's |
| `SqlInjection.HighRuleGivesHigh` | src/supabase_query_alert/analyzers/sql_injection.py:11-22 | any HIGH pattern found makes the finding HIGH |
| `SqlInjection.CaseInsensitive` | src/supabase_query_alert/analyzers/sql_injection.py:12-37 | the verdict on the upper-cased statement equals the verdict on the statement |
| `SqlInjection.StackedWaitforIsHigh` | src/supabase_query_alert/analyzers/sql_injection.py:19 | `; WAITFOR` is reported HIGH, although it also matches the LOW `WAITFOR` rule |
| `DataExfiltration.Analyze` | src/supabase_query_alert/analyzers/data_exfiltration.py:34-61 | `analyze` returns the detector's verdict on the statement |
| `DataExfiltration.ScannedIsTable` | src/supabase_query_alert/analyzers/data_exfiltration.py:37 | scanning only HIGH and MEDIUM loses nothing, because the LOW tier is empty |
| `DataExfiltration.NoneIff` | src/supabase_query_alert/analyzers/data_exfiltration.py:50-51 | no finding exactly when no table rule is found, the first LIMIT is at most 1000, and the first OFFSET is 0 or absent |
| `DataExfiltration.SeverityOrder` | src/supabase_query_alert/analyzers/data_exfiltration.py:37-48 | table matches are never LOW, the match list is non-increasing, and the LOW matches are the LIMIT and OFFSET ones |
| `DataExfiltration.FindingContents` | src/supabase_query_alert/analyzers/data_exfiltration.py:53-61 | the finding's name, details (table, then LIMIT, then OFFSET descriptions), a message naming the first match, and a severity that is the first match's and the highest |
| `DataExfiltration.HighRuleGivesHigh` | src/supabase_query_alert/analyzers/data_exfiltration.py:13-18 | any HIGH pattern found makes the finding HIGH |
| `DataExfiltration.CaseInsensitive` | src/supabase_query_alert/analyzers/data_exfiltration.py:13-48 | the verdict does not change when the statement is upper-cased |
| `DataExfiltration.LimitAboveBound` | src/supabase_query_alert/analyzers/data_exfiltration.py:42-44 | `LIMIT 1001` gives the LOW match `large LIMIT: 1001` |
| `DataExfiltration.LimitAtBound` | src/supabase_query_alert/analyzers/data_exfiltration.py:43 | `LIMIT 1000` gives no match: the bound is strict |
| `DataExfiltration.LimitIs` | src/supabase_query_alert/analyzers/data_exfiltration.py:31 | the captured group of `LIMIT dddd` is its four digits |
| `VolumeAnomaly.Survivors` | src/supabase_query_alert/analyzers/volume_anomaly.py:25-27 | the kept times are exactly the listed times strictly after the threshold |
| `VolumeAnomaly.VolumeAnomalyAnalyzer.CleanupExpired` | src/supabase_query_alert/analyzers/volume_anomaly.py:22-29 | the loop over users leaves every user's list filtered and drops the users left empty |
| `VolumeAnomaly.VolumeAnomalyAnalyzer.Analyze` | src/supabase_query_alert/analyzers/volume_anomaly.py:31-66 | the history after `analyze` is the pruned history with the query's time appended for its user; the verdict is on that user's new count; no user has an empty list |
| `VolumeAnomaly.PrunedMembers` | src/supabase_query_alert/analyzers/volume_anomaly.py:22-29 | after cleanup a time is kept for a user exactly when it was there and is after the threshold |
| `VolumeAnomaly.ExactlyWindowOldIsDropped` | src/supabase_query_alert/analyzers/volume_anomaly.py:26 | a time exactly one window old is expired |
| `VolumeAnomaly.RecordAppends` | src/supabase_query_alert/analyzers/volume_anomaly.py:42-44 | the user's list ends with the new time, and the count is one more than the user's surviving times |
| `VolumeAnomaly.RecordOthers` | src/supabase_query_alert/analyzers/volume_anomaly.py:24-29 | every other user keeps exactly their surviving times, and is removed when none survive |
| `VolumeAnomaly.UsersIndependent` | src/supabase_query_alert/analyzers/volume_anomaly.py:42-44 | a user's new list depends only on that user's own history |
| `VolumeAnomaly.ThresholdBands` | src/supabase_query_alert/analyzers/volume_anomaly.py:12-16 | no finding up to 20 queries; LOW for 21 to 50, MEDIUM for 51 to 100, HIGH above 100 |
| `VolumeAnomaly.VerdictDetails` | src/supabase_query_alert/analyzers/volume_anomaly.py:57-66 | the finding's name, its severity band, and details with the count, the window and the user |
| `VolumeAnomaly.AnonymousBucket` | src/supabase_query_alert/analyzers/volume_anomaly.py:32-35 | queries without a user id share the `__anonymous__` bucket |
| `VolumeAnomaly.RepeatedQueries` | src/supabase_query_alert/analyzers/volume_anomaly.py:31-44 | n queries by a new user at the same instant leave exactly n copies of that time |
| `Registry.AnalyzerRegistry.Register` | src/supabase_query_alert/analyzers/registry.py:11-12 | the analyzer is appended; a volume detector's object joins the tracked objects |
| `Registry.AnalyzerRegistry.AnalyzeAll` | src/supabase_query_alert/analyzers/registry.py:18-24 | the loop returns the non-None results of the analyzers in registration order, each seeing the state its predecessors left, and leaves the final state |
| `Registry.FindingsWith` | src/supabase_query_alert/analyzers/registry.py:18-24 | the findings are the non-None results under any verdicts of the stateless detectors |
| `Registry.EmptyRegistry` | src/supabase_query_alert/analyzers/registry.py:8-9 | an empty registry finds nothing |
| `Registry.FindingsBound` | src/supabase_query_alert/analyzers/registry.py:18-24 | at most one finding per analyzer |
| `Registry.StatelessStep` | src/supabase_query_alert/analyzers/registry.py:21 | the two pattern detectors ignore state and time and change nothing |
| `Registry.ResultsSnoc` | src/supabase_query_alert/analyzers/registry.py:11-12 | registering one more analyzer appends its result on the state the others leave and adds its step to the final state |
| `Registry.StatelessRun` | src/supabase_query_alert/analyzers/registry.py:18-24 | without a volume detector the state is unchanged and each result is that analyzer's own verdict |
| `Inputs.SessionOrUnknown` | src/supabase_query_alert/input/supabase/adapter.py:91 | a missing or empty session id reads `unknown`; otherwise it is the session id |
| `Inputs.ToQuery` | src/supabase_query_alert/input/supabase/adapter.py:88-94 | the query's SQL is the statement, and its metadata carry the timestamp, the user and the source `origin:type:session`, with no duration |
| `Inputs.RowQueriesMembers` | src/supabase_query_alert/input/supabase/adapter.py:80-97 | a query is produced exactly when some row parses to it |
| `Inputs.LineQueriesMembers` | src/supabase_query_alert/input/logfile/adapter.py:44-57 | a query is produced exactly when some line parses to it |
| `Inputs.RowQueriesAppend` | src/supabase_query_alert/input/supabase/adapter.py:83-95 | parsing rows distributes over concatenation, and gives at most one query per row |
| `Inputs.AllRowsParse` | src/supabase_query_alert/input/supabase/adapter.py:83-95 | when every row parses there is one query per row |
| `Inputs.ManualInput.Next` | src/supabase_query_alert/input/manual.py:16-21 | the next query in order and one step on; None once all have been handed out |
| `Inputs.SupabaseLogInput.FromLogRows` | src/supabase_query_alert/input/supabase/adapter.py:38-55 | the cached queries are the parsed rows, read from the first |
| `Inputs.SupabaseLogInput.ParseRows` | src/supabase_query_alert/input/supabase/adapter.py:80-97 | the loop keeps the query of every row that parses, in order |
| `Inputs.SupabaseLogInput.Next` | src/supabase_query_alert/input/supabase/adapter.py:60-69 | the next cached query and one step on; None at the end |
| `Inputs.SupabaseLogInput.Reset` | src/supabase_query_alert/input/supabase/adapter.py:99-101 | every cached query is pending again |
| `Inputs.SupabaseLogInput.QueryCount` | src/supabase_query_alert/input/supabase/adapter.py:110-113 | the count is the queries handed out plus those still pending |
| `Inputs.LogFileInput.FromLines` | src/supabase_query_alert/input/logfile/adapter.py:22-35 | the pending queries are those of the lines that parse, in order |
| `Inputs.LogFileInput.Next` | src/supabase_query_alert/input/logfile/adapter.py:40-60 | the loop skips lines that do not parse and returns the next query; None once the lines are used up |
| `Inputs.NextQuery` | src/supabase_query_alert/core/pipeline.py:21 | `async for` over any source yields its pending queries in order, and each step shrinks what remains |
| `LogClient.Validate` | src/supabase_query_alert/input/supabase/client.py:17-23 | raise when times cannot be compared, when the end is not after the start, or when the range is over 24 hours; pass exactly otherwise |
| `LogClient.QueryParams` | src/supabase_query_alert/input/supabase/client.py:91-99 | the end defaults to now and the start to one minute before the end; the limit is `min(limit, 1000)` |
| `LogClient.PrepareQuery` | src/supabase_query_alert/input/supabase/client.py:91-100 | the parameters are sent exactly when `validate` passes, and the error is the one `validate` raises |
| `LogClient.DefaultRangeValid` | src/supabase_query_alert/input/supabase/client.py:94-95 | without a start time the default range always passes `validate` |
| `LogClient.DayBoundary` | src/supabase_query_alert/input/supabase/client.py:22 | exactly 24 hours passes and one microsecond more fails |
| `LogClient.RecentAuditQuery` | src/supabase_query_alert/input/supabase/client.py:154-156 | positive minutes give a range ending now and at most 60 minutes long; non-positive ones fail `validate` |
| `LogClient.QuerySql` | src/supabase_query_alert/input/supabase/client.py:46-55 | a non-empty custom SQL is sent as given; otherwise the text is `DEFAULT_SQL` with the limit written in decimal in place of `{limit}` |
| `LogClient.DefaultSqlLimit` | src/supabase_query_alert/input/supabase/client.py:104 | the default query text determines the limit it asks for |
| `LogClient.ExtractRows` | src/supabase_query_alert/input/supabase/client.py:126-138 | a list is returned as is; an object with none of `result`, `data` or `rows` gives no rows, and neither does any other value |
| `LogClient.ExtractRowsFound` | src/supabase_query_alert/input/supabase/client.py:126-138 | non-empty rows are the list reached by following, at each level, the first present key among `result`, `data`, `rows` |
| `Pipeline.Broadcast` | src/supabase_query_alert/core/pipeline.py:25-26 | one alert goes to every output, in output order |
| `Pipeline.ReceivedBroadcasts` | src/supabase_query_alert/core/pipeline.py:25-26 | each output receives every alert, in order, and nothing else |
| `Pipeline.AlertFor` | src/supabase_query_alert/core/pipeline.py:23-24 | an alert exactly when there are findings, carrying the query and all the findings |
| `Pipeline.AlertsHaveFindings` | src/supabase_query_alert/core/pipeline.py:23 | no alert is ever sent without findings, and there is at most one per query |
| `Pipeline.AlertsExactly` | src/supabase_query_alert/core/pipeline.py:22-24 | the k-th query raises its alert exactly when it has findings |
| `Pipeline.AlertIffFindings` | src/supabase_query_alert/core/pipeline.py:20-24 | in a run, the k-th query's alert is sent exactly when the registry, in the state the first k queries left, finds something |
| `Pipeline.NoAnalyzersNoAlerts` | src/supabase_query_alert/core/pipeline.py:20-26 | a pipeline with an empty registry sends nothing |
| `Pipeline.ProgressMeans` | src/supabase_query_alert/core/pipeline.py:20-26 | the loop invariant implies that each query was analyzed in turn on its state, and that the sends are the broadcasts of the alerts so far |
| `Pipeline.QueryPipeline.Handle` | src/supabase_query_alert/core/pipeline.py:22-26 | one iteration: analyze, and when there are findings send one alert to every output; the detectors' state advances as `analyze_all` says |
| `Pipeline.QueryPipeline.Run` | src/supabase_query_alert/core/pipeline.py:20-26 | reading the source to its end, the sends are exactly the broadcasts of the alerts of the queries with findings, and the state is that after all of them |

## Left out

- HTTP requests, opening and closing the log file, and the outputs' own delivery (console, SQS). An output is a number, and the pipeline keeps the record of its `send` calls. The `api` package is not part of this model.
- `SupabaseLogInput` fetching over the network (`_fetch_logs`, `refresh`, and the client-backed constructor) is not modelled; `from_log_rows` and `reset` are. `query_logs` is modelled up to the request it would send.
- Concurrency: every `async` call is sequential here, as it is in the source's single task.
- Floating point: `window_seconds` is a whole number of seconds and `duration_ms` an integer. A float timestamp in a row is not modelled.
- Case folding is ASCII-only. `re.IGNORECASE` and `str.upper()` also fold non-ASCII letters.
- `\w`, `\d` and `\b` are ASCII-only in `Patterns`, `SqlInjection`, `DataExfiltration`, `LogLineParser.MatchLogLine` and `AuditParser.MatchAuditPrefix`. In a Python `str` pattern they also match non-ASCII letters and digits. So `; DROPé` is HIGH here, while the source sees no word boundary after `DROP`. And `LIMIT` followed by Arabic-Indic digits is flagged by the source but not here.
- The host clock and time zone. A naive datetime's instant is read as UTC. Each query's handling uses one clock reading, passed as a parameter, for both the volume detector and the alert timestamp.
- `datetime.fromisoformat`, `datetime.fromtimestamp` and `str()` of a composite value belong to Python's library. They are the parameters of `AuditParser.Lib`, and what they compute is not modelled.
- The `QueryAnalyzer`, `QueryInput` and `AlertOutput` protocols are replaced by closed datatypes (`Registry.Analyzer`, `Inputs.Source`), so a third-party implementation is not modelled.
- The general regular-expression engine. Only the fragment the three regex sites use is modelled:
  - the detectors' patterns, searched with backtracking;
  - `LOG_LINE_PATTERN`, matched greedily segment by segment, which agrees with backtracking for that pattern;
  - the comma-delimited `AUDIT_PREFIX`.
- `AuditParser.ParseLogRow`: a truthy `event_message` that is not a string makes the source raise AttributeError on `.startswith`; the model returns None, as for any non-string message. An integer timestamp too large for `datetime.fromtimestamp` raises OverflowError, which the source's `except (ValueError, OSError)` does not catch; `AuditParser.Lib.fromMicros` can only succeed or give None, so the model does not have that failure.
- `Inputs.LogFileInput.Next`: uses the corrected `LogLineParser.ParseLine` (see Findings), so a line with an impossible date is skipped. In the source the ValueError leaves `__anext__` and ends the `async for` of the run. The same holds for `Inputs.LineQuery`, and for `Pipeline.QueryPipeline.Run` over a log-file source: the model goes on with the later lines where the source stops.
- `Registry.AnalyzerRegistry.Analyzers` (the `analyzers` property) has no contract because it just returns the stored list.

## Findings

| source | as written | input that shows it | evidently intended | confidence | as-written member | corrected member |
|---|---|---|---|---|---|---|
| src/supabase_query_alert/input/logfile/parser.py:92 | `parse_line` calls `_parse_prefix`, whose `strptime` raises ValueError for a timestamp that matches `\d{4}-\d{2}-\d{2}` but is not a calendar date. Nothing catches it, so one such line ends the whole iteration of `LogFileInput`. | `2020-13-01 00:00:00 UTC::u:[7]: LOG: AUDIT:` | the documented contract "Returns None if not an audit line": skip the line like every other unparseable one | not executed | `LogLineParser.ParseLineAsWritten` (with `LogLineParser.BadMonthRaises`) | `LogLineParser.ParseLine` |
