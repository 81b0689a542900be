# jest-ctrf-json-reporter in Dafny

This project models the `GenerateCtrfReport` class of jest-ctrf-json-reporter. The class is a
Jest reporter that builds a CTRF (Common Test Report Format) JSON report while a run goes on:

- The constructor resolves the reporter options: user values win and defaults fill the gaps
  (`ctrf-report.json`, `ctrf`, `minimal = false`, `unit`). It also normalises the output filename
  so that it ends in `.json`.
- `onRunStart` stamps the start time and copies the environment options into `ctrfEnvironment`.
  When at least one option is set, it attaches that object to the report.
- `onTestResult` does two things for each file Jest finishes:
  - it appends one CTRF test record per test case, minimal or detailed;
  - it updates the summary counters.
- `onRunComplete` stamps the stop time and hands the report to the file writer.

The reporter object is the Dafny class `Reporter.GenerateCtrfReport`:

- Its fields are the filename, the summary, the ordered records, the environment and whether the
  environment is attached.
- Its invariant `Valid()` says three things:
  - the filename ends in `.json`;
  - the summary agrees with the records: the total equals the number of records, and each state's
    counter equals the number of records with that state;
  - an attached environment is never empty.
- Every event method keeps `Valid()` and states its whole new state.
- The two private update loops are `while` loops. Each is proved against a function on values:
  `BuildRecords` for the records and `Tally` for the summary.

The pure helpers are Dafny functions, each with lemmas that say what the source promises:

- `mapStatus`
- `extractFailureDetails`, with its two regular expressions written out as scans
- `buildSuitePath`
- `hasEnvironmentDetails`
- option resolution
- `setFilename`'s normalisation

Modules, in dependency order:

| file | module | contents |
|---|---|---|
| wrappers.dfy | `Wrappers` | `Option`; `??` is `GetOr` |
| strings.dfy | `Strings` | JavaScript `join`, `split`, `endsWith` and `trim`, and the ECMAScript whitespace set |
| statuses.dfy | `Statuses` | `CtrfTestState`, `MapStatus` |
| options.dfy | `Options` | `ReporterConfigOptions`, the defaults, filename normalisation |
| environments.dfy | `Environments` | `CtrfEnvironment`, the merge done by `setEnvironmentDetails`, `HasEnvironmentDetails` |
| jest_results.dfy | `JestResults` | the parts of Jest's `TestResult` and `AssertionResult` that are read |
| failure_details.dfy | `FailureDetails` | the stack-frame scan, colour-code stripping, trace normalisation, `ExtractFailureDetails` |
| suite_paths.dfy | `SuitePaths` | `FileName`, `BuildSuitePath` |
| test_records.dfy | `TestRecords` | `CtrfTest`, `BuildTest`, `BuildRecords`, status counts |
| summaries.dfy | `Summaries` | `Summary`, `Tally` |
| reporter.dfy | `Reporter` | the `GenerateCtrfReport` class and a whole-run scenario |

Behaviour modelled as the code is written:

- **The frame pattern.** The pattern `/^\s{4}at/mu` matches at the start of the text or after any
  line terminator. It needs four whitespace characters, and a line feed counts as one of them.
- **No frame line.** `slice(0, undefined)` and `slice(undefined)` both give the whole text. So with
  no frame line the message and the trace are both built from the whole joined text.
- **`failureDetails`.** When it is defined, the trace is replaced by the raw messages joined with
  CR LF.
- **Colour codes.** The global `replace` makes one left-to-right pass. Its result can still hold a
  colour code (`StripColorCodesSinglePass`). Only ESC `[` digits `m` is removed, so a sequence
  like `ESC[1;31m` stays (`StripColorCodesKeepsCompoundSequence`).
- **Retries.** `retries` is `(invocations ?? 1) - 1` and is never clamped: zero invocations give
  -1 retries.
- **Detailed mode.** Detailed mode is on only when the resolved `minimal` is exactly `false`.
- **The environment.** `ctrfReport.results.environment` is the `ctrfEnvironment` object itself. So
  the report shows the environment as it stands when the report is written.
- **Seven environment properties.** The environment has seven properties, `osVersion` included.
- **The trace's last line.** A trace keeps the final line feed of the joined messages when there is
  one, so its last line is empty.
- **No run phases.** The events may come in any order, and each keeps the invariant.

## Model

| member | source | states |
|---|---|---|
| Statuses.MapStatus | src/generate-report.ts:192-208 | each canonical state comes from its own Jest status and no other (both directions); `other` comes from exactly the statuses outside the four names |
| Statuses.StateName | src/generate-report.ts:192-208 | the CTRF status string of each `CtrfTestState` |
| Statuses.MapStatusOfName | src/generate-report.ts:192-208 | mapping a canonical state's name gives that state back |
| Statuses.MapStatusKeepsCanonicalNames | src/generate-report.ts:192-208 | a status comes out under its own name iff it already is one of the five CTRF names |
| Statuses.JestOnlyStatusesAreOther | test/generate-report.test.ts:117-138 | `todo`, `disabled` and `focused` map to `other` |
| Options.ResolveOptions | src/generate-report.ts:48-60 | output file, directory, `minimal` and test type are kept when given and defaulted otherwise; the seven environment options pass through unchanged |
| Options.ResolveIdempotent | src/generate-report.ts:48-60 | resolving a resolved configuration changes nothing |
| Options.NormalizeFilename | src/generate-report.ts:118-124 | the result ends in `.json`, extends the name, and equals the name exactly when the name already ends in `.json` (otherwise `.json` is appended) |
| Options.NormalizeFilenameIdempotent | src/generate-report.ts:118-124 | normalising twice is normalising once |
| Options.NormalizeFilenameExamples | test/generate-report.test.ts:50-64 | `myReport`, `myReport.json` and `myReport.txt` become `myReport.json`, `myReport.json` and `myReport.txt.json` |
| Environments.MergeEnvironment | src/generate-report.ts:210-232 | each defined option overwrites its property; each other property keeps its old value |
| Environments.MergeIdempotent | src/generate-report.ts:210-232 | applying the same options twice equals applying them once |
| Environments.MergeIntoEmpty | src/generate-report.ts:210-236 | from `{}`, each property is present iff its option was given, and the environment has details iff some option was given |
| Environments.MergeKeepsDetails | src/generate-report.ts:210-236 | merging never removes a property, so an environment with details keeps them |
| Environments.PresentFields | src/generate-report.ts:235 | the keys list holds exactly the assigned properties, in declaration order. That is also their insertion order in every reachable state: `setEnvironmentDetails` assigns them in declaration order starting from `{}`, and always with the same resolved options |
| Environments.HasEnvironmentDetails | src/generate-report.ts:234-236 | true iff at least one of the seven properties is assigned |
| Environments.EmptyHasNoDetails | src/generate-report.ts:81 | the initial `{}` environment has no details |
| Strings.Split | src/generate-report.ts:169 | split never gives an empty array, and no piece contains the separator |
| Strings.Join | src/generate-report.ts:162-177 | `Array.prototype.join`; `JoinSplit` and `SplitJoin` make it the inverse of `split`, and `JoinStartsWithFirst`, `JoinLast` and `JoinCountChar` fix where its parts and separators lie |
| Strings.JoinSplit | src/generate-report.ts:242 | joining the pieces of a split with the same character gives the text back |
| Strings.SplitJoin | src/generate-report.ts:169-173 | splitting a join of separator-free parts gives the parts back |
| Strings.EndsWith | src/generate-report.ts:119 | `endsWith`: the text's last characters are the suffix |
| Strings.IsWhitespace | src/generate-report.ts:152-171 | the ECMAScript WhiteSpace and LineTerminator characters: the set `\s` matches and `trim` removes |
| Strings.Trim | src/generate-report.ts:171 | the result is the slice of the input between its leading and trailing whitespace; it neither starts nor ends with whitespace |
| Strings.JoinCountChar | src/generate-report.ts:244 | joining parts free of a character, with a separator holding it once, gives one occurrence fewer than there are parts |
| FailureDetails.FindFrameFrom | src/generate-report.ts:152-163 | the search finds the leftmost position at or after the start where the frame pattern matches, or reports none when it matches nowhere there |
| FailureDetails.FirstFrame | src/generate-report.ts:152-163 | the index found is the first position where `/^\s{4}at/mu` matches; `None` means it matches nowhere |
| FailureDetails.AtLineStart | src/generate-report.ts:152 | `^` under the `m` flag: the start of the text, or just after LF, CR, U+2028 or U+2029 |
| FailureDetails.FrameAt | src/generate-report.ts:152 | the frame pattern matches at a position: at the text's start or after a line terminator, four whitespace characters (line terminators included), then `at` |
| FailureDetails.IsFirstFrame | src/generate-report.ts:152-163 | the position is a match and no earlier position is, which is the index `match` reports |
| FailureDetails.IsColorCode | src/generate-report.ts:154 | one match of `\x1b\[\d+m`: ESC, `[`, at least one digit, `m` |
| FailureDetails.DigitRun | src/generate-report.ts:154 | the greedy `\d+`: every counted character is a digit, and the one after the run is not |
| FailureDetails.ColorCodeLength | src/generate-report.ts:154 | a non-zero length is a match of ESC `[` digits `m` at the start of the text |
| FailureDetails.ColorCodeLengthUnique | src/generate-report.ts:154 | a colour code at the start is the one the scan finds, with the same length |
| FailureDetails.StripColorCodes | src/generate-report.ts:154-166 | removing colour codes never makes the text longer. Its lemmas fix the result on every input: a leading ESC `[` digits `m` is dropped (`StripColorCodesDropsLeadingCode`), and any other first character is kept (`StripColorCodesKeepsPlain`) |
| FailureDetails.StripColorCodesDropsLeadingCode | src/generate-report.ts:154-166 | a colour code at the start is removed and the scan resumes right after it |
| FailureDetails.StripColorCodesKeepsPlain | src/generate-report.ts:154-166 | a first character that starts no colour code is kept: any non-ESC character, a lone ESC, `ESC[m`, or an ESC followed by a non-digit parameter |
| FailureDetails.StripColorCodesKeepsCompoundSequence | src/generate-report.ts:154-166 | `ESC[1;31m` is not a match, so it is left in the message unchanged |
| FailureDetails.StripColorCodesPlainText | src/generate-report.ts:166 | text with no ESC is left unchanged |
| FailureDetails.StripColorCodesDropsCode | src/generate-report.ts:166 | plain text before a colour code is kept, and the code is dropped |
| FailureDetails.StripColorCodesRemovesEsc | src/generate-report.ts:166 | when every ESC starts a colour code, no ESC is left |
| FailureDetails.StripColorCodesSinglePass | src/generate-report.ts:154-166 | one pass can leave a code formed by joining the text around a removed one: for any digits `d` and `e`, ESC `[` ESC `[` d `m` e `m` becomes ESC `[` e `m` |
| FailureDetails.TrimLinesLines | src/generate-report.ts:167-173 | the lines of the normalised trace are exactly the trimmed lines of the input |
| FailureDetails.TrimAll | src/generate-report.ts:170-172 | `.map((line) => line.trim())`: as many lines, each the trimmed input line |
| FailureDetails.TrimLines | src/generate-report.ts:167-173 | splitting on LF, trimming each line and joining with LF; by `TrimLinesLines` the result's lines are exactly the trimmed input lines, and by `TrimLinesStartsWithFirstLine` it starts with the trimmed first line |
| FailureDetails.TraceStartsWithAt | src/generate-report.ts:152-173 | from a frame line whose indentation holds no line feed, the normalised trace starts with `at` |
| FailureDetails.ExtractFailureDetails | src/generate-report.ts:151-182 | the message and trace are present iff the status is `failed` and messages exist. With a first frame at `p`, the message is the stripped text before `p` and the trace is the trimmed lines from `p`. With no frame, both come from the whole text. With `failureDetails`, the trace is the messages joined with CR LF |
| FailureDetails.FailedTraceStartsWithAt | src/generate-report.ts:156-179 | a failed case with a frame line whose indentation holds no line feed gets a trace starting with `at` |
| FailureDetails.PlainFailureMessage | src/generate-report.ts:162-166 | with no colour codes, the message is exactly the text before the first frame line, or the whole text when there is none |
| SuitePaths.FileName | src/generate-report.ts:242 | the name is the part of the path after its last `/`: it holds no `/`, ends the path, and is preceded by `/` when shorter than the path |
| SuitePaths.BuildSuitePath | src/generate-report.ts:238-245 | the suite starts with the file's name; `SuiteIsFileNameThenAncestry` gives the whole suite: the file name, then each ancestor title in order after `" > "` |
| SuitePaths.SuiteSeparatorCount | src/generate-report.ts:243-244 | when no part contains `>`, the suite holds exactly one `>` per ancestor title |
| SuitePaths.SuiteWithoutAncestors | src/generate-report.ts:243-244 | with no ancestor titles the suite is the file name alone |
| SuitePaths.Ancestry | src/generate-report.ts:243-244 | an independent fold over the ancestor titles: each title in order, after its own `" > "` |
| SuitePaths.SuiteIsFileNameThenAncestry | src/generate-report.ts:238-245 | for all inputs, the suite is the file name followed by `Ancestry` of the titles |
| SuitePaths.SuiteAppendTitle | src/generate-report.ts:243-244 | one more ancestor title appends `" > "` and that title to the suite |
| TestRecords.BuildTest | src/generate-report.ts:128-145 | name, duration (`0` when absent) and the mapped status are always set. Minimal mode sets nothing else. Detailed mode sets raw status, type, path, retries `invocations - 1`, flaky (passed and retried), suite, and message and trace (present iff a failed case has messages), equal to `ExtractFailureDetails` |
| TestRecords.BuildRecords | src/generate-report.ts:127-148 | the records of a batch; by `BuildRecordsIndex` one per case, the k-th built from the k-th case |
| TestRecords.BuildRecordsIndex | src/generate-report.ts:127-148 | a batch gives one record per case, and the k-th record is built from the k-th case |
| TestRecords.IsDetailed | src/generate-report.ts:134 | `minimal === false` on the resolved configuration |
| TestRecords.MinimalBatch | src/generate-report.ts:134 | in minimal mode no record of a batch carries a detailed property |
| TestRecords.FlakyExamples | src/generate-report.ts:140-143 | three invocations of a passing test are two retries and flaky; one invocation is zero retries and not flaky; a failing test is never flaky |
| TestRecords.RecordCountConcat | src/generate-report.ts:147 | appending records adds their per-state counts |
| TestRecords.RecordCountOfBatch | src/generate-report.ts:131 | a batch's records have, state by state, as many entries as the batch has cases mapped to that state |
| TestRecords.RecordCountsSum | src/generate-report.ts:186-188 | every record is counted under exactly one state |
| TestRecords.OccurrencesSum | src/generate-report.ts:186-188 | every case is counted under exactly one state |
| Summaries.Counter | src/generate-report.ts:187 | `summary[ctrfStatus]`: the counter of one state |
| Summaries.WithCounter | src/generate-report.ts:187 | setting one state's counter changes no other counter, the total or the times |
| Summaries.CountCase | src/generate-report.ts:186-188 | one case raises the total and its mapped state's counter by one; no other counter and neither time changes |
| Summaries.Tally | src/generate-report.ts:185-189 | the summary after counting a batch in order; by `TallyCounts` the total rises by the batch size and each counter by the cases mapped to its state |
| Summaries.TallyCounts | src/generate-report.ts:184-190 | counting a batch raises the total by its size and each counter by the cases mapped to its state; the times are unchanged |
| Summaries.TallyConsistent | src/generate-report.ts:184-190 | counting keeps the total equal to the sum of the five counters |
| Summaries.AgreementIsConsistent | src/generate-report.ts:184-190 | a summary whose counters agree with a record list has a total equal to the sum of its counters |
| Summaries.TallyAgreesWithRecords | src/generate-report.ts:108-111 | appending a batch's records and counting its cases keep the counters in agreement with the records, and the total equal to the sum of the counters |
| Summaries.SingleCaseTally | test/generate-report.test.ts:157-185 | one case of each Jest status raises the total and exactly the expected counter from zero |
| Reporter.ReportInvariant | src/generate-report.ts:98-190 | the reporter's invariant on plain values: the filename ends in `.json`, the counters agree with the records and add up to the total, and an attached environment has at least one property |
| Reporter.InitialInvariant | src/generate-report.ts:62-84 | the state the constructor builds (zero summary, no records, `{}` environment, not attached) meets the invariant for any `.json` filename |
| Reporter.GenerateCtrfReport.Valid | src/generate-report.ts:98-190 | the class invariant every event keeps: `ReportInvariant` of the fields. The filename ends in `.json`. The total is the number of records, and each state's counter is the number of records with that state, so the total is the sum of the counters. An attached environment has at least one property |
| Reporter.GenerateCtrfReport.Report | src/generate-report.ts:101-103 | the report carries an environment iff it has been attached, and under the invariant an environment it carries is never empty |
| Reporter.GenerateCtrfReport.constructor | src/generate-report.ts:43-84 | the configuration is resolved; the filename is the normalised output file; a zero summary, no records, `{}` environment, not attached; the invariant holds |
| Reporter.GenerateCtrfReport.OnRunStart | src/generate-report.ts:98-104 | the start time is set, the environment is merged, and it becomes attached once it has details; records and filename are unchanged; the invariant holds |
| Reporter.GenerateCtrfReport.OnTestResult | src/generate-report.ts:108-111 | the batch's records are appended in order and its counts are added; the counters still agree with the records |
| Reporter.GenerateCtrfReport.OnRunComplete | src/generate-report.ts:113-116 | the stop time is set; the output is the resolved directory, the filename and the current report |
| Reporter.GenerateCtrfReport.SetFilename | src/generate-report.ts:118-124 | the filename becomes the normalised name |
| Reporter.GenerateCtrfReport.UpdateCtrfTestResultsFromTestResult | src/generate-report.ts:126-149 | the loop appends exactly `BuildRecords` of the batch to the earlier records |
| Reporter.GenerateCtrfReport.UpdateTotalsFromTestResult | src/generate-report.ts:184-190 | the loop leaves the summary equal to `Tally` of the batch over the old summary |
| Reporter.GenerateCtrfReport.SetEnvironmentDetails | src/generate-report.ts:210-232 | the environment becomes `MergeEnvironment` of the old one with the options |
| Reporter.DefaultRunWithOnePassingTest | src/generate-report.ts:43-116 | with no options and one passing test, the output goes to `ctrf/ctrf-report.json` with one passed test of 42 ms, retries 0, not flaky, and no environment |
| Reporter.FeedOnePassingTest | src/generate-report.ts:108-149 | one passing case gives one record with its name, duration and status, and a summary of one passed test |

## Left out

- **Directory creation.** Creating the output directory with `fs.existsSync` and `fs.mkdirSync`
  (src/generate-report.ts:86-95) is file-system I/O. It is left out.
- **Writing the file.** `writeReportToFile` (src/generate-report.ts:247-263) is left out: JSON
  serialisation, `path.join`, `fs.writeFileSync`, the console messages and the caught write error.
  The model's `OnRunComplete` returns the directory, the filename and the report that would be
  written.
- **The clock.** `Date.now()` is a parameter (`now`) of `OnRunStart` and `OnRunComplete`.
- **Jest plumbing.** `onTestStart`, which does nothing, is left out. So are the unused constructor
  arguments (`_globalConfig`, `_reporterContext`, `_test`) and the `Reporter` interface.
- Reporter.GenerateCtrfReport.constructor: does not model the TypeError the source throws when
  `reporterOptions` itself is `undefined`. Line 52 reads `reporterOptions.testType` without `?.`,
  so the model always takes an options record.
- **Regular expressions.** No general regular-expression engine is modelled. The two patterns
  (src/generate-report.ts:152 and 154) are written out as scans.
- **Character units.** Strings are sequences of Unicode scalar values, not UTF-16 code units.
  This only matters for surrogate pairs, which neither pattern nor `trim` treats specially.
- **Number widths.** Durations and invocation counts are unbounded integers. JavaScript numbers
  are doubles, whose rounding and `NaN` are not modelled.
- **Key order.** The order of keys in the written JSON is not modelled: for the environment by
  `Object.keys`, for records by property creation.
- SuitePaths.SuiteSeparatorCount: counts `>` characters rather than `" > "` occurrences, so it
  needs parts free of `>`.
- **Untyped flags.** The `failureDetails` array is modelled only as whether it is defined
  (`hasFailureDetails`), since only that is read. Jest's `Status` union is an open string.
- **Build tooling.** The ESLint and Jest configuration files and the test suite are tooling, not
  reporter behaviour. The test suite's cases appear only as example lemmas.
