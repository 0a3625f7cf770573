# Vulnerability-fix coverage and energy scripts, modelled in Dafny

This project models the core of a set of research scripts that study
vulnerability fixes. A fix is a pair of commits: the vulnerable one and the
fixed one. For each pair the scripts do four things:
- build both commits;
- run the project's test suite with gcov/lcov coverage and work out which
  tests execute the lines the fix touched;
- measure the energy of those tests with `perf stat`;
- write the results as CSV rows and JSON checkpoints.

The curl-specific scripts list, filter and run curl's numbered test cases and
parse the runner's output. The OpenSSL-style Docker pipeline wraps each
supported project in a class that knows how to configure, build and list its
tests.

Modelling conventions used throughout:
- Everything that leaves the program is an input:
  - subprocess exit statuses and stdout text;
  - a `status: Cmd -> int` oracle for the commands the pipeline classes run;
  - directory walks (`seq<WalkEntry>`);
  - the files present in a build tree (`Layout`, `TestSources`);
  - elapsed times: the dry-run durations of `ffmpeg_pipeline.py` and
    `find_cov_energy_perf.py` as integer microseconds, the per-run times of
    `coverage_script.py` as `real` seconds.
- Each error path of the source is a `Result` or `Option` value. Where the
  Python code raises on an input the model covers, the model returns that
  exception as a value, so callers' `try` blocks are modelled branch for
  branch; the exceptions that are not modelled are named under "Left out".
- Python floats are modelled as `real`.
- Python sets that are iterated are modelled as a duplicate-free sequence in
  an arbitrary order (`Enumerates`).
- Regular expressions are hand-written matchers over ASCII `\d` and `\w`.
- The constants of `energy.py` (event names, repetition counts, cool-down)
  are parameters.
- The object-oriented project classes are Dafny classes whose fields their
  methods update.

## Model

| member | source | states |
|---|---|---|
| RunTestsCurl.Run | run_tests_curl.py:22-34 | a command yields its output when it exits 0 or may fail; otherwise it raises with that output |
| RunTestsCurl.BuildCurl | run_tests_curl.py:36-44 | the build succeeds exactly when buildconf, configure and make exit 0 and src/curl exists; the first failing step raises with its output, and a missing binary raises "src/curl was not built" |
| RunTestsCurl.TestId | run_tests_curl.py:51-53 | a listing line yields an id only when it starts with digits followed by whitespace, and the id is those digits |
| RunTestsCurl.TestIds | run_tests_curl.py:49-53 | at most one id per listing line, each a non-empty digit string |
| RunTestsCurl.TestIdOf | run_tests_curl.py:51-53 | a line `<digits><whitespace>...` yields exactly its digits |
| RunTestsCurl.TestIdsConcat | run_tests_curl.py:50-53 | ids are collected line by line: the ids of two blocks of lines are the ids of each, concatenated |
| RunTestsCurl.TestIdsOfListing | run_tests_curl.py:50-53 | a listing whose every line starts with an id and whitespace yields exactly those ids, in order |
| RunTestsCurl.ParseTestList | run_tests_curl.py:49-53 | the loop over `out.splitlines()` collects `TestIds` of the lines |
| RunTestsCurl.AllTestsTextRoundTrip | run_tests_curl.py:54 | splitting the saved all_tests.txt at newlines gives the test ids back |
| RunTestsCurl.ExtractAllTests | run_tests_curl.py:46-55 | the listing raises exactly when `runtests.pl -l` fails; otherwise the ids of its lines are returned and their newline join is saved |
| RunTestsCurl.TextInjective | run_tests_curl.py:61-69 | the five status strings are distinct |
| RunTestsCurl.ClassifySpec | run_tests_curl.py:61-69 | the status is that of the first marker in precedence order OK, FAILED/TESTFAIL, SKIPPED, Killed; UNKNOWN exactly when no marker occurs; any "OK" gives PASS |
| RunTestsCurl.ClassifyConcat | run_tests_curl.py:61-69 | more output never gives a status of lower precedence than either part alone |
| RunTestsCurl.MarkersPersist | run_tests_curl.py:61-69 | a marker found in either part of the output is found in the whole output |
| RunTestsCurl.SingleTest | run_tests_curl.py:57-71 | a row holds the id, the status of the output and the stripped output (no longer than the output, no edge whitespace) |
| RunTestsCurl.SingleTestIgnoresExitStatus | run_tests_curl.py:57-71 | the exit status of a test does not matter (allow_fail), only its output |
| RunTestsCurl.RunTests | run_tests_curl.py:87-90 | one row per test, the i-th row being that of the i-th test |
| RunTestsCurl.CountOf | run_tests_curl.py:92-98 | a status is counted on no more rows than there are |
| RunTestsCurl.CountsSumToTotal | run_tests_curl.py:92-98 | the status counts add up to the total number of rows |
| RunTestsCurl.Tally | run_tests_curl.py:96-98 | a status is a key exactly when some row has it, and its value is the number of such rows |
| RunTestsCurl.RunAll | run_tests_curl.py:77-104 | `main` completes exactly when the build and the listing succeed; then the tests are the listed ids, one row per test, and the summary has a key exactly for each status some row has, holding its number of rows |
| CurlCovTests.RunSteps | curl_cov_tests.py:26-40 | the fatal steps (reset, clean, checkout, buildconf, configure, make) pass exactly when every one exits 0; the first failing one yields its "ERROR in" log message, after which the script exits |
| CurlCovTests.FixFiles | curl_cov_tests.py:42-46 | every fix file ends in ".c" and is a basename (no '/') |
| CurlCovTests.FixFilesMembers | curl_cov_tests.py:42-46 | a name is a fix file exactly when some line of `git show --name-only` ends in ".c" and has that basename |
| CurlCovTests.TouchedOfStem | curl_cov_tests.py:48-51 | a `<dir>/<stem>.gcda` file found by the glob puts `<stem>.c` in the touched set |
| CurlCovTests.Intersection | curl_cov_tests.py:101-103 | the intersection is no longer than the fix list |
| CurlCovTests.IntersectionSpec | curl_cov_tests.py:101-103 | the intersection keeps each fix file as often as it occurs when it was touched, and drops it otherwise |
| CurlCovTests.IntersectionWhole | curl_cov_tests.py:101-103 | the intersection is the whole fix list exactly when every fix file was touched |
| CurlCovTests.Globbed | curl_cov_tests.py:77-78 | every globbed data file name starts with "test" |
| CurlCovTests.GlobbedMembers | curl_cov_tests.py:77-78 | `glob("tests/data/test*")` returns exactly the data files whose name starts with "test" |
| CurlCovTests.TestIdOf | curl_cov_tests.py:79 | a file name yields an id only when what remains after removing "test" is a digit string |
| CurlCovTests.TestIdOfName | curl_cov_tests.py:79 | the id of `test<digits>` is the digits |
| CurlCovTests.IdsOf | curl_cov_tests.py:79 | every id kept is a non-empty digit string |
| CurlCovTests.IdsOfPlainNames | curl_cov_tests.py:79 | for plain `test<digits>` names the ids are the names without "test", in order |
| CurlCovTests.DataTestIdsSpec | curl_cov_tests.py:76-79 | the test ids are strictly increasing (sorted file names) and are exactly the digit strings d with a file "test"+d |
| CurlCovTests.TestRows | curl_cov_tests.py:90-108 | a failing or skipped test writes no row; a passing one writes one (project, fix commit, id, file) row per touched fix file, in fix-list order |
| CurlCovTests.TestRowsMembers | curl_cov_tests.py:90-107 | a row belongs to a test exactly when the test passed and its source file is a fix file the test touched |
| CurlCovTests.AllRowsMembers | curl_cov_tests.py:90-107 | over all tests, a row is written exactly when its test id is listed, the test passed and the source file is a touched fix file |
| CurlCovTests.RunTest | curl_cov_tests.py:91-108 | one loop iteration: the rows and log lines are those of `TestRows` and `TestLog` |
| CurlCovTests.RunTestLoop | curl_cov_tests.py:90-108 | the loop writes the rows and log lines of every test, in id order |
| CurlCovTests.CoverageRun | curl_cov_tests.py:53-110 | `main` finishes exactly when the git and build steps pass and `git show` succeeds; a failing `git show` raises; a failing fatal step exits after logging its error; a finished run writes the header only for a new CSV, then every test's rows and log lines |
| CurlCovTests.CsvRecords | curl_cov_tests.py:83-88 | the CSV holds the header when the file is new, then one four-field record per row, in order |
| FilteringTests.AutotoolsSteps | filtering_tests.py:36-60 | the autotools route is four steps: generator, configure, `make -j4`, and last `make <target>` (test-nonflaky for curl, test otherwise) |
| FilteringTests.Raising | filtering_tests.py:21-34 | the step that raises is the first failing one, except a swallowed failing first step; every step before it succeeded |
| FilteringTests.GeneratorPrecedence | filtering_tests.py:38-47 | the third command run is the generator: buildconf exactly when it exists, autogen.sh exactly when only it exists, else `autoreconf -fi`, whose exit status changes nothing |
| FilteringTests.GenerateRunsThird | filtering_tests.py:38-47 | after the forced checkout and the clean, the generator is the third command in every route |
| FilteringTests.AutoreconfRcIgnored | filtering_tests.py:43-47 | with autoreconf as generator, changing its exit status leaves the commands run and the outcome unchanged |
| FilteringTests.SameRaisingSameBuild | filtering_tests.py:134-154 | the commands run and the outcome depend on the statuses only through where each route raises |
| FilteringTests.RaisingAgrees | filtering_tests.py:43-47 | oracles that agree on every step after a swallowed first one raise at the same step |
| FilteringTests.RaisingAgreesStrict | filtering_tests.py:21-34 | oracles that agree on every step raise at the same step |
| FilteringTests.BuildRoutes | filtering_tests.py:139-154 | autotools either completes, ending with `make <target>`, and the row goes on; or it raises, then `git clean -fdx` and the first CMake step follow, and the row goes on exactly when both CMake steps succeed |
| FilteringTests.SourceGuessOfStem | filtering_tests.py:83-86 | `x.gcda` is passed to gcov as `x.c` |
| FilteringTests.ExecutedLineCounts | filtering_tests.py:97 | a line `<spaces><count>:...` with a positive count, anywhere in the report, matches `^\s*[1-9]\d*:` |
| FilteringTests.CountThenColon | filtering_tests.py:97 | a positive count written in decimal starts with a non-zero digit and its digit run ends at the ':' |
| FilteringTests.CountAfterSpaces | filtering_tests.py:97 | whitespace followed by such a count and ':' matches `\s*[1-9]\d*:` at that position |
| FilteringTests.CountedAt | filtering_tests.py:97 | a match at a line start is a match of the MULTILINE search |
| FilteringTests.LineAfter | filtering_tests.py:97 | the position right after a newline, or the start, is a line start |
| FilteringTests.UnexecutedLineDoesNotCount | filtering_tests.py:97 | a line whose count is `#####`, `-` or `0` does not match where it starts |
| FilteringTests.CoveredNameOfStem | filtering_tests.py:98 | the report `x.gcov` adds `x` to the covered set |
| FilteringTests.CoveredNamesMembers | filtering_tests.py:90-101 | a name is covered exactly when some report has a positive count and that name |
| FilteringTests.CollectCoverage | filtering_tests.py:76-101 | the walk over the reports collects exactly `CoveredNames` |
| FilteringTests.MatchLineInjective | filtering_tests.py:168-169 | different matches give different CSV lines |
| FilteringTests.RowResultSpec | filtering_tests.py:130-171 | a row produces matches exactly when the repository exists, a build route completes and diff-tree succeeds; a match is a covered name that is the basename of a changed path |
| FilteringTests.WriteMatches | filtering_tests.py:165-169 | one CSV line per match, and the lines are exactly those of the matches |
| FilteringTests.AllLinesStep | filtering_tests.py:122-175 | each dataset row adds its own match lines to the output |
| FilteringTests.ProcessRow | filtering_tests.py:122-175 | one iteration of the loop computes `RowResult` |
| FilteringTests.AppendRow | filtering_tests.py:165-169 | appending a row's lines adds exactly its match lines, and as many lines as matches |
| FilteringTests.FilterTests | filtering_tests.py:103-175 | `main` writes the header only for a new CSV, gives each dataset row its `RowResult`, and the appended lines are exactly all rows' match lines |
| CoverageIntersection.ReadNat | coverage_intersection.py:46 | a `\d+` group consumes at least one character |
| CoverageIntersection.ReadOptLen | coverage_intersection.py:55-57 | `(?:,(\d+))?` consumes part of the text or none of it |
| CoverageIntersection.ParseHeaderText | coverage_intersection.py:46-57 | parsing a hunk header as `diff -U0` writes it gives back its four numbers, an omitted length reading as 1 |
| CoverageIntersection.ReadNatOf | coverage_intersection.py:54-57 | `\d+` reads back the number written in decimal, stopping at the first non-digit |
| CoverageIntersection.ReadOptLenOf | coverage_intersection.py:55-57 | `(?:,(\d+))?` reads back a written length, or no length when none was written |
| CoverageIntersection.HunkAfterMinusOf | coverage_intersection.py:46-57 | after `@@ -`, the vulnerable start and length then ` +` are read back, an omitted length as 1 |
| CoverageIntersection.HunkAfterPlusOf | coverage_intersection.py:46-57 | after ` +`, the fixed start and length then ` @@` complete the hunk, an omitted length as 1 |
| CoverageIntersection.HunkRecordsFrom | coverage_intersection.py:59-63 | from offset `i` on, one record per offset below max(v_len, f_len), each side numbered from its start while the offset is inside its length and `None` after |
| CoverageIntersection.HunkRecords | coverage_intersection.py:59-63 | a hunk gives max(v_len, f_len) records in the current file, both sides counting up from their starts and padded with `None` |
| CoverageIntersection.NextFile | coverage_intersection.py:49-50 | only a `--- a/` line changes the current file |
| CoverageIntersection.StepRecords | coverage_intersection.py:49-63 | a line adds records only when it is a hunk header that matches and a current file is set, and they all belong to that file |
| CoverageIntersection.MappingAfter | coverage_intersection.py:44-64 | every record has a file and at least one side's line |
| CoverageIntersection.AfterLine | coverage_intersection.py:48-63 | each line of the diff updates the current file and appends its records to the mapping so far |
| CoverageIntersection.NoFileHeaderNoRecords | coverage_intersection.py:45-51 | before any `--- a/` line there is no current file and no record |
| CoverageIntersection.CurrentFileFromLastHeader | coverage_intersection.py:49-51 | the current file is the one named by the last `--- a/` line |
| CoverageIntersection.AppendHunk | coverage_intersection.py:59-63 | the inner loop appends exactly the hunk's records |
| CoverageIntersection.DiffLine | coverage_intersection.py:49-63 | one iteration updates the current file and the mapping as `NextFile` and `StepRecords` say |
| CoverageIntersection.GetDiffMapping | coverage_intersection.py:39-64 | the loop over the diff's lines computes `DiffMapping` |
| CoverageIntersection.NumberLines | coverage_intersection.py:37 | keys are exactly 1..n and key `k` holds line `k` |
| CoverageIntersection.LcovStep | coverage_intersection.py:73-81 | an `SF:` line opens an empty entry for its (relative) file and keeps the others; a `DA:` line before any `SF:` changes nothing; any other line keeps the current file and the set of files |
| CoverageIntersection.DaRecordSetsHit | coverage_intersection.py:79-81 | a `DA:<line>,<hits>` record under a current file sets exactly that line's hit count |
| CoverageIntersection.LcovStepOnDa | coverage_intersection.py:79-81 | a stripped `DA:` line with two integer fields under a current file sets that line's count and keeps the current file |
| CoverageIntersection.DaLineShape | coverage_intersection.py:74-80 | such a record is unchanged by strip, starts with `DA:` and splits at the comma into its two numbers |
| CoverageIntersection.JoinSplitOfTwo | coverage_intersection.py:80 | two digit strings joined by a non-digit split back into the two |
| CoverageIntersection.ParseLcov | coverage_intersection.py:66-70 | a tracefile that does not exist gives the empty map |
| CoverageIntersection.LcovKeysFromSf | coverage_intersection.py:75-78 | every file in the result was already present or was opened by some `SF:` line |
| CoverageIntersection.LcovWithoutSf | coverage_intersection.py:72-81 | a tracefile without `SF:` lines gives the empty map |
| CoverageIntersection.ParseLcovInfo | coverage_intersection.py:66-82 | the loop over the tracefile computes `ParseLcov` |
| CoverageIntersection.SideOf | coverage_intersection.py:110-130 | a side is executable exactly when its line is set and appears in that file's DA records; hits are `N/A` exactly when the line is unset, else the recorded count or 0; the snippet is the placeholder when the line is unset |
| CoverageIntersection.RowOf | coverage_intersection.py:106-133 | a row is executable exactly when either side is, and each side's hits are a count exactly when its line is set |
| CoverageIntersection.HitsWithinLines | coverage_intersection.py:116-121 | hit lines never exceed total lines on either side |
| CoverageIntersection.CountsAppend | coverage_intersection.py:116-121 | each record adds 1 to a side's total when its line is set and 1 to its hits when that count is positive |
| CoverageIntersection.Percentage | coverage_intersection.py:137-139 | the percentage is "0%" exactly when the side has no lines |
| CoverageIntersection.JoinRecord | coverage_intersection.py:106-133 | one iteration produces `RowOf` and the 0/1 increments of the four counters |
| CoverageIntersection.JoinPair | coverage_intersection.py:104-140 | one row per diff record, in order; the summary counts lines and hit lines of the rows on each side, hits never exceed lines, and the percentages are computed from them |
| CoverageIntersection.MasterView | coverage_intersection.py:146-147 | the master CSV holds every row, in order, without the executable flag |
| CoverageIntersection.CleanView | coverage_intersection.py:146-147 | the clean CSV holds no more rows than the master |
| CoverageIntersection.CleanViewAppend | coverage_intersection.py:146-147 | filtering distributes over concatenation |
| CoverageIntersection.CleanViewSize | coverage_intersection.py:146-147 | the clean CSV has one row per executable row |
| CoverageIntersection.CleanViewMembers | coverage_intersection.py:146-147 | a CSV row is in the clean view exactly when it comes from an executable row |
| CoverageIntersection.CleanViewAllExecutable | coverage_intersection.py:146-147 | when every row is executable the two views coincide |
| CoverageScript.Fields | coverage_script.py:473 | a row has one field per comma-separated piece, each stripped |
| CoverageScript.BaseEvent | coverage_script.py:489-492 | the normalised event name never contains a '/' |
| CoverageScript.BaseEventOfPmu | coverage_script.py:489-492 | `pmu/name/` normalises to `name`, e.g. `cpu_atom/cycles/` to `cycles` |
| CoverageScript.BaseEventOfName | coverage_script.py:489-492 | a plain event name without '/' or surrounding spaces normalises to itself |
| CoverageScript.BaseEventOfStripped | coverage_script.py:489 | stripping the field first does not change its base event |
| CoverageScript.DottedValue | coverage_script.py:485 | a value `a.b` of digits counts as the number written `ab` (the dot is deleted, "1.234" is 1234) |
| CoverageScript.DeleteDot | coverage_script.py:485 | deleting '.' from `a.b` leaves `ab` |
| CoverageScript.NatCounterValue | coverage_script.py:485 | a plain decimal counter value parses to itself |
| CoverageScript.SplitRow | coverage_script.py:473-479 | a row `value,unit,event...` has at least three fields, the value first and the event third |
| CoverageScript.SplitField | coverage_script.py:473 | splitting at commas peels off a comma-free first field |
| CoverageScript.RowOf | coverage_script.py:473-492 | a row with an integer value gives a sample of that value and the normalised event |
| CoverageScript.PmuRow | coverage_script.py:472-492 | a hybrid-core row `v,,pmu/name/` gives the sample `(v, name)` |
| CoverageScript.CountCombine | coverage_script.py:494-500 | counting a row commutes with adding totals gathered elsewhere |
| CoverageScript.AddCombine | coverage_script.py:494-500 | adding a sample commutes with adding totals gathered elsewhere |
| CoverageScript.TallyAppend | coverage_script.py:472-500 | the totals over two runs of rows are the sums of their totals, and each found flag is the disjunction: rows are summed, never overwritten |
| CoverageScript.TallyOfTwo | coverage_script.py:472-500 | two rows are counted one after the other |
| CoverageScript.CountOfSample | coverage_script.py:481-500 | a row that parses adds its sample to the totals |
| CoverageScript.TallyStep | coverage_script.py:472-500 | one more row is one more step of the loop |
| CoverageScript.HybridCyclesSum | coverage_script.py:494-496 | two PMU rows of the same cycles event add up to v1 + v2 cycles, and cycles are found |
| CoverageScript.RaplDelta | coverage_script.py:509-513 | for readings of the 32-bit counter the delta lies in [0, 2^32) and start + delta wraps to end; without wrap-around it is end - start |
| CoverageScript.Energy | coverage_script.py:509-514 | energy is present exactly when both readings are, equals the delta in millionths, and is non-negative for in-range readings |
| CoverageScript.Ipc | coverage_script.py:518 | IPC is NaN (`None`) exactly when cycles are not positive, and otherwise IPC times cycles is instructions |
| CoverageScript.MeasureOnceFails | coverage_script.py:463-525 | a run fails exactly when perf exits non-zero, no cycles or no instructions row was counted, or a RAPL reading is missing (the TypeError of formatting `None` with `:.6f` in the always-open log); a recorded run has its energy, and a present IPC implies positive cycles |
| CoverageScript.AddToTotals | coverage_script.py:494-500 | one loop body adds a sample as `AddSample` says |
| CoverageScript.MeasureWorkloadOnce | coverage_script.py:437-533 | the parse loop, the energy and IPC computations and the log line's TypeError on a missing energy give `MeasureOnce` |
| CoverageScript.MeasureWorkloadMultiple | coverage_script.py:536-545 | NUM_RUNS records in order with `run_index` 1..NUM_RUNS when every run succeeds, and otherwise the error of the first failing run, every earlier run having succeeded |
| CoverageScript.MeasuredEnergyPresent | coverage_script.py:536-545 | over the records of successful runs every energy is present, so the energy mean is NaN exactly without runs and its deviation exactly below two runs |
| CoverageScript.Mean | coverage_script.py:615 | the mean is NaN (`None`) exactly for no samples |
| CoverageScript.SquaredDeviations | coverage_script.py:616 | the sum of squared deviations is non-negative |
| CoverageScript.Variance | coverage_script.py:616 | the sample variance is present exactly with more than one sample, and then non-negative |
| CoverageScript.SumBounds | coverage_script.py:615 | samples within [lo, hi] sum to between n·lo and n·hi |
| CoverageScript.MeanWithin | coverage_script.py:615 | the mean of samples within [lo, hi] is within [lo, hi] |
| CoverageScript.QuotientWithin | coverage_script.py:615 | dividing a bounded sum by the count stays within the bounds |
| CoverageScript.Present | coverage_script.py:619-622 | the filtered samples are exactly the present readings |
| CoverageScript.PresentEmpty | coverage_script.py:619-622 | nothing is left exactly when every reading is missing |
| CoverageScript.EnergyReadings | coverage_script.py:619 | the energy readings of the runs, in order |
| CoverageScript.IpcReadings | coverage_script.py:622 | the IPC readings of the runs, in order |
| CoverageScript.Times | coverage_script.py:618 | one time sample per run |
| CoverageScript.CycleSamples | coverage_script.py:620 | one cycles sample per run |
| CoverageScript.InstructionSamples | coverage_script.py:621 | one instructions sample per run |
| CoverageScript.ComputeStatsNaN | coverage_script.py:613-635 | a mean is NaN exactly when no sample survives the filter (missing energies, NaN IPCs), and a deviation is NaN exactly with at most one sample |
| CoverageScript.EnergyMeanNonNegative | coverage_script.py:509-514 | over runs with in-range counter readings the mean energy is non-negative |
| FindCovEnergyPerf.LoopCount | find_cov_energy_perf.py:178-186 | one loop for a dry run of at least 0.1 s; otherwise between 5 and 2000 loops, and below the cap exactly floor(0.5 s / max(d, 1 us)) |
| FindCovEnergyPerf.BaseCommand | find_cov_energy_perf.py:162-170 | an empty test command raises (no `parts[0]`); otherwise the executable starts with '/' or '.', `./` being prefixed when needed |
| FindCovEnergyPerf.BatchCommand | find_cov_energy_perf.py:189-195 | one loop runs the command itself; more loops wrap it in a longer shell loop that contains it |
| FindCovEnergyPerf.BatchIffFast | find_cov_energy_perf.py:178-195 | the command is wrapped in a batch loop exactly when the dry run took less than 0.1 s |
| FindCovEnergyPerf.LastCyclesRowWins | find_cov_energy_perf.py:204-214 | cycles are assigned, not summed: once a cycles row is present, whatever was stored before does not matter |
| FindCovEnergyPerf.ReadPerfFile | find_cov_energy_perf.py:203-214 | the loop over the perf file computes `Fold`, skipping short, empty, `<not supported>` and unparseable rows and trying energy-pkg, cycles, instructions and task-clock in that order |
| FindCovEnergyPerf.Normalise | find_cov_energy_perf.py:216-221 | with more than one loop energy and time are divided by the loop count, and cycles and instructions truncated to the quotient; with one loop nothing changes |
| FindCovEnergyPerf.TruncDivision | find_cov_energy_perf.py:219-220 | `int(a / n)` of a non-negative count is integer division |
| FindCovEnergyPerf.WithIpc | find_cov_energy_perf.py:223 | IPC is computed after normalisation: instructions / cycles when cycles are positive, 0 otherwise; other metrics are kept |
| FindCovEnergyPerf.Median | find_cov_energy_perf.py:228-231 | the median of one value is that value, of two their mean, of three the element with at least two values on each side |
| FindCovEnergyPerf.MedianOfOne | find_cov_energy_perf.py:228-232 | a single repetition is its own median on every key |
| FindCovEnergyPerf.Collected | find_cov_energy_perf.py:198-224 | no more measurements than repetitions |
| FindCovEnergyPerf.CollectedEmpty | find_cov_energy_perf.py:201-226 | no measurement is collected exactly when no repetition had `run_cmd` return True (no timeout or exception; a non-zero exit is ignored) together with an existing output file |
| FindCovEnergyPerf.MeasureEnergySmart | find_cov_energy_perf.py:157-232 | the method computes `MeasureEnergy` over three repetitions, and returns `None` exactly when no repetition had `run_cmd` return True together with an existing output file |
| FindCovEnergyPerf.SfBasename | find_cov_energy_perf.py:135-137 | an `SF:` line contributes a basename without '/' |
| FindCovEnergyPerf.SfBasenamesStep | find_cov_energy_perf.py:132-137 | each line adds its basename when it starts with `SF:` and nothing otherwise |
| FindCovEnergyPerf.ParseLcovInfo | find_cov_energy_perf.py:128-138 | "" for a missing tracefile, otherwise the sorted distinct basenames joined by ";" |
| FindCovEnergyPerf.LcovNamesSortedDistinct | find_cov_energy_perf.py:138 | the joined names are strictly sorted and are exactly the basenames of the `SF:` lines |
| FindCovEnergyPerf.SfBasenamesMembers | find_cov_energy_perf.py:130-137 | a name is collected exactly when some `SF:` line has it as basename |
| FindCovEnergyPerf.SaveRecord | find_cov_energy_perf.py:303-336 | a record is saved exactly when both sides were measured; it carries both measurements, the two tests and the coverage lists with "" for a missing one |
| PerfSamplingCurl.TimeoutExitCode | perf_sampling_curl.py:87-126 | both runners report an expired timeout as exit code 124 and otherwise the command's own status and output; with no test timeout a run is never cut short |
| PerfSamplingCurl.SupportedMembers | perf_sampling_curl.py:143 | an event is kept exactly when it is a candidate named somewhere in the `perf list` text |
| PerfSamplingCurl.EnergyEventsSpec | perf_sampling_curl.py:129-144 | the events requested are never empty, are candidates, are all candidates when `perf list` fails, prints nothing or names none of them, and otherwise exactly the candidates it names |
| PerfSamplingCurl.CandidatesAreSafe | perf_sampling_curl.py:54-59 | the candidate event names use only characters `shlex.quote` leaves alone |
| PerfSamplingCurl.JoinSafe | perf_sampling_curl.py:261 | joining such names with commas keeps them safe |
| PerfSamplingCurl.EventsNeedNoQuoting | perf_sampling_curl.py:261-297 | the `-e` argument is passed unquoted |
| PerfSamplingCurl.JoinNonEmpty | perf_sampling_curl.py:261 | the joined event list is at least as long as its first event |
| PerfSamplingCurl.NumberRun | perf_sampling_curl.py:161 | `[\d\.,]+` takes the maximal run of number characters |
| PerfSamplingCurl.LetterRun | perf_sampling_curl.py:161 | `[a-z]+` under IGNORECASE takes the maximal run of letters |
| PerfSamplingCurl.MatchEnergy | perf_sampling_curl.py:160-163 | an energy line yields a non-empty number and a non-empty letter domain |
| PerfSamplingCurl.NumberThenDomain | perf_sampling_curl.py:161 | after the leading spaces, a number then a domain |
| PerfSamplingCurl.EnergyDomain | perf_sampling_curl.py:161 | `Joules power/energy-<domain>/` yields a non-empty letter domain |
| PerfSamplingCurl.MatchTime | perf_sampling_curl.py:164-166 | a time line yields a non-empty number |
| PerfSamplingCurl.NumberThenTime | perf_sampling_curl.py:165 | the number comes before `seconds time elapsed` |
| PerfSamplingCurl.EnergyKeyIsMetric | perf_sampling_curl.py:173-175 | `energy-<domain>-j` of a lower-cased domain is a metric key |
| PerfSamplingCurl.ReadingOf | perf_sampling_curl.py:168-182 | a stripped line gives at most one reading, under a metric key, with a non-empty raw value |
| PerfSamplingCurl.ParsePerfStatEnergy | perf_sampling_curl.py:147-184 | the loop over the output computes `StatMetrics` |
| PerfSamplingCurl.StatLines | perf_sampling_curl.py:168-184 | the loop over the lines computes `StatMetrics` |
| PerfSamplingCurl.StatLine | perf_sampling_curl.py:169-182 | one line extends the metrics of the lines before it |
| PerfSamplingCurl.StatStep | perf_sampling_curl.py:168-182 | one more line sets its reading's key, raises on an unreadable number, or changes nothing |
| PerfSamplingCurl.FailurePersists | perf_sampling_curl.py:174 | once `float()` raises, the whole parse raises |
| PerfSamplingCurl.ErrIsFloatError | perf_sampling_curl.py:174-181 | the only failure is `float()` raising |
| PerfSamplingCurl.StatKeys | perf_sampling_curl.py:175-181 | every key is `energy-<domain>-j` or `time-elapsed-s` |
| PerfSamplingCurl.LastReadingWins | perf_sampling_curl.py:175-181 | a key holds the value of its last line: a later line for the same domain overwrites an earlier one |
| PerfSamplingCurl.UnreportedKeyAbsent | perf_sampling_curl.py:168-184 | a key no line reports is absent, and lines matching neither pattern are ignored |
| PerfSamplingCurl.NumberRunOf | perf_sampling_curl.py:161 | the number run is measured exactly |
| PerfSamplingCurl.LetterRunOf | perf_sampling_curl.py:161 | the letter run is measured exactly |
| PerfSamplingCurl.AfterOneSpace | perf_sampling_curl.py:161-165 | `\s+<word>` in any letter case is consumed |
| PerfSamplingCurl.NumberValueOfNat | perf_sampling_curl.py:174 | a plain integer reads as itself |
| PerfSamplingCurl.NumberThen | perf_sampling_curl.py:161-165 | a digit string followed by a space-led tail splits there |
| PerfSamplingCurl.EnergyTailReads | perf_sampling_curl.py:161 | `Joules power/energy-<domain>/` in any case yields the domain |
| PerfSamplingCurl.MatchEnergyOf | perf_sampling_curl.py:160-173 | an energy line yields its number and domain |
| PerfSamplingCurl.ReadingOfEnergy | perf_sampling_curl.py:171-175 | an energy line is read under `energy-<lower(domain)>-j` |
| PerfSamplingCurl.EnergyLineReads | perf_sampling_curl.py:160-175 | the line `N Joules power/energy-<domain>/` sets `energy-<domain>-j` to N |
| PerfSamplingCurl.TimeTailReads | perf_sampling_curl.py:165 | `seconds time elapsed` in any case completes a time line |
| PerfSamplingCurl.OtherWordAfterSpace | perf_sampling_curl.py:161-165 | a different word does not match a keyword |
| PerfSamplingCurl.TimeElapsedReads | perf_sampling_curl.py:165 | `time elapsed` ends a time line |
| PerfSamplingCurl.MatchTimeOf | perf_sampling_curl.py:171-180 | a time line is no energy line and yields its number |
| PerfSamplingCurl.NumberThenNoDomain | perf_sampling_curl.py:161 | without `Joules` there is no energy match |
| PerfSamplingCurl.NumberThenTimeOf | perf_sampling_curl.py:165 | a number then `seconds time elapsed` yields the number |
| PerfSamplingCurl.ElapsedTailOf | perf_sampling_curl.py:165 | the three keywords form a time tail |
| PerfSamplingCurl.ReadingOfTime | perf_sampling_curl.py:178-181 | a time line is read under `time-elapsed-s` |
| PerfSamplingCurl.TimeLineReads | perf_sampling_curl.py:164-181 | the line `N seconds time elapsed` sets `time-elapsed-s` to N |
| PerfSamplingCurl.TrailingNonSpace | perf_sampling_curl.py:195 | `(\S+)\s*$` takes the last word |
| PerfSamplingCurl.DotIndexOf | perf_sampling_curl.py:195 | the dot of `\d+\.\d+` is found after the integer part |
| PerfSamplingCurl.PercentTextOf | perf_sampling_curl.py:195 | digits, a dot and digits form a percentage |
| PerfSamplingCurl.SymbolAndDso | perf_sampling_curl.py:195 | `\s+(.*?)\s+(\S+)\s*$` gives a trimmed symbol and a word as dso |
| PerfSamplingCurl.LastWordSplit | perf_sampling_curl.py:195 | the dso is the last word and the symbol is trimmed |
| PerfSamplingCurl.SymbolBefore | perf_sampling_curl.py:195 | the symbol is read from the text before the dso |
| PerfSamplingCurl.SymbolBeforeTrimmed | perf_sampling_curl.py:195 | the lazy symbol group starts and ends with a non-space |
| PerfSamplingCurl.PercentEnd | perf_sampling_curl.py:195 | the percentage ends at '%' and is `\d+\.\d+` |
| PerfSamplingCurl.MatchSample | perf_sampling_curl.py:195-202 | a report line yields a percentage, a trimmed symbol and a dso word |
| PerfSamplingCurl.MatchSampleText | perf_sampling_curl.py:195-202 | the same, after the leading spaces |
| PerfSamplingCurl.PercentParses | perf_sampling_curl.py:208-211 | `float()` never raises on a matched percentage, which is non-negative |
| PerfSamplingCurl.PercentIsDecimal | perf_sampling_curl.py:195 | a matched percentage is a decimal starting and ending with digits |
| PerfSamplingCurl.SampleOf | perf_sampling_curl.py:199-211 | a kept line has a non-negative percentage, a symbol not starting with children, overhead or samples, and a dso word |
| PerfSamplingCurl.EdgesStripUnchanged | perf_sampling_curl.py:218-219 | `strip()` leaves the captured symbol and dso unchanged |
| PerfSamplingCurl.Samples | perf_sampling_curl.py:194-224 | at most one row per line, ranked 1..n consecutively, all of the project |
| PerfSamplingCurl.RankedAppend | perf_sampling_curl.py:213-222 | appending the next rank keeps ranks consecutive |
| PerfSamplingCurl.SamplesClean | perf_sampling_curl.py:204-222 | no row has a noise symbol, a negative percentage or an empty dso |
| PerfSamplingCurl.CleanAppend | perf_sampling_curl.py:213-222 | appending a kept sample keeps the rows clean |
| PerfSamplingCurl.SamplesStep | perf_sampling_curl.py:198-222 | each line adds one row with the next rank when it is kept, and nothing otherwise (a skipped line uses no rank) |
| PerfSamplingCurl.ParsePerfReportSamples | perf_sampling_curl.py:187-224 | the loop over the report computes `Samples` |
| PerfSamplingCurl.SampleLines | perf_sampling_curl.py:197-224 | the loop over the lines computes `Samples` |
| PerfSamplingCurl.AddSample | perf_sampling_curl.py:199-222 | one iteration extends the rows and keeps the rank equal to their number |
| PerfSamplingCurl.SampleLineReads | perf_sampling_curl.py:192-202 | a line `  P.Q%  symbol  dso` yields its percentage, symbol and dso |
| PerfSamplingCurl.MatchSampleAfterBlank | perf_sampling_curl.py:195 | leading spaces are skipped |
| PerfSamplingCurl.SampleTextReads | perf_sampling_curl.py:195 | the percentage is read before the symbol and dso |
| PerfSamplingCurl.PercentEndOf | perf_sampling_curl.py:195 | the percentage of `P.Q%` ends at the '%' |
| PerfSamplingCurl.DigitsThenMark | perf_sampling_curl.py:195 | a digit run stops at a non-digit |
| PerfSamplingCurl.PercentEndParts | perf_sampling_curl.py:195 | the two digit runs around the dot locate the '%' |
| PerfSamplingCurl.PercentPieces | perf_sampling_curl.py:195 | the pieces of `P.Q%rest` are where they are written |
| PerfSamplingCurl.SymbolAndDsoReads | perf_sampling_curl.py:195 | a symbol between blanks and a dso word are recovered |
| PerfSamplingCurl.SymbolBeforeOf | perf_sampling_curl.py:195 | the symbol is the text between the leading and trailing spaces |
| PerfSamplingCurl.SymbolOfBefore | perf_sampling_curl.py:195 | the same, stated on the symbol alone |
| PerfSamplingCurl.LastWordAfterBlank | perf_sampling_curl.py:195 | a dso after a blank is the last word |
| PerfSamplingCurl.SymbolBetweenBlanks | perf_sampling_curl.py:195 | a symbol between blanks is found between them |
| PerfSamplingCurl.DsoAfterBlank | perf_sampling_curl.py:195 | the dso is split off after the last blank |
| PerfSamplingCurl.TrailingNonSpaceOf | perf_sampling_curl.py:195 | the last word is measured exactly |
| PerfSamplingCurl.LoneDso | perf_sampling_curl.py:195 | a line with only a dso matches with an empty symbol only when two blanks precede it |
| PerfSamplingCurl.AllBlank | perf_sampling_curl.py:195 | a blank run is all leading space |
| PerfSamplingCurl.StripBuildCommand | perf_sampling_curl.py:36-41 | the build commands are already stripped |
| PerfSamplingCurl.BuildPlanOfCommands | perf_sampling_curl.py:285-293 | all four build commands run when `buildconf` exists, and all but `./buildconf` otherwise; a failing step does not stop the build |
| PerfSamplingCurl.PlanOfFour | perf_sampling_curl.py:285-288 | with `./buildconf` first and only first, the plan drops exactly that command when it is missing |
| PerfSamplingCurl.PlanStep | perf_sampling_curl.py:285-293 | each command is run unless it is `./buildconf` and that file is missing |
| PerfSamplingCurl.BuildLoop | perf_sampling_curl.py:285-293 | the loop runs exactly `BuildPlan` |
| PerfSamplingCurl.BuildPhase | perf_sampling_curl.py:283-293 | the build phase runs exactly `BuildSteps` |
| PerfSamplingCurl.EnergyRowStatus | perf_sampling_curl.py:299-345 | the energy row is "OK" exactly when the tests exited 0, records that exit code, and a metric cell is empty exactly when it was not parsed |
| PerfSamplingCurl.RunPerfSampling | perf_sampling_curl.py:230-430 | exit 2 without the project, 3 without perf or make, 4 exactly when the tests fail and neither energy nor time was parsed, 5 without perf.data, 6 when perf report fails, 0 with the ranked sample rows otherwise; the energy row is written exactly when the run gets that far |
| PerfSamplingCurl.SamplingPhase | perf_sampling_curl.py:347-393 | `perf record` runs, then `perf report` only when perf.data was written; exit 5, 6 or 0 with the parsed samples |
| AutoTcVerifier.AfterSpaces | DataCollection_scripts/auto_tc_verifier.py:162 | `\s+` consumes at least one space and stops at a non-space |
| AutoTcVerifier.DotRun | DataCollection_scripts/auto_tc_verifier.py:162 | `\.+` takes the maximal run of dots |
| AutoTcVerifier.CTestHeader | DataCollection_scripts/auto_tc_verifier.py:162 | `Test\s+#\d+:` consumes part of the text |
| AutoTcVerifier.CTestName | DataCollection_scripts/auto_tc_verifier.py:162 | `\s+(\S+)` captures a non-empty word followed by a space |
| AutoTcVerifier.UpperStatus | DataCollection_scripts/auto_tc_verifier.py:170 | a case-insensitively matched status upper-cases to PASSED or FAILED |
| AutoTcVerifier.CTestStatus | DataCollection_scripts/auto_tc_verifier.py:162-170 | the status group gives PASSED or FAILED |
| AutoTcVerifier.MatchCTest | DataCollection_scripts/auto_tc_verifier.py:162-171 | a CTest match gives a word as name and PASSED or FAILED as status |
| AutoTcVerifier.CTestMatchesWellFormed | DataCollection_scripts/auto_tc_verifier.py:168-171 | every CTest match has a word name and a normalised status |
| AutoTcVerifier.KeywordAt | DataCollection_scripts/auto_tc_verifier.py:165 | a keyword is taken exactly when it is followed by ':' |
| AutoTcVerifier.LineLength | DataCollection_scripts/auto_tc_verifier.py:165 | `$` in MULTILINE mode ends the match at the first newline |
| AutoTcVerifier.Backoff | DataCollection_scripts/auto_tc_verifier.py:165 | backtracking `(.+)$` gives up only the trailing newlines the `\s+` took |
| AutoTcVerifier.AutomakeBody | DataCollection_scripts/auto_tc_verifier.py:165 | `:\s+(.+)$` captures a non-empty single line and stops at a newline |
| AutoTcVerifier.MatchAutomake | DataCollection_scripts/auto_tc_verifier.py:165-181 | an Automake match ends at a line end |
| AutoTcVerifier.NormaliseStatuses | DataCollection_scripts/auto_tc_verifier.py:179-180 | PASS and XPASS become PASSED; FAIL, XFAIL, SKIP and ERROR become FAILED |
| AutoTcVerifier.NoPass | DataCollection_scripts/auto_tc_verifier.py:179 | a text without a 'P' does not contain "PASS" |
| AutoTcVerifier.AutomakeMatchesWellFormed | DataCollection_scripts/auto_tc_verifier.py:175-181 | every Automake match has a trimmed name and a normalised status |
| AutoTcVerifier.ParsedTestsWellFormed | DataCollection_scripts/auto_tc_verifier.py:153-183 | every parsed test has status PASSED or FAILED |
| AutoTcVerifier.CTestStep | DataCollection_scripts/auto_tc_verifier.py:168-171 | one step of the `finditer` loop keeps the CTest matches still to come |
| AutoTcVerifier.AutomakeStep | DataCollection_scripts/auto_tc_verifier.py:175-181 | one step of the `finditer` loop keeps the Automake matches still to come |
| AutoTcVerifier.ParseTestOutput | DataCollection_scripts/auto_tc_verifier.py:153-183 | the loops compute `ParsedTests`: the CTest matches, or the Automake matches when there are none |
| AutoTcVerifier.AfterSpacesOf | DataCollection_scripts/auto_tc_verifier.py:162 | spaces before a non-space are skipped |
| AutoTcVerifier.DotRunOf | DataCollection_scripts/auto_tc_verifier.py:162 | a run of dots is measured exactly |
| AutoTcVerifier.NonSpaceRunOf | DataCollection_scripts/auto_tc_verifier.py:162 | `\S+` takes the whole word up to a space |
| AutoTcVerifier.CTestHeaderOf | DataCollection_scripts/auto_tc_verifier.py:162 | `Test #N:` in any letter case is recognised and consumed |
| AutoTcVerifier.KeywordThen | DataCollection_scripts/auto_tc_verifier.py:162 | a keyword in any case is a caseless prefix |
| AutoTcVerifier.DigitsThenColon | DataCollection_scripts/auto_tc_verifier.py:162 | `\d+:` stops at the colon |
| AutoTcVerifier.HashAfterSpaces | DataCollection_scripts/auto_tc_verifier.py:162 | `\s+#` after `Test` is consumed |
| AutoTcVerifier.CTestHeaderParts | DataCollection_scripts/auto_tc_verifier.py:162 | the header parts combine into a header match |
| AutoTcVerifier.CTestNameOf | DataCollection_scripts/auto_tc_verifier.py:162 | the name group captures exactly the word |
| AutoTcVerifier.CTestStatusOf | DataCollection_scripts/auto_tc_verifier.py:162-170 | dots, spaces and a status word in any case read as the upper-cased status |
| AutoTcVerifier.MatchCTestOf | DataCollection_scripts/auto_tc_verifier.py:162-171 | a full CTest line gives its name and upper-cased status |
| AutoTcVerifier.MatchCTestParts | DataCollection_scripts/auto_tc_verifier.py:162-171 | header, name and status combine into one match |
| AutoTcVerifier.CTestLineReads | DataCollection_scripts/auto_tc_verifier.py:162-171 | a CTest report line reads back as its test |
| AutoTcVerifier.CTestLineStep | DataCollection_scripts/auto_tc_verifier.py:168-171 | a report line contributes exactly its test before the rest |
| AutoTcVerifier.NewlineNotCTest | DataCollection_scripts/auto_tc_verifier.py:168 | a line break adds no match |
| AutoTcVerifier.CTestReportRoundTrip | DataCollection_scripts/auto_tc_verifier.py:162-171 | a CTest report of tests parses back to those tests, in order |
| AutoTcVerifier.CTestTakesPrecedence | DataCollection_scripts/auto_tc_verifier.py:168-174 | when CTest lines match, the Automake pattern is not consulted |
| AutoTcVerifier.LineLengthOf | DataCollection_scripts/auto_tc_verifier.py:165 | a line ends at its newline |
| AutoTcVerifier.AutomakeBodyOf | DataCollection_scripts/auto_tc_verifier.py:165-177 | after `:` and spaces the name up to the line end is captured |
| AutoTcVerifier.AutomakeLineReads | DataCollection_scripts/auto_tc_verifier.py:165-181 | an Automake line reads back as its test |
| AutoTcVerifier.AutomakeLineStep | DataCollection_scripts/auto_tc_verifier.py:175-181 | an Automake line contributes exactly its test before the rest |
| AutoTcVerifier.NewlineStartsLine | DataCollection_scripts/auto_tc_verifier.py:165 | `^` matches after a newline |
| AutoTcVerifier.AutomakeReportRoundTrip | DataCollection_scripts/auto_tc_verifier.py:165-181 | an Automake report of tests parses back to those tests, in order |
| AutoTcVerifier.TryMakeTargets | DataCollection_scripts/auto_tc_verifier.py:201-209 | the target loop computes `MakeTests` |
| AutoTcVerifier.RunTests | DataCollection_scripts/auto_tc_verifier.py:185-212 | the runner computes `TestsFound` |
| AutoTcVerifier.TestsFoundSource | DataCollection_scripts/auto_tc_verifier.py:194-209 | the tests found are empty or the parse of ctest, `make check` or `make test` output |
| AutoTcVerifier.MakeTestNotConsulted | DataCollection_scripts/auto_tc_verifier.py:201-209 | once `make check` yields tests, `make test` does not matter |
| AutoTcVerifier.NoRuleSkipped | DataCollection_scripts/auto_tc_verifier.py:205 | a target whose stderr says "No rule to make target" yields nothing |
| AutoTcVerifier.CTestFirst | DataCollection_scripts/auto_tc_verifier.py:194-201 | when ctest yields tests, the make targets are not consulted |
| AutoTcVerifier.CountPassed | DataCollection_scripts/auto_tc_verifier.py:236 | passed never exceeds total |
| AutoTcVerifier.CountPassedAll | DataCollection_scripts/auto_tc_verifier.py:236 | passed equals total exactly when every test passed, and is 0 exactly when none did |
| AutoTcVerifier.StageCounts | DataCollection_scripts/auto_tc_verifier.py:214-240 | a stage builds exactly when checkout exits 0 and the build succeeds; a failure has zero counts, no tests and says which step failed; a success has total = number of tests, passed ≤ total and the runner's tests |
| AutoTcVerifier.TestsFoundWellFormed | DataCollection_scripts/auto_tc_verifier.py:185-212 | every test found has a normalised status |
| AutoTcVerifier.ProcessCommitStage | DataCollection_scripts/auto_tc_verifier.py:214-240 | the method computes `Stage` |
| AutoTcVerifier.WriteProjectRows | DataCollection_scripts/auto_tc_verifier.py:281-318 | the row loop computes `ProjectRows` |
| AutoTcVerifier.AlignedRowsSpec | DataCollection_scripts/auto_tc_verifier.py:292-318 | with both builds, max(len(v), len(f), 1) rows; row i pairs the i-th tests, a present side gets "Pending_Coverage_Analysis", a missing side "" and "" |
| AutoTcVerifier.FailureRowSpec | DataCollection_scripts/auto_tc_verifier.py:281-290 | a failed build on either side writes one row with zero counts, the failure message on a failed side and "See detailed rows" on a side that built |
| AutoTcVerifier.ProcessEntry | DataCollection_scripts/auto_tc_verifier.py:261-321 | one snapshot entry gives `EntryRows`: nothing for a missing repository, else its project rows |
| AutoTcVerifier.Verify | DataCollection_scripts/auto_tc_verifier.py:242-323 | a missing snapshot exits with status 1; otherwise the rows are those of every entry in order |
| AutoTcVerifier.RowsFromSnapshot | DataCollection_scripts/auto_tc_verifier.py:261-318 | every written row comes from some snapshot entry and carries its project and commits |
| AutoTcVerifier.AtLeastOneRowEach | DataCollection_scripts/auto_tc_verifier.py:266-318 | each entry whose repository exists writes at least one row |
| TestRelevance.ReplaceGcdaSuffix | docker/ffmpeg_docker/ffmpeg_pipeline.py:101-102 | `replace(".gcda", ".c")` on `<stem>.gcda` gives `<stem>.c` when the stem has no other ".gcda" |
| TestRelevance.GcdaSourceOfStem | docker/ffmpeg_docker/ffmpeg_pipeline.py:101-104 | the artifact `<stem>.gcda` stands for `<stem>.c`, bare at the walk root and joined to its directory elsewhere |
| TestRelevance.CoveredFilesMembers | docker/ffmpeg_docker/ffmpeg_pipeline.py:97-106 | a path is covered exactly when some `.gcda` file of the walk stands for it |
| TestRelevance.GetCoveredFiles | docker/ffmpeg_docker/ffmpeg_pipeline.py:97-106 | the loop over the walk collects exactly the covered sources |
| TestRelevance.DiffFiles | docker/ffmpeg_docker/ffmpeg_pipeline.py:81-84 | the changed-file set never holds an empty name nor a name with a newline |
| TestRelevance.DiffFilesOfListing | docker/ffmpeg_docker/ffmpeg_pipeline.py:81-84 | paths printed one per line come back as exactly that set of paths |
| TestRelevance.FateNames | docker/ffmpeg_docker/ffmpeg_pipeline.py:92 | every listed test starts with "fate-" and is stripped, and there are no more tests than lines |
| TestRelevance.FateNamesAppend | docker/ffmpeg_docker/ffmpeg_pipeline.py:92 | the listing is a filter that keeps line order: it distributes over concatenation |
| TestRelevance.PrefixSlice | docker/ffmpeg_docker/ffmpeg_pipeline.py:93 | `s[:n]` is a prefix of `s` of length min(n, len(s)), or len(s) + n clamped at 0 for negative n |
| TestRelevance.FateTests | docker/ffmpeg_docker/ffmpeg_pipeline.py:86-95 | the suite is a prefix of the "fate-" lines: all of them when TEST_LIMIT is None or 0, at most TEST_LIMIT otherwise |
| TestRelevance.KeysMembers | docker/ffmpeg_docker/ffmpeg_pipeline.py:136 | a test is a key of the results exactly when some entry names it |
| TestRelevance.GetEntry | docker/ffmpeg_docker/ffmpeg_pipeline.py:181 | with distinct keys, looking up an entry's test gives that entry's files |
| TestRelevance.RunVulnTests | docker/ffmpeg_docker/ffmpeg_pipeline.py:134-148 | the loop over the vulnerable suite computes the pass function over every test |
| TestRelevance.KeysOfRemember | docker/ffmpeg_docker/ffmpeg_pipeline.py:143-147 | one step adds the test's key exactly when it covered a target |
| TestRelevance.KeysGrow | docker/ffmpeg_docker/ffmpeg_pipeline.py:134-148 | results never lose a test as the pass goes on |
| TestRelevance.RecordedWhenRelevant | docker/ffmpeg_docker/ffmpeg_pipeline.py:143-147 | a test that covered a changed file is in the results from its step on |
| TestRelevance.VulnAfterKeepsCached | docker/ffmpeg_docker/ffmpeg_pipeline.py:120-121 | the checkpoint's entries stay first and unchanged |
| TestRelevance.VulnAfterDistinct | docker/ffmpeg_docker/ffmpeg_pipeline.py:136-147 | the results never hold a test twice |
| TestRelevance.VulnAfterAdded | docker/ffmpeg_docker/ffmpeg_pipeline.py:134-147 | every entry after the cached ones is a test of the suite with the non-empty set of changed files it covered |
| TestRelevance.SkippedBeforeResume | docker/ffmpeg_docker/ffmpeg_pipeline.py:136-147 | a test before the checkpoint that is missing from the results covered no changed file |
| TestRelevance.ResumeMatchesFullRun | docker/ffmpeg_docker/ffmpeg_pipeline.py:120-150 | resuming from a checkpoint written after any step gives the same results as one uninterrupted pass |
| TestRelevance.ReplayBeforeCheckpoint | docker/ffmpeg_docker/ffmpeg_pipeline.py:136 | replaying the tests before the checkpoint changes nothing |
| TestRelevance.ResumePrefix | docker/ffmpeg_docker/ffmpeg_pipeline.py:134-147 | after the checkpoint the resumed pass takes the same steps as the uninterrupted one |
| TestRelevance.CsvRecords | docker/ffmpeg_docker/ffmpeg_pipeline.py:163-187 | one six-column record per row, carrying the row's vulnerable-side name, fix-side name and source file in the header's columns |
| TestRelevance.TestRows | docker/ffmpeg_docker/ffmpeg_pipeline.py:180-187 | a fix-suite test yields at most one row per changed file |
| TestRelevance.TestRowsMembers | docker/ffmpeg_docker/ffmpeg_pipeline.py:180-187 | a row is written for a changed file exactly when the test covered it at the vulnerable or at the fixed commit, each name filled only on the side that covered it |
| TestRelevance.FixRowsSource | docker/ffmpeg_docker/ffmpeg_pipeline.py:169-187 | every fix-suite row comes from one test of the suite |
| TestRelevance.VulnOnlyAsUncovered | docker/ffmpeg_docker/ffmpeg_pipeline.py:190-194 | a cached test the fix suite never ran is reported as if it covered nothing at the fixed commit |
| TestRelevance.RunFixTests | docker/ffmpeg_docker/ffmpeg_pipeline.py:165-194 | the pass over the fixed commit writes the suite's rows in order, then those of cached tests it never ran |
| TestRelevance.SuiteLoop | docker/ffmpeg_docker/ffmpeg_pipeline.py:166-187 | the loop over the fix suite writes its rows and collects exactly the names it ran |
| TestRelevance.LeftoverLoop | docker/ffmpeg_docker/ffmpeg_pipeline.py:190-194 | the loop over cached tests writes exactly the leftover rows |
| TestRelevance.LeftoverStep | docker/ffmpeg_docker/ffmpeg_pipeline.py:190-194 | each cached test adds its own rows when the fix suite did not run it, and nothing otherwise |
| TestRelevance.TargetLoop | docker/ffmpeg_docker/ffmpeg_pipeline.py:180-187 | the inner loop over changed files writes exactly that test's rows |
| TestRelevance.VulnOnlyLoop | docker/ffmpeg_docker/ffmpeg_pipeline.py:192-194 | the inner loop writes one row per changed file the cached test covered, with no fix-side name |
| FfmpegPipeline.RunPhase1Coverage | docker/ffmpeg_docker/ffmpeg_pipeline.py:108-197 | phase 1 fails with no CSV when the fix changed no file; otherwise it resumes the vulnerable pass unless the checkpoint is COMPLETE, saves it as COMPLETE, and writes the header then the fix-pass rows |
| FfmpegPipeline.Phase1RowsCoverTargets | docker/ffmpeg_docker/ffmpeg_pipeline.py:180-187 | every fix-suite row names a changed file and a test of the suite on one side or both |
| FfmpegPipeline.DetectRapl | docker/ffmpeg_docker/ffmpeg_pipeline.py:202-208 | each RAPL event gets a trailing '/' exactly when `perf list` prints it that way |
| FfmpegPipeline.Iterations | docker/ffmpeg_docker/ffmpeg_pipeline.py:215-217 | the fewest runs, at least one, whose total time reaches 3 s, with durations under 1 ms counted as 1 ms |
| FfmpegPipeline.IterationsBounded | docker/ffmpeg_docker/ffmpeg_pipeline.py:215-217 | at most 3000 runs, exactly 3000 for a run of 1 ms or less, and one run once a single run takes 3 s |
| FfmpegPipeline.Store | docker/ffmpeg_docker/ffmpeg_pipeline.py:232-235 | a reading overwrites its own metric only; a line without one changes nothing |
| FfmpegPipeline.LastLineWins | docker/ffmpeg_docker/ffmpeg_pipeline.py:226-236 | once a line sets a metric, the starting values no longer matter for it |
| FfmpegPipeline.FoldLast | docker/ffmpeg_docker/ffmpeg_pipeline.py:226-236 | the last line decides a metric it sets; otherwise the lines before it do |
| FfmpegPipeline.UnsetMetricKept | docker/ffmpeg_docker/ffmpeg_pipeline.py:225-236 | a metric no line sets stays at its starting value of 0 |
| FfmpegPipeline.ParsePerfStderr | docker/ffmpeg_docker/ffmpeg_pipeline.py:225-236 | the loop over perf's stderr computes the fold of its lines |
| FfmpegPipeline.PerRun | docker/ffmpeg_docker/ffmpeg_pipeline.py:238-239 | each metric is divided by the iteration count |
| FfmpegPipeline.MeasureTest | docker/ffmpeg_docker/ffmpeg_pipeline.py:210-240 | a measurement exists exactly when the dry run and perf both succeed, and it is the parsed totals per iteration |
| FfmpegPipeline.AddTaskMembers | docker/ffmpeg_docker/ffmpeg_pipeline.py:293-294 | a blank name adds nothing; otherwise exactly that test is added under its commit |
| FfmpegPipeline.TasksMembers | docker/ffmpeg_docker/ffmpeg_pipeline.py:291-294 | a test is a task of a commit exactly when some row names it on that commit's side, and no commit has an empty task set |
| FfmpegPipeline.GatherTasks | docker/ffmpeg_docker/ffmpeg_pipeline.py:291-294 | the loop over the rows collects exactly the tasks |
| FfmpegPipeline.MeasureCommit | docker/ffmpeg_docker/ffmpeg_pipeline.py:300-317 | one commit's entry keeps every cached test and gains each pending test whose measurement succeeded |
| FfmpegPipeline.MeasurePending | docker/ffmpeg_docker/ffmpeg_pipeline.py:299-317 | every commit with tasks gets an entry; uncached tests are measured and kept on success; cached values are never measured again or changed |
| FfmpegPipeline.ProcessCommit | docker/ffmpeg_docker/ffmpeg_pipeline.py:299-317 | processing one more commit keeps the loop invariant |
| FfmpegPipeline.ProcessCommitStep | docker/ffmpeg_docker/ffmpeg_pipeline.py:299-317 | replacing one commit's entry by its measured entry keeps the loop invariant |
| FfmpegPipeline.SideValues | docker/ffmpeg_docker/ffmpeg_pipeline.py:253-269 | a side is all zeros unless its test is named and measured at its commit; then it is the measurement, with IPC instructions/cycles, or 0 without cycles |
| FfmpegPipeline.EnergyRows | docker/ffmpeg_docker/ffmpeg_pipeline.py:242-273 | one output row per input row, in order, each carrying the input row |
| FfmpegPipeline.RunPhase2Energy | docker/ffmpeg_docker/ffmpeg_pipeline.py:275-322 | phase 2 fails without root or without the phase-1 CSV; otherwise a test is in the saved cache exactly when it was cached or was named by a row and measured, and the CSV is written from that cache |
| VulnFixTestCompile.TestSuite | vuln_fix_testCompile.py:99-108 | FFmpeg gets the "fate-" listing cut to TEST_LIMIT, OpenSSL its one standard workload, any other repository no tests |
| VulnFixTestCompile.ConfiguredSuiteIsFate | vuln_fix_testCompile.py:13-17 | with REPO_NAME "FFmpeg" and TEST_LIMIT None the suite is the whole "fate-" listing |
| VulnFixTestCompile.RunVulnPhase | vuln_fix_testCompile.py:113-163 | a COMPLETE checkpoint is returned as it is; a failed checkout or build gives None; otherwise the pass resumes from the cached results and its result is saved as COMPLETE |
| VulnFixTestCompile.RunFixPhase | vuln_fix_testCompile.py:168-234 | a failed checkout or build appends nothing; otherwise the header only for a new file, then the fix-pass records |
| VulnFixTestCompile.HeaderOnlyWhenNew | vuln_fix_testCompile.py:182-188 | the header is among the appended records exactly when the CSV did not exist yet |
| VulnFixTestCompile.RunPipeline | vuln_fix_testCompile.py:239-252 | the script stops without a project directory, without changed files, or when the vulnerable phase fails; otherwise it appends the fix-phase records computed from the vulnerable results |
| OpensslCommon.MulCancel | docker/openssl_docker/common.py:15 | a helper for the bar bounds: a·c < (b+1)·c with c > 0 gives a ≤ b |
| OpensslCommon.BarShape | docker/openssl_docker/common.py:13-17 | for 0 ≤ i < total the bar has exactly `length` cells: floor(length·(i+1)/total) full ones, then empty ones |
| OpensslCommon.FilledBounds | docker/openssl_docker/common.py:14-15 | the full cells are floor(length·(i+1)/total) and lie in [0, length] |
| OpensslCommon.BarCells | docker/openssl_docker/common.py:16 | f full cells then length - f empty cells make `length` cells |
| OpensslCommon.BarFullAtEnd | docker/openssl_docker/common.py:13-17 | the last step shows a full bar |
| OpensslCommon.BarMonotone | docker/openssl_docker/common.py:14-15 | later steps never show fewer full cells |
| OpensslCommon.ProgressBar.constructor | docker/openssl_docker/common.py:8-11 | total, length and step are stored, and no step is current yet |
| OpensslCommon.ProgressBar.Set | docker/openssl_docker/common.py:24-26 | `set(i)` makes `i` current and shows `update(i)` |
| OpensslCommon.ProgressBar.Log | docker/openssl_docker/common.py:19-22 | `log` before any `set` raises AttributeError; otherwise it shows the message and redraws the current step |
| OpensslCommon.Sh | docker/openssl_docker/common.py:47-51 | with `check=True`, `sh` returns only on exit code 0, with code 0 and no stderr; any other exit raises with that code |
| OpensslCommon.BuildArgv | docker/openssl_docker/common.py:67-74 | the build argv is `make -j<n>` |
| OpensslCommon.JobsDefault | docker/openssl_docker/common.py:69-72 | with `n_proc == -1` the jobs flag is the CPU count, or 1 when it is unknown |
| OpensslCommon.MakeBuild | docker/openssl_docker/common.py:66-77 | `build` runs `BuildArgv`; it returns True on exit 0 and otherwise raises, so it never returns False |
| OpensslCommon.TestArgv | docker/openssl_docker/common.py:89 | the test argv names the test as `TESTS=<target>` |
| OpensslCommon.GcovEnv | docker/openssl_docker/common.py:83-87 | the environment gains GCOV_PREFIX_STRIP "3" and GCOV_PREFIX `<output>/coverage-per-test/<target>`, every other variable unchanged |
| OpensslCommon.MakeTest | docker/openssl_docker/common.py:80-95 | `test` runs `TestArgv` under `GcovEnv` and reports success exactly on exit 0, a raised failure becoming False |
| OpensslCommon.CoveredFileList | docker/openssl_docker/common.py:30-45 | the list holds each covered source path exactly once |
| OpensslCommon.PartsLessIrreflexive | docker/openssl_docker/common.py:106 | the path order is irreflexive |
| OpensslCommon.PartsLessTransitive | docker/openssl_docker/common.py:106 | the path order is transitive |
| OpensslCommon.PartsLessTotal | docker/openssl_docker/common.py:106 | different paths are ordered one way or the other |
| OpensslCommon.PathLessTotal | docker/openssl_docker/common.py:106 | `sorted` on paths compares component by component, a total order |
| OpensslCommon.PathLessTransitive | docker/openssl_docker/common.py:106 | that order is transitive |
| OpensslCommon.PathLessIrreflexive | docker/openssl_docker/common.py:106 | that order is strict |
| OpensslCommon.InsertPath | docker/openssl_docker/common.py:106 | inserting a new path keeps the list sorted and adds exactly that path |
| OpensslCommon.SortPaths | docker/openssl_docker/common.py:106 | `sorted` gives a sorted permutation of the paths |
| OpensslCommon.PathSortedTail | docker/openssl_docker/common.py:106 | the tail of a sorted list is sorted |
| OpensslCommon.PathSortedHeads | docker/openssl_docker/common.py:106 | two sorted permutations start alike |
| OpensslCommon.PathSortedUnique | docker/openssl_docker/common.py:106 | the sorted order of a set of paths is unique |
| OpensslCommon.CoverageFile | docker/openssl_docker/common.py:98-107 | one entry per `.gcda` found |
| OpensslCommon.CoverageFileInPathOrder | docker/openssl_docker/common.py:106-107 | the entries are the found paths in path order, each with every "gcda" replaced by "c" |
| OpensslCommon.SelectorRun | docker/openssl_docker/common.py:142 | `[^/\s]+` takes the maximal run of characters other than '/' and space |
| OpensslCommon.ShorterEnd | docker/openssl_docker/common.py:142 | backtracking stops at the longest prefix that ends at a word boundary |
| OpensslCommon.MatchEnd | docker/openssl_docker/common.py:142 | a match is longer than `power/energy-` |
| OpensslCommon.MatchEndShape | docker/openssl_docker/common.py:142 | every match is `power/energy-` followed by a selector name |
| OpensslCommon.FindAll | docker/openssl_docker/common.py:153 | `findall` returns only such matches |
| OpensslCommon.Canonical | docker/openssl_docker/common.py:155-156 | a match gets a trailing '/' unless it already has one |
| OpensslCommon.LineEvents | docker/openssl_docker/common.py:151-157 | a line contributes only canonical energy events |
| OpensslCommon.OutputEvents | docker/openssl_docker/common.py:150-157 | the listing contributes only canonical energy events |
| OpensslCommon.SelectorRunExact | docker/openssl_docker/common.py:142 | the selector run is measured exactly |
| OpensslCommon.MatchStopsBeforeSlash | docker/openssl_docker/common.py:142 | a match ending in a word character before '/' ends before that '/', which `\b` forbids to take |
| OpensslCommon.CanonicalOfName | docker/openssl_docker/common.py:142-157 | `power/energy-<name>` is recorded as `power/energy-<name>/` |
| OpensslCommon.SortedList | docker/openssl_docker/common.py:159 | the returned list is strictly sorted and holds exactly the set |
| OpensslCommon.AddLineEvents | docker/openssl_docker/common.py:153-157 | one line adds exactly its events to the set |
| OpensslCommon.SortedEventsCanonical | docker/openssl_docker/common.py:159 | sorting keeps every event canonical |
| OpensslCommon.DetectRapl | docker/openssl_docker/common.py:141-159 | the events of `perf list --no-desc`, or of `perf list` when that fails, strictly sorted, duplicate-free, each ending in '/'; both failing raises |
| OpensslCommon.StrippedNonBlank | docker/openssl_docker/common.py:187 | no event is empty |
| OpensslCommon.StrippedNonBlankMembers | docker/openssl_docker/common.py:187 | an event is kept exactly when it is the non-empty strip of some entry |
| OpensslCommon.AllBlankStripsAway | docker/openssl_docker/common.py:187 | all-blank entries give no event |
| OpensslCommon.NormalizeEvents | docker/openssl_docker/common.py:186-194 | the event list is never empty |
| OpensslCommon.NormalizeEventsSpec | docker/openssl_docker/common.py:186-194 | a collection gives its stripped non-blank entries, or the default `power/energy-pkg/` when none; a non-empty value gives itself stripped; no value gives the default |
| OpensslCommon.BlankValueGivesEmptyEvent | docker/openssl_docker/common.py:188-196 | a blank single value is truthy, so it yields one empty event and the event string starts with a comma |
| OpensslCommon.PerfEventsFields | docker/openssl_docker/common.py:196 | the perf event string splits back into the events, then cycles and instructions |
| OpensslCommon.TimeoutSeconds | docker/openssl_docker/common.py:258 | max(1, ceil(timeout_ms / 1000)) |
| OpensslCommon.BashCommandRoundTrip | docker/openssl_docker/common.py:263-274 | the wrapper is `bash -lc ` followed by the quoted script, which unquotes back to the script |
| OpensslCommon.WrapUntilTimeoutSpec | docker/openssl_docker/common.py:248-275 | the wrapped command is `bash -lc` with the `set -e` deadline loop over the test command, for the rounded-up seconds |
| OpensslCommon.OutPaths | docker/openssl_docker/common.py:206-209 | one output path per iteration, numbered by it |
| OpensslCommon.IntToStringInjective | docker/openssl_docker/common.py:209 | different iteration numbers are written differently |
| OpensslCommon.PathJoinInjective | docker/openssl_docker/common.py:209 | joining one directory with different names gives different paths |
| OpensslCommon.NumberedNameInjective | docker/openssl_docker/common.py:209 | output names of different iterations differ |
| OpensslCommon.OutPathsDistinct | docker/openssl_docker/common.py:206-209 | no two iterations share an output file |
| OpensslCommon.PerfArgv | docker/openssl_docker/common.py:215-224 | the perf argv carries the events, the output file and the wrapped command where perf expects them |
| OpensslCommon.RecordRun | docker/openssl_docker/common.py:226-243 | one run keeps its output file exactly when perf exits 0, removing it on failure |
| OpensslCommon.AfterRunsSpec | docker/openssl_docker/common.py:206-246 | after the loop an iteration's file exists exactly when that run exited 0 (and wrote it or it was there), other files are untouched, and a failure does not stop the loop |
| OpensslCommon.Runs | docker/openssl_docker/common.py:206-224 | one perf run per iteration |
| OpensslCommon.RunsAt | docker/openssl_docker/common.py:206-224 | run i writes to the output file of iteration i |
| OpensslCommon.BarLines | docker/openssl_docker/common.py:207 | one progress line per iteration |
| OpensslCommon.RunAllIterations | docker/openssl_docker/common.py:206-246 | every iteration runs once, shows its progress step, keeps or removes its file as `AfterRuns` says, and cools down |
| OpensslCommon.MeasureTest | docker/openssl_docker/common.py:161-246 | `measure_test` normalises the events, runs every iteration with the per-test timeout into `energy_measurements`, and continues after failures |
| OpensslEnergy.WrapCommandSpec | docker/openssl_docker/energy.py:19-44 | the wrapped command is `bash -lc ` and one quoted word that reads back as the twelve-space-indented deadline script over the test command, for max(1, ceil(timeout_ms / 1000)) seconds |
| OpensslEnergy.FirstFailure | docker/openssl_docker/energy.py:101-107 | every iteration before the first failure exited 0, and that one did not |
| OpensslEnergy.RunsPrefix | docker/openssl_docker/energy.py:75-99 | the first k runs of a longer loop are the runs of a k-iteration loop |
| OpensslEnergy.Performed | docker/openssl_docker/energy.py:75-107 | no more runs happen than iterations |
| OpensslEnergy.RunUntilFailure | docker/openssl_docker/energy.py:75-112 | iterations run in order up to and including the first failure, whose output file is removed; each successful run is followed by a cool-down |
| OpensslEnergy.MeasureTest | docker/openssl_docker/energy.py:46-112 | `measure_test` normalises the events, lets the test's "timeout_ms" override the default, writes under `<output>/<repo>/perf`, stops at the first failing run, and returns None whatever happens |
| OpensslEnergy.StopsAtFirstFailure | docker/openssl_docker/energy.py:101-107 | the runs are a prefix of those of the loop that never stops, all of them exactly when no run before the last fails, and each performed run keeps its file exactly when it exited 0 |
| OpensslProject.KindOf | docker/openssl_docker/project.py:16-31 | a name is accepted exactly when its lower-case form is one of the six project names, and selects the project of that name; any other name raises "Unknown project: <name>" |
| OpensslProject.KindOfName | docker/openssl_docker/project.py:16-31 | each project's own name selects that project |
| OpensslProject.FirstFailing | docker/openssl_docker/common.py:47-51 | the commands before the first failing one all exit 0, and that one does not |
| OpensslProject.FirstFailingConcat | docker/openssl_docker/common.py:47-51 | in two command lists run in turn, the second starts only when the first ran through |
| OpensslProject.RanConcatStops | docker/openssl_docker/common.py:47-51 | a failure in the first list ends the run there, with its status |
| OpensslProject.RanConcatContinues | docker/openssl_docker/common.py:47-51 | when the first list ran through, the run and its outcome are those of the second list |
| OpensslProject.FirstToken | docker/openssl_docker/project.py:363 | `line.strip().split()[0]` is a word: non-empty and free of whitespace |
| OpensslProject.FirstTokenIsLeadingWord | docker/openssl_docker/project.py:363 | it is the run of non-whitespace right after the indentation |
| OpensslProject.ListedTests | docker/openssl_docker/project.py:361-365 | the listing yields at most one word per line |
| OpensslProject.ListedTestsMembers | docker/openssl_docker/project.py:361-365 | a name is listed exactly when some non-blank line not starting with an excluded prefix starts with it |
| OpensslProject.CtestLine | docker/openssl_docker/project.py:217-221 | a `ctest -N` line holding "Test #" gives its stripped second ':'-field |
| OpensslProject.VimTestNameOf | docker/openssl_docker/project.py:414-423 | `<dir>/test_x.vim` and `<dir>/test_x.in` both give the test `test_x` |
| OpensslProject.VimTests | docker/openssl_docker/project.py:417-423 | one Vim test per globbed file, in glob order |
| OpensslProject.ArtifactSource | docker/openssl_docker/project.py:102-107 | `<prefix>.dir/<rel>.c.gcda` is reported as `<rel>.c` |
| OpensslProject.TerminalEnv | docker/openssl_docker/project.py:407-408 | Vim's environment gains LINES "24" and COLUMNS "80" and keeps every other variable |
| OpensslProject.Project.constructor | docker/openssl_docker/project.py:42-55 | a project's output and input directories are its name under the two roots |
| OpensslProject.Project.TestCmd | docker/openssl_docker/project.py:358-359 | every project's test command has at least three words |
| OpensslProject.Project.TestCmdInjective | docker/openssl_docker/project.py:199-200 | different tests get different commands, for each of the six projects |
| OpensslProject.Project.TestEnv | docker/openssl_docker/project.py:109-115 | the test environment gains GCOV_PREFIX_STRIP "3" and GCOV_PREFIX `<output>/coverage-per-test/<test>`, plus Vim's terminal size, and keeps every other variable |
| OpensslProject.Project.VimCommandLine | docker/openssl_docker/project.py:411-434 | inside Vim's `script` wrapper the command line is `make <test> HARNESS_JOBS=1 LINES=24 COLUMNS=80` |
| OpensslProject.Project.RunTest | docker/openssl_docker/project.py:64-67 | a failing `mkdir` raises before the test; otherwise the test passed exactly when it exited 0, and a failing test's status is the caught error |
| OpensslProject.Project.CoverageFile | docker/openssl_docker/project.py:94-107 | one entry per artifact under a `.dir/`, and an entry is listed exactly when it is such an artifact rewritten to its source |
| OpensslProject.Project.Configure | docker/openssl_docker/project.py:371-390 | `_configure` runs each project's commands until one fails, which raises; otherwise it returns True, or None (falsy) for LibRaw |
| OpensslProject.Project.ConfigureVnc | docker/openssl_docker/project.py:246-276 | LibVNCServer uses CMake when there is a CMakeLists.txt, else runs autogen.sh only when configure is missing, then configure with the flags in the environment |
| OpensslProject.Project.CompileArgv | docker/openssl_docker/project.py:82-92 | the compile argv ends with the jobs flag: the given count, or the CPU count (1 if unknown) for -1 |
| OpensslProject.Project.Build | docker/openssl_docker/project.py:127-133 | `build` cleans when a Makefile exists, configures, and compiles only after a true configure; the first failing command raises |
| OpensslProject.Project.BuildFalseOnlyForLibRaw | docker/openssl_docker/project.py:127-133 | `build` returns False exactly for LibRaw whose clean step passed, and then it never compiles |
| OpensslProject.Project.ParseCtestListing | docker/openssl_docker/project.py:210-226 | the loop over `ctest -N` collects exactly the tests its lines name |
| OpensslProject.Project.GetTest | docker/openssl_docker/project.py:361-365 | the suite of each project: the parsed listing, or the raised status when listing fails; Vim's globbed names; an empty LibVNCServer suite without a CMake build; PHP and LibRaw fail when called with no argument |
| OpensslProject.RunOne | docker/openssl_docker/common.py:47-51 | one command either passes or raises with its status |
| OpensslProject.RunTwo | docker/openssl_docker/project.py:288-324 | a failing first command raises before the second runs |
| OpensslProject.RunAll | docker/openssl_docker/common.py:47-51 | commands run one after another until the first failure, which raises with its status |
| OpensslProject.GetProject | docker/openssl_docker/project.py:13-31 | the factory builds a new project of the kind the name selects, under the given roots, or raises for an unknown name |
| OpensslPipeline.PassedTests | docker/openssl_docker/openssl_pipeline.py:67-89 | no more records than tests in the suite |
| OpensslPipeline.PassedTestsConcat | docker/openssl_docker/openssl_pipeline.py:67-89 | running a suite in two parts gives the records of the first part, then those of the second |
| OpensslPipeline.PassedTestsSpec | docker/openssl_docker/openssl_pipeline.py:67-89 | a record is kept exactly for a suite test that exited 0, with the sources its artifacts name |
| OpensslPipeline.CollectRaised | docker/openssl_docker/openssl_pipeline.py:67-89 | once a test step raises, later steps do not change the result |
| OpensslPipeline.Steps | docker/openssl_docker/openssl_pipeline.py:67-89 | one step per suite test, in order |
| OpensslPipeline.CollectSteps | docker/openssl_docker/openssl_pipeline.py:67-89 | the steps of a non-empty suite raise at the first test when the sweeps or `mkdir` fail, and otherwise give the passing tests |
| OpensslPipeline.RunOneTest | docker/openssl_docker/openssl_pipeline.py:70-89 | one iteration sweeps old coverage data, runs the test, and records it only when it passed |
| OpensslPipeline.RunSuite | docker/openssl_docker/openssl_pipeline.py:65-91 | the loop over the suite collects the records of the passing tests, and stops at the first raise |
| OpensslPipeline.ProcessCommit | docker/openssl_docker/openssl_pipeline.py:39-91 | `process_commit` checks out, builds, lists and runs the suite, in that order |
| OpensslPipeline.TestBuilt | docker/openssl_docker/openssl_pipeline.py:58-91 | a built commit with an empty suite yields []; otherwise its suite runs |
| OpensslPipeline.ProcessCommitSpec | docker/openssl_docker/openssl_pipeline.py:39-91 | a build that gives False or an empty suite yields []; a non-empty result holds exactly the passing tests of the suite, each with its coverage and no mark |
| OpensslPipeline.SourceTargets | docker/openssl_docker/openssl_pipeline.py:181 | the targets are the changed paths ending in .c, .cpp, .h or .hpp |
| OpensslPipeline.Marked | docker/openssl_docker/openssl_pipeline.py:182-187 | marking keeps the number of tests |
| OpensslPipeline.ExtractTestsCoveringChanges | docker/openssl_docker/openssl_pipeline.py:174-187 | the loop marks every test in place |
| OpensslPipeline.MarkedSpec | docker/openssl_docker/openssl_pipeline.py:174-187 | marking changes only `keep`, which is true exactly when the test covered a changed C/C++ file |
| OpensslPipeline.KeptTests | docker/openssl_docker/openssl_pipeline.py:248 | no more kept tests than tests |
| OpensslPipeline.KeptTestsMembers | docker/openssl_docker/openssl_pipeline.py:248 | a test is kept exactly when its `keep` is true or missing |
| OpensslPipeline.KeptAfterMarking | docker/openssl_docker/openssl_pipeline.py:181-187 | after marking, the kept tests are those that cover a changed C/C++ file, in order |
| OpensslPipeline.UnmarkedAllKept | docker/openssl_docker/openssl_pipeline.py:248 | unmarked tests are all kept |
| OpensslPipeline.Pairs | docker/openssl_docker/openssl_pipeline.py:236-237 | no more pairs than dataset rows |
| OpensslPipeline.PairsMembers | docker/openssl_docker/openssl_pipeline.py:236-237 | a pair is listed exactly when some dataset row of the project names it |
| OpensslPipeline.Prefix8 | docker/openssl_docker/openssl_pipeline.py:267 | `s[:8]` is a prefix of at most eight characters |
| OpensslPipeline.UnderscoreSplit | docker/openssl_docker/openssl_pipeline.py:267 | a '_'-joined pair whose first part holds no '_' splits back into its parts |
| OpensslPipeline.CoverageFileNameCollides | docker/openssl_docker/openssl_pipeline.py:267 | two pairs share a coverage file name exactly when their commits agree in the first eight characters |
| OpensslPipeline.MeasureCommit | docker/openssl_docker/openssl_pipeline.py:254-265 | one round checks out and builds the commit; a False build stops the loop, and a kept test makes `compute_energy` raise |
| OpensslPipeline.FirstStop | docker/openssl_docker/openssl_pipeline.py:254-265 | every round before the first stop went on, and that one did not |
| OpensslPipeline.FirstStopAt | docker/openssl_docker/openssl_pipeline.py:254-265 | a round that goes on moves the loop past it; any other round is where the loop stops |
| OpensslPipeline.MeasurePair | docker/openssl_docker/openssl_pipeline.py:254-265 | the loop over (vuln, fix) runs rounds in order until one stops or raises; with kept tests it never reaches the fixed commit |
| OpensslPipeline.KeptStopsFirstRound | docker/openssl_docker/openssl_pipeline.py:264-265 | with kept tests the first round never goes on |
| OpensslPipeline.ProcessPair | docker/openssl_docker/openssl_pipeline.py:243-270 | a pair is skipped without coverage results or kept tests; otherwise the energy loop runs, and the results are saved unless it raised |
| OpensslPipeline.PairSavedSpec | docker/openssl_docker/openssl_pipeline.py:243-270 | a pair is saved exactly when it has kept tests and its vulnerable commit builds to False, and it saves the coverage results unchanged under `<name>_<vuln[:8]>_<fix[:8]>_coverage.json` |
| OpensslPipeline.FirstCrash | docker/openssl_docker/openssl_pipeline.py:240-270 | every pair before the first raise completed, and that one raised |
| OpensslPipeline.FirstCrashAt | docker/openssl_docker/openssl_pipeline.py:240-270 | a completed pair moves the run past it; a raising pair is where the run stops |
| OpensslPipeline.SavedFiles | docker/openssl_docker/openssl_pipeline.py:267-270 | no more saved files than pairs |
| OpensslPipeline.SavedStep | docker/openssl_docker/openssl_pipeline.py:267-270 | each completed pair adds its saved file, if any, at the end |
| OpensslPipeline.SavedFilesMembers | docker/openssl_docker/openssl_pipeline.py:267-270 | the saved files are exactly the saved outcomes |
| OpensslPipeline.PairOutcomes | docker/openssl_docker/openssl_pipeline.py:240-270 | one outcome per pair, in order |
| OpensslPipeline.AllRowsOfConfiguredName | docker/openssl_docker/openssl_pipeline.py:236-237 | rows are selected by the configured name as written: when every row carries it, every row becomes a pair, in order |
| OpensslPipeline.RunProject | docker/openssl_docker/openssl_pipeline.py:236-270 | `main`'s loop for one project processes the pairs of the rows whose project equals the configured name, in order; the first raise ends the run with that pair's failure, and the saved files are those of the pairs before it |
| OpensslPipeline.RunConfiguredProject | docker/openssl_docker/openssl_pipeline.py:224-270 | an unknown configured name raises "Unknown project: <name>" and saves nothing; otherwise the project the name selects (in any letter case) is built under the two roots and `RunProject` runs with the configured name |
| PyStr.Strip | docker/openssl_docker/common.py:187 | `str.strip()` leaves neither leading nor trailing whitespace and never lengthens the string |
| PyStr.SplitJoin | docker/openssl_docker/common.py:196 | splitting a `sep.join(parts)` on `sep` gives the parts back when none holds the separator |
| PyStr.JoinSplit | docker/openssl_docker/common.py:115 | joining the pieces of `split(sep)` with `sep` gives the string back |
| PyStr.SortedUnique | docker/openssl_docker/common.py:159 | two strictly sorted lists with the same elements are equal, so `sorted(set)` is determined by the set |
| PyStr.ShlexRoundTrip | docker/openssl_docker/common.py:263-274 | what `shlex.quote` produces reads back, as one shell word, as its input |

## Specification functions

The functions below define what a piece of the scripts computes and carry no
contract of their own. The properties of each are stated by the "## Model"
rows listed after it, which also cite the source lines; a function is
specified by those rows rather than by a body-restating `ensures`.
Smaller helpers and predicates used only inside these definitions are
specified through them.

- `RunTestsCurl.AllTestsText`: AllTestsTextRoundTrip, ExtractAllTests
- `RunTestsCurl.Text`: TextInjective, Tally, RunAll
- `RunTestsCurl.Rank`: ClassifySpec, ClassifyConcat
- `RunTestsCurl.Classify`: ClassifySpec, ClassifyConcat, SingleTest
- `RunTestsCurl.TestCmd`: SingleTest, SingleTestIgnoresExitStatus
- `CurlCovTests.ErrorMessage`: RunSteps
- `CurlCovTests.Touched`: TouchedOfStem, TestRows, TestRowsMembers, AllRowsMembers
- `CurlCovTests.DataTestIds`: DataTestIdsSpec, CoverageRun
- `CurlCovTests.RunTestCmd`: TestRows, TestRowsMembers, AllRowsMembers
- `CurlCovTests.TestLog`: RunTest
- `CurlCovTests.AllRows`: AllRowsMembers, RunTestLoop, CoverageRun
- `CurlCovTests.AllLog`: RunTestLoop, CoverageRun
- `FilteringTests.GenerateCmd`: GeneratorPrecedence, GenerateRunsThird
- `FilteringTests.TestTarget`: AutotoolsSteps, BuildRoutes
- `FilteringTests.BuildAndTest`: GeneratorPrecedence, GenerateRunsThird, AutoreconfRcIgnored, SameRaisingSameBuild, BuildRoutes, RowResultSpec
- `FilteringTests.SourceGuess`: SourceGuessOfStem
- `FilteringTests.CoveredName`: CoveredNameOfStem, CoveredNamesMembers
- `FilteringTests.CoveredNames`: CoveredNamesMembers, CollectCoverage, RowResultSpec
- `FilteringTests.MatchLine`: MatchLineInjective, WriteMatches
- `FilteringTests.RowResult`: RowResultSpec, AllLinesStep, ProcessRow, AppendRow, FilterTests
- `FilteringTests.RowLines`: AllLinesStep, AppendRow
- `FilteringTests.RowLineCount`: AllLinesStep, AppendRow
- `FilteringTests.AllLines`: AllLinesStep, FilterTests
- `FilteringTests.AllLineCount`: AllLinesStep, FilterTests
- `FilteringTests.Elements`: AppendRow, FilterTests
- `CoverageIntersection.Max`: HunkRecordsFrom, HunkRecords
- `CoverageIntersection.ParseHunkHeader`: ParseHeaderText, StepRecords
- `CoverageIntersection.LenText`: ReadOptLenOf
- `CoverageIntersection.HeaderText`: ParseHeaderText
- `CoverageIntersection.CurrentAfter`: AfterLine, NoFileHeaderNoRecords, CurrentFileFromLastHeader
- `CoverageIntersection.DiffMapping`: GetDiffMapping
- `CoverageIntersection.DaLine`: DaRecordSetsHit, DaLineShape
- `CoverageIntersection.LcovFrom`: LcovKeysFromSf, LcovWithoutSf
- `CoverageIntersection.SfKey`: LcovKeysFromSf
- `CoverageIntersection.VLines`: HitsWithinLines, CountsAppend, JoinPair
- `CoverageIntersection.VHitRows`: HitsWithinLines, CountsAppend, JoinPair
- `CoverageIntersection.FLines`: HitsWithinLines, CountsAppend, JoinPair
- `CoverageIntersection.FHitRows`: HitsWithinLines, CountsAppend, JoinPair
- `CoverageIntersection.DropFlag`: MasterView, CleanViewMembers
- `CoverageIntersection.CountExecutable`: CleanViewSize
- `CoverageScript.CounterValue`: DottedValue, NatCounterValue
- `CoverageScript.ParseRow`: RowOf, PmuRow, CountOfSample
- `CoverageScript.AddSample`: AddCombine, CountOfSample, AddToTotals
- `CoverageScript.Count`: CountCombine, TallyOfTwo, CountOfSample, TallyStep
- `CoverageScript.Tally`: TallyAppend, TallyOfTwo, TallyStep, HybridCyclesSum, MeasureOnceFails
- `CoverageScript.Combine`: CountCombine, AddCombine, TallyAppend
- `CoverageScript.MeasureOnce`: MeasureOnceFails, MeasureWorkloadOnce, MeasureWorkloadMultiple, MeasuredEnergyPresent, EnergyMeanNonNegative
- `CoverageScript.Sum`: SumBounds
- `CoverageScript.ComputeStats`: MeasuredEnergyPresent, ComputeStatsNaN, EnergyMeanNonNegative
- `FindCovEnergyPerf.Fold`: LastCyclesRowWins, ReadPerfFile
- `FindCovEnergyPerf.MedianOfRuns`: MedianOfOne
- `FindCovEnergyPerf.MeasureEnergy`: MeasureEnergySmart
- `FindCovEnergyPerf.SfBasenames`: SfBasenamesStep, ParseLcovInfo, LcovNamesSortedDistinct, SfBasenamesMembers
- `PerfSamplingCurl.Stream`: TimeoutExitCode
- `PerfSamplingCurl.Capture`: TimeoutExitCode
- `PerfSamplingCurl.Supported`: SupportedMembers
- `PerfSamplingCurl.EnergyEvents`: EnergyEventsSpec
- `PerfSamplingCurl.EnergyKey`: EnergyKeyIsMetric, ReadingOfEnergy, EnergyLineReads
- `PerfSamplingCurl.NumberValue`: LastReadingWins, NumberValueOfNat, EnergyLineReads, TimeLineReads
- `PerfSamplingCurl.StatMetrics`: ParsePerfStatEnergy, StatLines, StatLine, StatStep, FailurePersists, ErrIsFloatError, StatKeys, LastReadingWins, UnreportedKeyAbsent
- `PerfSamplingCurl.StatUpdate`: StatStep
- `PerfSamplingCurl.PerfDataPath`: SamplingPhase
- `PerfSamplingCurl.BuildPlan`: BuildPlanOfCommands, PlanOfFour, PlanStep, BuildLoop
- `PerfSamplingCurl.BuildSteps`: BuildPhase
- `PerfSamplingCurl.RecordCommand`: SamplingPhase
- `PerfSamplingCurl.ReportCommand`: SamplingPhase
- `PerfSamplingCurl.EnergyRowOf`: EnergyRowStatus, RunPerfSampling
- `PerfSamplingCurl.EventsText`: RunPerfSampling
- `PerfSamplingCurl.StatRun`: RunPerfSampling
- `PerfSamplingCurl.StatOf`: RunPerfSampling
- `PerfSamplingCurl.RecordRc`: RunPerfSampling, SamplingPhase
- `PerfSamplingCurl.ReportRun`: RunPerfSampling, SamplingPhase
- `AutoTcVerifier.CTestMatches`: CTestMatchesWellFormed, CTestStep, CTestLineStep, NewlineNotCTest, CTestReportRoundTrip, CTestTakesPrecedence
- `AutoTcVerifier.Normalise`: NormaliseStatuses
- `AutoTcVerifier.AutomakeMatches`: AutomakeMatchesWellFormed, AutomakeStep, AutomakeLineStep, NewlineStartsLine, AutomakeReportRoundTrip
- `AutoTcVerifier.ParsedTests`: ParsedTestsWellFormed, ParseTestOutput, CTestTakesPrecedence, TestsFoundSource
- `AutoTcVerifier.CTestLine`: CTestLineReads, CTestLineStep
- `AutoTcVerifier.CTestReport`: CTestReportRoundTrip, CTestTakesPrecedence
- `AutoTcVerifier.AutomakeLine`: AutomakeLineReads, AutomakeLineStep
- `AutoTcVerifier.AutomakeReport`: AutomakeReportRoundTrip
- `AutoTcVerifier.RunCmd`: TestsFoundSource, NoRuleSkipped, StageCounts
- `AutoTcVerifier.MakeCommand`: TestsFoundSource, MakeTestNotConsulted, NoRuleSkipped
- `AutoTcVerifier.CTestTests`: CTestFirst
- `AutoTcVerifier.MakeAttempt`: MakeTestNotConsulted
- `AutoTcVerifier.MakeTests`: TryMakeTargets, NoRuleSkipped
- `AutoTcVerifier.TestsFound`: RunTests, TestsFoundSource, MakeTestNotConsulted, CTestFirst, StageCounts, TestsFoundWellFormed
- `AutoTcVerifier.CheckoutCommand`: StageCounts
- `AutoTcVerifier.Stage`: StageCounts, ProcessCommitStage
- `AutoTcVerifier.ProjectRows`: WriteProjectRows, AlignedRowsSpec, FailureRowSpec
- `AutoTcVerifier.EntryRows`: ProcessEntry
- `AutoTcVerifier.Rows`: Verify, RowsFromSnapshot, AtLeastOneRowEach
- `AutoTcVerifier.Present`: AtLeastOneRowEach
- `TestRelevance.GcdaSource`: GcdaSourceOfStem
- `TestRelevance.CoveredFiles`: CoveredFilesMembers, GetCoveredFiles, FixRowsSource
- `TestRelevance.Keys`: KeysMembers, KeysOfRemember, KeysGrow, RecordedWhenRelevant, SkippedBeforeResume
- `TestRelevance.Get`: GetEntry, TestRowsMembers
- `TestRelevance.Relevant`: RecordedWhenRelevant, SkippedBeforeResume
- `TestRelevance.Remember`: KeysOfRemember
- `TestRelevance.VulnAfter`: RunVulnTests, KeysGrow, RecordedWhenRelevant, VulnAfterKeepsCached, VulnAfterDistinct, VulnAfterAdded, SkippedBeforeResume, ResumeMatchesFullRun, ReplayBeforeCheckpoint, ResumePrefix
- `TestRelevance.FixRows`: FixRowsSource, SuiteLoop
- `TestRelevance.VulnOnlyRows`: VulnOnlyAsUncovered, VulnOnlyLoop
- `TestRelevance.LeftoverRows`: LeftoverLoop
- `TestRelevance.FixPassRows`: RunFixTests
- `FfmpegPipeline.Reading`: FoldLast
- `FfmpegPipeline.Value`: Store, LastLineWins, FoldLast, UnsetMetricKept, PerRun
- `FfmpegPipeline.Fold`: LastLineWins, FoldLast, UnsetMetricKept, ParsePerfStderr, MeasureTest
- `FfmpegPipeline.AddTask`: AddTaskMembers
- `FfmpegPipeline.Tasks`: TasksMembers, GatherTasks, RunPhase2Energy
- `OpensslCommon.Filled`: BarShape, FilledBounds, BarFullAtEnd, BarMonotone
- `OpensslCommon.Bar`: BarShape, BarFullAtEnd
- `OpensslCommon.ProgressBar.Update`: ProgressBar.Set, ProgressBar.Log
- `OpensslCommon.Jobs`: JobsDefault
- `OpensslCommon.PerfEvents`: BlankValueGivesEmptyEvent, PerfEventsFields, MeasureTest
- `OpensslCommon.DeadlineScript`: WrapUntilTimeoutSpec
- `OpensslCommon.BashCommand`: BashCommandRoundTrip
- `OpensslCommon.WrapUntilTimeout`: WrapUntilTimeoutSpec, MeasureTest
- `OpensslCommon.NameText`: MeasureTest
- `OpensslCommon.OutPath`: OutPaths, RunsAt
- `OpensslCommon.AfterRun`: RecordRun
- `OpensslCommon.AfterRuns`: AfterRunsSpec, RunAllIterations, MeasureTest
- `OpensslEnergy.WrapCommand`: WrapCommandSpec, MeasureTest
- `OpensslEnergy.PerfDir`: MeasureTest
- `OpensslProject.ProjectName`: KindOf, KindOfName, Project.constructor, GetProject
- `OpensslProject.Ran`: RanConcatStops, RanConcatContinues, Project.Configure, Project.ConfigureVnc, Project.Build, RunTwo, RunAll
- `OpensslProject.Outcome`: RanConcatStops, RanConcatContinues, Project.Configure, Project.ConfigureVnc, Project.Build, Project.BuildFalseOnlyForLibRaw, RunOne, RunTwo, RunAll
- `OpensslProject.CtestTestOfLine`: CtestLine
- `OpensslProject.CtestTests`: Project.ParseCtestListing, Project.GetTest
- `OpensslProject.VimTestName`: VimTestNameOf, VimTests, Project.GetTest
- `OpensslProject.SourceOfArtifact`: ArtifactSource, Project.CoverageFile
- `OpensslProject.Project.MkdirCmd`: Project.RunTest
- `OpensslProject.Project.RunCmd`: Project.RunTest
- `OpensslProject.Project.ConfigureCmds`: Project.Configure, Project.ConfigureVnc
- `OpensslProject.Project.BuildCmds`: Project.Build, Project.BuildFalseOnlyForLibRaw
- `OpensslProject.Project.Suite`: Project.GetTest
- `OpensslPipeline.PrepareCmds`: ProcessCommitSpec
- `OpensslPipeline.PassedRecord`: PassedTestsSpec, ProcessCommitSpec
- `OpensslPipeline.SuiteRun`: CollectSteps
- `OpensslPipeline.TestStep`: Steps, RunOneTest
- `OpensslPipeline.Collect`: CollectRaised, CollectSteps, RunSuite
- `OpensslPipeline.CommitTests`: ProcessCommit, ProcessCommitSpec
- `OpensslPipeline.SuiteTests`: TestBuilt
- `OpensslPipeline.Covering`: KeptAfterMarking
- `OpensslPipeline.CoverageFileName`: CoverageFileNameCollides
- `OpensslPipeline.CoveragePath`: PairSavedSpec
- `OpensslPipeline.EnergyRound`: MeasureCommit, MeasurePair, KeptStopsFirstRound, PairSavedSpec
- `OpensslPipeline.LoopResult`: MeasurePair
- `OpensslPipeline.PairOutcome`: ProcessPair, PairSavedSpec, PairOutcomes
- `PyStr.Join`: SplitJoin, JoinSplit
- `PyStr.ShlexQuote`: ShlexRoundTrip
- `PyStr.Dequote`: ShlexRoundTrip

## Behaviour as written

Where the scripts' documented intent and their code differ, the model follows
the code:
- `sh` in the OpenSSL-style pipeline runs with `check=True`. A failing command
  therefore raises, and the `errorcode == 0` tests in `build` never see a
  non-zero value.
- `compute_energy` in `openssl_pipeline.py` takes one argument but `main`
  calls it with two. After a successful build, the first kept test raises a
  `TypeError` (`ArityError` in the model). So a pair is saved only when the
  vulnerable build returns False (`OpensslPipeline.PairSavedSpec`).
- The PHP project's `get_test` requires an argument that its caller does not
  pass (`ArityError`).
- The LibRaw project's `get_test` returns the result tuple of `sh` rather than
  a list of tests (`NotATestList`).
- The LibRaw project's `_configure` is inherited and returns None, so its
  `build` returns False.
- In `energy.py`, the docstring of `measure_test` promises an error string,
  but the function always returns None.
- In `common.py`, a single event value of `" "` is truthy. It therefore splits
  to `[""]`, and the event string starts with a comma.
- `main` in `openssl_pipeline.py` builds the project from the configured name in any letter case, but selects dataset rows by comparing them with that name exactly. A configuration naming "ffmpeg" therefore processes the rows labelled "ffmpeg" and not those labelled "FFmpeg".
- In `ffmpeg_pipeline.py`, the dry-run guard of `measure_test` runs with
  `ignore_errors=True`.

## Left out

- Process execution is not modelled: subprocess, git, configure/make, gcov/lcov, perf and rsync contribute only their exit statuses and output text, which are parameters.
- Exceptions from `run_cmd` other than a timeout, and the `errors='ignore'` decoding of output, are not modelled, because they come from the operating system rather than the scripts.
- The clock and `time.sleep` are not modelled: elapsed times are inputs, and cool-down sleeps are counted rather than slept.
- Floating-point rounding, NaN, infinities and exponent notation are not modelled; numbers are `real`. Only the parts of `statistics.mean`/`stdev` that the scripts' results depend on are defined.
- The exact text of `%.4f`, percentage and other number formatting is not modelled; formatted numbers are kept as values.
- CSV quoting and writer objects, JSON checkpoint files (modelled as maps), log files, matplotlib plots and ProgressBar printing are output side effects and are not modelled.
- `os.walk`, `glob` and `find_executable` results are given sequences and predicates, not filesystem queries.
- The build-system probing in `build_project` and `detect_and_build` is taken as parameters, and the side effects of `clean_repo` on the working tree are not modelled.
- The first half of `coverage_script.py` (lines 1-360) is commented out in the source and is not modelled.
- `config.py`, `logger.py`, `coverage.py`, `ds_clone.py`, `auto_vfen.py` and `sort_projects.py` are not part of this model.
- `compute_coverage` in `openssl_pipeline.py` calls an undefined `get_age_of_commit`; `main` therefore takes the coverage results as a parameter.
- The names that `energy.py` imports but that are not defined anywhere become parameters.
- The project-class constructors (clone, submodule update, FATE sample download) are not modelled beyond the fields they set.
- Vim's test run through `script`, which gives it a terminal, is modelled only as the command line it issues.
- The pair loop and output file naming of `main` in `ffmpeg_pipeline.py` are not modelled; the per-pair phases are.
- The pair loop of `coverage_intersection.py`, its `COMMIT_PAIRS` table and its summary CSV writing are not modelled; the per-pair computation is.
- `build_and_test`, `run`, `prepare_output_dir`, `write_summary_and_raw` and `main` of `coverage_script.py` are orchestration and output code and are not modelled.
- `build_project`, `get_coverage_run`, `find_executable` and the pandas loading of `find_cov_energy_perf.py` are not modelled; their results are inputs.
- The log output and `clean_repo` of `auto_tc_verifier.py` are not modelled.
- `\d`, `\w` and case folding are ASCII only; Unicode digits, word characters and case mappings are not modelled.
- The iteration order of Python sets is taken as an arbitrary duplicate-free order, so results that depend on it are stated for every such order.
- Whether `perf record` wrote its data file is an input flag (`perfDataWritten`), because it depends on the process that is not modelled.
