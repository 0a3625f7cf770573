/**
 * The two-phase FFmpeg pipeline for one (vulnerable, fixed) commit pair.
 * Phase 1 records which FATE tests cover the files the fix changed, at both
 * commits, and writes one CSV row per (test, target). Phase 2 measures the
 * energy of every test named in those rows under `perf stat`, caches the
 * measurements per commit and writes them beside the rows.
 *
 * Process results are parameters: the walk after each test, the `perf`
 * exit code and its stderr text, the dry-run duration in integer
 * microseconds, and the outcome of measuring one test (`measure`).
 */
module FfmpegPipeline {
  import opened Wrappers
  import opened PyStr
  import opened TestRelevance

  const RepoName: string := "FFmpeg"
  /** The batch under perf aims at 3 s of work. */
  const TargetUs: nat := 3000000
  /** Durations under 1 ms count as 1 ms. */
  const MinDurationUs: nat := 1000

  // ---------------------------------------------------------------------------
  // Phase 1: coverage
  // ---------------------------------------------------------------------------

  /**
   * `run_phase_1_coverage`: no changed file means no CSV and `False`;
   * otherwise the vulnerable-commit pass runs unless the checkpoint is
   * complete, resuming from the cached results, and the fixed-commit pass
   * writes the header and the rows.
   */
  method RunPhase1Coverage(
    vulnCommit: string, fixCommit: string, targets: set<string>, targetOrder: seq<string>,
    checkpoint: Checkpoint,
    vulnSuite: seq<string>, vulnRuns: seq<seq<WalkEntry>>,
    fixSuite: seq<string>, fixRuns: seq<seq<WalkEntry>>)
    returns (ok: bool, csv: seq<seq<string>>, saved: Checkpoint)
    requires |vulnRuns| == |vulnSuite| && |fixRuns| == |fixSuite|
    requires Enumerates(targetOrder, targets)
    ensures ok <==> targets != {}
    ensures !ok ==> csv == [] && saved == checkpoint
    ensures ok && IsComplete(checkpoint) ==> saved == checkpoint
    ensures ok && !IsComplete(checkpoint) ==>
      saved == Checkpoint(Some("COMPLETE"), VulnAfter(checkpoint.results, vulnSuite, vulnRuns, targets, |vulnSuite|))
    ensures ok ==> csv == [Header] + CsvRecords(RepoName, vulnCommit, fixCommit, FixPassRows(fixSuite, fixRuns, saved.results, targetOrder))
  {
    if targets == {} {
      return false, [], checkpoint;
    }
    saved := checkpoint;
    if !IsComplete(checkpoint) {
      var results := RunVulnTests(checkpoint.results, vulnSuite, vulnRuns, targets);
      saved := Checkpoint(Some("COMPLETE"), results);
    }
    var rows := RunFixTests(fixSuite, fixRuns, saved.results, targetOrder);
    ok := true;
    csv := [Header] + CsvRecords(RepoName, vulnCommit, fixCommit, rows);
  }

  /** Every row names a changed file, and a test on each side that covered it (never a blank on both sides for FATE names). */
  lemma Phase1RowsCoverTargets(
    fixSuite: seq<string>, fixRuns: seq<seq<WalkEntry>>, vuln: Results, targetOrder: seq<string>, k: nat, row: CoverageRow)
    requires |fixRuns| == |fixSuite| && k <= |fixSuite|
    requires row in FixRows(fixSuite, fixRuns, vuln, targetOrder, k)
    ensures row.source in targetOrder
    ensures exists i :: 0 <= i < k && (row.vulnTest == fixSuite[i] || row.fixTest == fixSuite[i])
  {
    var i := FixRowsSource(fixSuite, fixRuns, vuln, targetOrder, k, row);
    TestRowsMembers(fixSuite[i], vuln, CoveredFiles(fixRuns[i]), targetOrder, |targetOrder|, row);
    assert targetOrder[..|targetOrder|] == targetOrder;
  }

  // ---------------------------------------------------------------------------
  // Phase 2: one measurement
  // ---------------------------------------------------------------------------

  /** `detect_rapl`: each RAPL event with a trailing '/' when `perf list` prints it that way. */
  function DetectRapl(perfList: string): (r: (string, string))
    ensures StartsWith(r.0, "power/energy-pkg") && StartsWith(r.1, "power/energy-cores")
    ensures EndsWith(r.0, "/") <==> Contains(perfList, "power/energy-pkg/")
    ensures EndsWith(r.1, "/") <==> Contains(perfList, "power/energy-cores/")
  {
    var pkg := if Contains(perfList, "power/energy-pkg/") then "power/energy-pkg/" else "power/energy-pkg";
    var core := if Contains(perfList, "power/energy-cores/") then "power/energy-cores/" else "power/energy-cores";
    assert "/"[0] == '/';
    (pkg, core)
  }

  /** `math.ceil(3.0 / max(d, 0.001))` on microseconds: the fewest runs that reach 3 s. */
  function Iterations(durationUs: nat): (n: nat)
    ensures var d := if durationUs > MinDurationUs then durationUs else MinDurationUs;
      1 <= n && (n - 1) * d < TargetUs <= n * d
  {
    var d := if durationUs > MinDurationUs then durationUs else MinDurationUs;
    (TargetUs + d - 1) / d
  }

  lemma {:induction false} MulMonotone(a: nat, b: nat, c: nat)
    requires b <= c
    ensures a * b <= a * c
    decreases a
  {
    if a > 0 {
      MulMonotone(a - 1, b, c);
      assert a * b == (a - 1) * b + b && a * c == (a - 1) * c + c;
    }
  }

  /** The iteration count never exceeds 3000, reached for dry runs of at most 1 ms; a dry run of 3 s or more runs once. */
  lemma IterationsBounded(durationUs: nat)
    ensures Iterations(durationUs) <= TargetUs / MinDurationUs
    ensures durationUs <= MinDurationUs ==> Iterations(durationUs) == TargetUs / MinDurationUs
    ensures durationUs >= TargetUs ==> Iterations(durationUs) == 1
  {
    var d := if durationUs > MinDurationUs then durationUs else MinDurationUs;
    var n := Iterations(durationUs);
    MulMonotone(n - 1, MinDurationUs, d);
    if n >= 2 {
      MulMonotone(d, 1, n - 1);
    }
  }

  datatype Metric = EnergyPkg | EnergyCore | Cycles | Instructions

  /**
   * One line of `perf stat -x,` stderr, split on ',' without stripping: its
   * metric and value, or `None` when it has fewer than three fields, `float()`
   * rejects its value, or its event matches none of the names, which are
   * tried in the order energy-pkg, energy-cores, cycles, instructions.
   */
  function Reading(line: string): Option<(Metric, real)> {
    var parts := Split(line, ',');
    if |parts| < 3 then None
    else
      match ParseFloat(parts[0])
      case None => None
      case Some(v) =>
        var event := parts[2];
        if Contains(event, "energy-pkg") then Some((EnergyPkg, v))
        else if Contains(event, "energy-cores") then Some((EnergyCore, v))
        else if Contains(event, "cycles") then Some((Cycles, v))
        else if Contains(event, "instructions") then Some((Instructions, v))
        else None
  }

  /** The `metrics` dict; every value is a float. */
  datatype Metrics = Metrics(energyPkg: real, energyCore: real, cycles: real, instructions: real)

  const NoMetrics := Metrics(0.0, 0.0, 0.0, 0.0)

  function Value(m: Metrics, k: Metric): real {
    match k
    case EnergyPkg => m.energyPkg
    case EnergyCore => m.energyCore
    case Cycles => m.cycles
    case Instructions => m.instructions
  }

  /** A line's value replaces the value of its metric and leaves the others alone. */
  function Store(m: Metrics, reading: Option<(Metric, real)>): (r: Metrics)
    ensures reading.None? ==> r == m
    ensures reading.Some? ==> forall k :: Value(r, k) == if k == reading.value.0 then reading.value.1 else Value(m, k)
  {
    match reading
    case None => m
    case Some((EnergyPkg, v)) => m.(energyPkg := v)
    case Some((EnergyCore, v)) => m.(energyCore := v)
    case Some((Cycles, v)) => m.(cycles := v)
    case Some((Instructions, v)) => m.(instructions := v)
  }

  /** The metrics after reading the lines in order, starting from `m`. */
  function Fold(m: Metrics, lines: seq<string>): Metrics
    decreases |lines|
  {
    if lines == [] then m else Store(Fold(m, lines[..|lines| - 1]), Reading(lines[|lines| - 1]))
  }

  predicate Sets(line: string, k: Metric) {
    Reading(line).Some? && Reading(line).value.0 == k
  }

  /** A metric holds the value of the last line that set it: what came before that line is forgotten. */
  lemma {:induction false} LastLineWins(m1: Metrics, m2: Metrics, lines: seq<string>, i: nat, k: Metric)
    requires i < |lines| && Sets(lines[i], k)
    ensures Value(Fold(m1, lines), k) == Value(Fold(m2, lines), k)
    decreases |lines|
  {
    var init := lines[..|lines| - 1];
    var r := Reading(lines[|lines| - 1]);
    FoldLast(m1, lines, k);
    FoldLast(m2, lines, k);
    if !(r.Some? && r.value.0 == k) {
      assert i < |lines| - 1 && init[i] == lines[i];
      LastLineWins(m1, m2, init, i, k);
    }
  }

  /** The last line decides a metric it sets; otherwise the lines before it do. */
  lemma FoldLast(m: Metrics, lines: seq<string>, k: Metric)
    requires lines != []
    ensures var r := Reading(lines[|lines| - 1]);
      Value(Fold(m, lines), k) == if r.Some? && r.value.0 == k then r.value.1 else Value(Fold(m, lines[..|lines| - 1]), k)
  {
  }

  /** A metric no line sets keeps its starting value (0 for the parse). */
  lemma {:induction false} UnsetMetricKept(m: Metrics, lines: seq<string>, k: Metric)
    requires forall i :: 0 <= i < |lines| ==> !Sets(lines[i], k)
    ensures Value(Fold(m, lines), k) == Value(m, k)
    decreases |lines|
  {
    if lines != [] {
      var init := lines[..|lines| - 1];
      assert forall i :: 0 <= i < |init| ==> init[i] == lines[i];
      assert !Sets(lines[|lines| - 1], k);
      UnsetMetricKept(m, init, k);
    }
  }

  /** The parse loop of `measure_test`. */
  method ParsePerfStderr(lines: seq<string>) returns (metrics: Metrics)
    ensures metrics == Fold(NoMetrics, lines)
  {
    metrics := NoMetrics;
    for i := 0 to |lines|
      invariant metrics == Fold(NoMetrics, lines[..i])
    {
      assert lines[..i + 1][..i] == lines[..i];
      var reading := Reading(lines[i]);
      metrics := Store(metrics, reading);
    }
    assert lines[..|lines|] == lines;
  }

  /** Every metric divided by the iteration count. */
  function PerRun(m: Metrics, n: nat): (r: Metrics)
    requires n > 0
    ensures forall k :: Value(r, k) * n as real == Value(m, k)
  {
    Metrics(m.energyPkg / n as real, m.energyCore / n as real, m.cycles / n as real, m.instructions / n as real)
  }

  /**
   * `measure_test`: `None` when the dry run raises or perf exits non-zero;
   * otherwise each metric of the batch, divided by the iteration count.
   */
  method MeasureTest(dryRunOk: bool, durationUs: nat, perfExitCode: int, perfStderr: string) returns (r: Option<Metrics>)
    ensures r.Some? <==> dryRunOk && perfExitCode == 0
    ensures r.Some? ==> r.value == PerRun(Fold(NoMetrics, Split(perfStderr, '\n')), Iterations(durationUs))
  {
    if !dryRunOk {
      return None;
    }
    var iterations := Iterations(durationUs);
    if perfExitCode != 0 {
      return None;
    }
    var totals := ParsePerfStderr(Split(perfStderr, '\n'));
    r := Some(PerRun(totals, iterations));
  }

  // ---------------------------------------------------------------------------
  // Phase 2: tasks, cache and CSV values
  // ---------------------------------------------------------------------------

  /** A row of the phase-1 CSV as `csv.DictReader` gives it. */
  datatype InputRow = InputRow(vulnCommit: string, vulnTest: string, fixCommit: string, fixTest: string, source: string)

  /** `tasks.setdefault(commit, set()).add(test)` for a non-empty test name. */
  function AddTask(tasks: map<string, set<string>>, commit: string, test: string): map<string, set<string>> {
    if test == "" then tasks
    else tasks[commit := (if commit in tasks then tasks[commit] else {}) + {test}]
  }

  /** Adding a task adds exactly that test to that commit's set, and keeps every set non-empty. */
  lemma AddTaskMembers(tasks: map<string, set<string>>, commit: string, test: string, c: string, t: string)
    ensures (c in AddTask(tasks, commit, test) && t in AddTask(tasks, commit, test)[c])
        <==> (c in tasks && t in tasks[c]) || (test != "" && c == commit && t == test)
    ensures c in AddTask(tasks, commit, test) && (c in tasks ==> tasks[c] != {}) ==> AddTask(tasks, commit, test)[c] != {}
  {
  }

  /** The tasks gathered from the rows, in order. */
  function Tasks(rows: seq<InputRow>): map<string, set<string>>
    decreases |rows|
  {
    if rows == [] then map[]
    else
      var row := rows[|rows| - 1];
      AddTask(AddTask(Tasks(rows[..|rows| - 1]), row.vulnCommit, row.vulnTest), row.fixCommit, row.fixTest)
  }

  /** Some row names `test` on the side of `commit`. */
  predicate Names(rows: seq<InputRow>, commit: string, test: string) {
    test != "" && exists i :: 0 <= i < |rows| && NamedBy(rows[i], commit, test)
  }

  predicate NamedBy(row: InputRow, commit: string, test: string) {
    (row.vulnCommit == commit && row.vulnTest == test) || (row.fixCommit == commit && row.fixTest == test)
  }

  /** A commit's task set holds exactly the non-empty test names the rows give it, and no commit has an empty set. */
  lemma {:induction false} TasksMembers(rows: seq<InputRow>, commit: string, test: string)
    ensures commit in Tasks(rows) ==> Tasks(rows)[commit] != {}
    ensures (commit in Tasks(rows) && test in Tasks(rows)[commit]) <==> Names(rows, commit, test)
    decreases |rows|
  {
    if rows != [] {
      var init := rows[..|rows| - 1];
      var row := rows[|rows| - 1];
      var mid := AddTask(Tasks(init), row.vulnCommit, row.vulnTest);
      TasksMembers(init, commit, test);
      AddTaskMembers(Tasks(init), row.vulnCommit, row.vulnTest, commit, test);
      AddTaskMembers(mid, row.fixCommit, row.fixTest, commit, test);
      if Names(init, commit, test) {
        var i :| 0 <= i < |init| && NamedBy(init[i], commit, test);
        assert rows[i] == init[i];
      }
      if Names(rows, commit, test) {
        var i :| 0 <= i < |rows| && NamedBy(rows[i], commit, test);
        if i < |init| {
          assert init[i] == rows[i];
        }
      }
    }
  }

  /** The task-gathering loop of `run_phase_2_energy`. */
  method GatherTasks(rows: seq<InputRow>) returns (tasks: map<string, set<string>>)
    ensures tasks == Tasks(rows)
  {
    tasks := map[];
    for i := 0 to |rows|
      invariant tasks == Tasks(rows[..i])
    {
      assert rows[..i + 1][..i] == rows[..i];
      var row := rows[i];
      if row.vulnTest != "" {
        tasks := tasks[row.vulnCommit := (if row.vulnCommit in tasks then tasks[row.vulnCommit] else {}) + {row.vulnTest}];
      }
      if row.fixTest != "" {
        tasks := tasks[row.fixCommit := (if row.fixCommit in tasks then tasks[row.fixCommit] else {}) + {row.fixTest}];
      }
    }
    assert rows[..|rows|] == rows;
  }

  /** The cache holds a measurement of `t` at `c`. */
  predicate Has(cache: map<string, map<string, Metrics>>, c: string, t: string) {
    c in cache && t in cache[c]
  }

  /** `t` is a task of `c` whose measurement succeeds. */
  predicate Gains(tasks: map<string, set<string>>, measure: (string, string) -> Option<Metrics>, c: string, t: string) {
    c in tasks && t in tasks[c] && measure(c, t).Some?
  }

  /**
   * The measurements of one commit: each test of `tests` not yet cached is
   * measured once and kept when the measurement succeeded; cached tests are
   * not measured again.
   */
  method MeasureCommit(entry: map<string, Metrics>, commit: string, tests: set<string>,
                       measure: (string, string) -> Option<Metrics>)
    returns (updated: map<string, Metrics>)
    ensures forall t :: t in updated <==> t in entry || (t in tests && measure(commit, t).Some?)
    ensures forall t :: t in updated ==> updated[t] == if t in entry then entry[t] else measure(commit, t).GetOr(NoMetrics)
  {
    updated := entry;
    var todo := set t | t in tests && t !in entry;
    var done: set<string> := {};
    while todo != {}
      invariant todo == (set t | t in tests && t !in entry) - done
      invariant forall t :: t in updated <==> t in entry || (t in done && t in tests && measure(commit, t).Some?)
      invariant forall t :: t in updated ==> updated[t] == if t in entry then entry[t] else measure(commit, t).GetOr(NoMetrics)
      decreases todo
    {
      var t :| t in todo;
      var metrics := measure(commit, t);
      if metrics.Some? {
        updated := updated[t := metrics.value];
      }
      todo := todo - {t};
      done := done + {t};
    }
  }

  /** The cache after the commits in `done` were processed. */
  ghost predicate ProcessedCommits(updated: map<string, map<string, Metrics>>, cache: map<string, map<string, Metrics>>,
                             tasks: map<string, set<string>>, measure: (string, string) -> Option<Metrics>, done: set<string>)
  {
    updated.Keys == cache.Keys + done
    && (forall c, t :: c in updated ==> (t in updated[c] <==> Has(cache, c, t) || (c in done && Gains(tasks, measure, c, t))))
    && (forall c, t :: c in updated && t in updated[c] ==>
          updated[c][t] == if Has(cache, c, t) then cache[c][t] else measure(c, t).GetOr(NoMetrics))
  }

  /**
   * The measurement loop of `run_phase_2_energy`: every commit with tasks
   * gets a cache entry, and every uncached test of it whose measurement
   * succeeded is added; nothing cached is measured again or changed.
   */
  method MeasurePending(tasks: map<string, set<string>>, cache: map<string, map<string, Metrics>>,
                        measure: (string, string) -> Option<Metrics>)
    returns (updated: map<string, map<string, Metrics>>)
    ensures updated.Keys == cache.Keys + tasks.Keys
    ensures forall c, t :: c in updated ==> (t in updated[c] <==> Has(cache, c, t) || Gains(tasks, measure, c, t))
    ensures forall c, t :: c in updated && t in updated[c] ==>
      updated[c][t] == if Has(cache, c, t) then cache[c][t] else measure(c, t).GetOr(NoMetrics)
  {
    updated := cache;
    var commits := tasks.Keys;
    var done: set<string> := {};
    while commits != {}
      invariant commits == tasks.Keys - done && done <= tasks.Keys
      invariant ProcessedCommits(updated, cache, tasks, measure, done)
      decreases commits
    {
      var c :| c in commits;
      updated := ProcessCommit(updated, cache, tasks, measure, done, c);
      commits := commits - {c};
      done := done + {c};
    }
    assert done == tasks.Keys;
  }

  /** One commit of the measurement loop: `cache[commit]` is created if missing, then its pending tests are measured. */
  method ProcessCommit(updated: map<string, map<string, Metrics>>, ghost cache: map<string, map<string, Metrics>>,
                       tasks: map<string, set<string>>, measure: (string, string) -> Option<Metrics>,
                       ghost done: set<string>, c: string)
    returns (next: map<string, map<string, Metrics>>)
    requires ProcessedCommits(updated, cache, tasks, measure, done) && c in tasks && c !in done
    ensures ProcessedCommits(next, cache, tasks, measure, done + {c})
  {
    var entry := if c in updated then updated[c] else map[];
    var measured := MeasureCommit(entry, c, tasks[c], measure);
    ProcessCommitStep(updated, cache, tasks, measure, done, c, measured);
    next := updated[c := measured];
  }

  lemma ProcessCommitStep(updated: map<string, map<string, Metrics>>, cache: map<string, map<string, Metrics>>,
                          tasks: map<string, set<string>>, measure: (string, string) -> Option<Metrics>,
                          done: set<string>, c: string, measured: map<string, Metrics>)
    requires ProcessedCommits(updated, cache, tasks, measure, done) && c in tasks && c !in done
    requires var entry := if c in updated then updated[c] else map[];
      (forall t :: t in measured <==> t in entry || (t in tasks[c] && measure(c, t).Some?))
      && (forall t :: t in measured ==> measured[t] == if t in entry then entry[t] else measure(c, t).GetOr(NoMetrics))
    ensures ProcessedCommits(updated[c := measured], cache, tasks, measure, done + {c})
  {
    var entry := if c in updated then updated[c] else map[];
    assert forall t :: t in entry <==> Has(cache, c, t);
    assert forall t :: t in entry ==> entry[t] == cache[c][t];
  }

  /** The energy columns of one side of a row. */
  datatype SideCells = SideCells(energyPkg: real, energyCore: real, cycles: real, ipc: real)

  const ZeroCells := SideCells(0.0, 0.0, 0.0, 0.0)

  /**
   * `write_energy_csv` for one side: zeros unless the test name is non-empty
   * and measured at that commit; then the measurement, with IPC "0" unless
   * there were cycles.
   */
  function SideValues(commit: string, test: string, cache: map<string, map<string, Metrics>>): (r: SideCells)
    ensures !(test != "" && commit in cache && test in cache[commit]) ==> r == ZeroCells
    ensures test != "" && commit in cache && test in cache[commit] ==>
      var m := cache[commit][test];
      r.energyPkg == m.energyPkg && r.energyCore == m.energyCore && r.cycles == m.cycles
      && (m.cycles > 0.0 ==> r.ipc * m.cycles == m.instructions)
      && (m.cycles <= 0.0 ==> r.ipc == 0.0)
  {
    if test != "" && commit in cache && test in cache[commit] then
      var m := cache[commit][test];
      SideCells(m.energyPkg, m.energyCore, m.cycles, if m.cycles > 0.0 then m.instructions / m.cycles else 0.0)
    else ZeroCells
  }

  /** The output rows: each input row with both sides' values, in input order. */
  function EnergyRows(rows: seq<InputRow>, cache: map<string, map<string, Metrics>>): (r: seq<(InputRow, SideCells, SideCells)>)
    ensures |r| == |rows|
    ensures forall i :: 0 <= i < |rows| ==> r[i].0 == rows[i]
  {
    seq(|rows|, i requires 0 <= i < |rows| =>
      (rows[i], SideValues(rows[i].vulnCommit, rows[i].vulnTest, cache), SideValues(rows[i].fixCommit, rows[i].fixTest, cache)))
  }

  /**
   * `run_phase_2_energy`: `False` without root or without the phase-1 CSV;
   * otherwise the tests named in the rows are measured where not cached and
   * the CSV is written from the final cache.
   */
  method RunPhase2Energy(isRoot: bool, inputExists: bool, rows: seq<InputRow>,
                         cache: map<string, map<string, Metrics>>, measure: (string, string) -> Option<Metrics>)
    returns (ok: bool, saved: map<string, map<string, Metrics>>, output: seq<(InputRow, SideCells, SideCells)>)
    ensures ok <==> isRoot && inputExists
    ensures !ok ==> saved == cache && output == []
    ensures ok ==> saved.Keys == cache.Keys + Tasks(rows).Keys
    ensures ok ==> forall c, t :: c in saved ==>
      (t in saved[c] <==> Has(cache, c, t) || (Names(rows, c, t) && measure(c, t).Some?))
    ensures ok ==> output == EnergyRows(rows, saved)
  {
    if !isRoot || !inputExists {
      return false, cache, [];
    }
    var tasks := GatherTasks(rows);
    saved := MeasurePending(tasks, cache, measure);
    forall c, t | c in saved
      ensures t in saved[c] <==> Has(cache, c, t) || (Names(rows, c, t) && measure(c, t).Some?)
    {
      TasksMembers(rows, c, t);
    }
    ok := true;
    output := EnergyRows(rows, saved);
  }
}
