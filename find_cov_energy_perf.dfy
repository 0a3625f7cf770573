/**
 * The "smart" energy measurement of the coverage/energy pipeline: the dry-run
 * calibration of a batch loop count, the batch command, the parsing of
 * `perf stat -x,` output where each metric keeps its last row, the per-run
 * normalisation and the median over at most three repetitions; the
 * LCOV basename list; and the rule that saves a test pair only when both
 * sides were measured.
 *
 * Durations are integer microseconds; perf values parsed with `float()` are
 * exact reals.
 */
module FindCovEnergyPerf {
  import opened Wrappers
  import opened PyStr

  /** Below this dry-run duration (0.1 s) the test is run in a batch loop. */
  const MinDurationUs: nat := 100000
  /** The batch aims at 0.5 s of work. */
  const TargetUs: nat := 500000
  const MaxLoops: nat := 2000
  const Repetitions: nat := 3

  // ---------------------------------------------------------------------------
  // Calibration and commands
  // ---------------------------------------------------------------------------

  /**
   * `loop_count`: 1 for a dry run of at least 0.1 s; otherwise
   * floor(0.5 s / max(d, 1 us)) capped at 2000.
   */
  function LoopCount(durationUs: nat): (n: nat)
    ensures durationUs >= MinDurationUs ==> n == 1
    ensures durationUs < MinDurationUs ==> 5 <= n <= MaxLoops
    ensures durationUs < MinDurationUs && n < MaxLoops ==>
      n * (if durationUs > 0 then durationUs else 1) <= TargetUs < (n + 1) * (if durationUs > 0 then durationUs else 1)
  {
    if durationUs >= MinDurationUs then 1
    else
      var safe := if durationUs > 0 then durationUs else 1;
      var loops := TargetUs / safe;
      if loops < MaxLoops then loops else MaxLoops
  }

  /** The test command: its executable made relative with "./" unless already a path, then its arguments. */
  function BaseCommand(testCmdRaw: string, exe: string): (r: Result<string, string>)
    ensures r.Err? <==> SplitWs(testCmdRaw) == []
    ensures r.Ok? ==> StartsWith(r.value, "/") || StartsWith(r.value, ".")
  {
    var parts := SplitWs(testCmdRaw);
    if parts == [] then Err("IndexError")
    else
      var exe' := if !StartsWith(exe, "/") && !StartsWith(exe, ".") then "./" + exe else exe;
      assert exe' != [] && (exe'[0] == '/' || exe'[0] == '.');
      Ok(exe' + " " + Join(parts[1..], " "))
  }

  /** The command given to perf: wrapped in a shell loop iff there is more than one iteration. */
  function BatchCommand(loopCount: nat, base: string): (r: string)
    ensures loopCount <= 1 ==> r == base
    ensures loopCount > 1 ==> |r| > |base| && Contains(r, base)
  {
    if loopCount > 1 then
      var prefix := "sh -c 'for i in $(seq " + NatToString(loopCount) + "); do ";
      var r := prefix + base + " > /dev/null; done'";
      assert r[|prefix|..|prefix| + |base|] == base;
      ContainsAt(r, base, |prefix|);
      r
    else base
  }

  /** Whether the batch loop is used depends only on the dry run being shorter than 0.1 s. */
  lemma BatchIffFast(durationUs: nat, base: string)
    ensures BatchCommand(LoopCount(durationUs), base) != base <==> durationUs < MinDurationUs
  {
  }

  // ---------------------------------------------------------------------------
  // One perf output file
  // ---------------------------------------------------------------------------

  datatype Metric = EnergyPkg | Cycles | Instructions | TaskClock

  /**
   * The metric and value of one row, or `None` when it is skipped: fewer than
   * three fields, "<not supported>" or an empty value, a value `float()`
   * rejects, or an event none of the four names matches. Names are tried in
   * the order energy-pkg, cycles, instructions, task-clock.
   */
  function Reading(line: string): Option<(Metric, real)> {
    var p := Split(Strip(line), ',');
    if |p| < 3 || Contains(p[0], "<not supported>") || p[0] == [] then None
    else
      match ParseFloat(p[0])
      case None => None
      case Some(v) =>
        if Contains(p[2], "power/energy-pkg") then Some((EnergyPkg, v))
        else if Contains(p[2], "cycles") then Some((Cycles, v))
        else if Contains(p[2], "instructions") then Some((Instructions, v))
        else if Contains(p[2], "task-clock") then Some((TaskClock, v / 1000.0))
        else None
  }

  /** The per-run dictionary `m`; task-clock milliseconds become seconds. */
  datatype Metrics = Metrics(energy: real, cycles: int, instructions: int, time: real)

  const NoMetrics := Metrics(0.0, 0, 0, 0.0)

  /** A row's value is assigned to its metric, replacing what was there. */
  function Store(m: Metrics, reading: Option<(Metric, real)>): Metrics {
    match reading
    case None => m
    case Some((EnergyPkg, v)) => m.(energy := v)
    case Some((Cycles, v)) => m.(cycles := Trunc(v))
    case Some((Instructions, v)) => m.(instructions := Trunc(v))
    case Some((TaskClock, v)) => m.(time := v)
  }

  /** The metrics after reading the given rows, starting from `m`. */
  function Fold(m: Metrics, lines: seq<string>): Metrics
    decreases |lines|
  {
    if lines == [] then m else Store(Fold(m, lines[..|lines| - 1]), Reading(lines[|lines| - 1]))
  }

  predicate HasCycles(line: string) {
    Reading(line).Some? && Reading(line).value.0 == Cycles
  }

  /**
   * Rows overwrite, never sum: once a cycles row has been read, the cycles
   * value no longer depends on anything before it.
   */
  lemma {:induction false} LastCyclesRowWins(m1: Metrics, m2: Metrics, lines: seq<string>, i: nat)
    requires i < |lines| && HasCycles(lines[i])
    ensures Fold(m1, lines).cycles == Fold(m2, lines).cycles
    decreases |lines|
  {
    var last := lines[|lines| - 1];
    if i < |lines| - 1 && !HasCycles(last) {
      LastCyclesRowWins(m1, m2, lines[..|lines| - 1], i);
    }
  }

  /** The loop over one perf output file. */
  method ReadPerfFile(lines: seq<string>) returns (m: Metrics)
    ensures m == Fold(NoMetrics, lines)
  {
    m := NoMetrics;
    var k := 0;
    while k < |lines|
      invariant 0 <= k <= |lines|
      invariant m == Fold(NoMetrics, lines[..k])
    {
      assert lines[..k + 1][..k] == lines[..k];
      var reading := Reading(lines[k]);
      m := Store(m, reading);
      k := k + 1;
    }
    assert lines[..|lines|] == lines;
  }

  // ---------------------------------------------------------------------------
  // Normalisation and IPC
  // ---------------------------------------------------------------------------

  /** One repetition's result, with the IPC computed after normalisation. */
  datatype Measurement = Measurement(energy: real, cycles: int, instructions: int, time: real, ipc: real)

  /**
   * Per-run metrics of a batch: energy and time divided by the loop count,
   * cycles and instructions divided and truncated to integers.
   */
  function Normalise(m: Metrics, loopCount: nat): (r: Metrics)
    ensures loopCount <= 1 ==> r == m
    ensures loopCount > 1 ==> r.energy * loopCount as real == m.energy && r.time * loopCount as real == m.time
    ensures loopCount > 1 && m.cycles >= 0 ==> 0 <= m.cycles - r.cycles * loopCount < loopCount
    ensures loopCount > 1 && m.instructions >= 0 ==> 0 <= m.instructions - r.instructions * loopCount < loopCount
  {
    if loopCount > 1 then
      var n := loopCount as real;
      var r := Metrics(m.energy / n, Trunc(m.cycles as real / n), Trunc(m.instructions as real / n), m.time / n);
      TruncDivision(m.cycles, loopCount);
      TruncDivision(m.instructions, loopCount);
      r
    else m
  }

  /** Truncating a non-negative quotient is integer division. */
  lemma TruncDivision(a: int, n: nat)
    requires n > 0
    ensures a >= 0 ==> Trunc(a as real / n as real) == a / n
  {
    if a >= 0 {
      var q := a / n;
      var x := a as real / n as real;
      assert x * n as real == a as real;
      assert q as real * n as real <= a as real < (q + 1) as real * n as real;
      assert q as real <= x < (q + 1) as real;
    }
  }

  /** `ipc` is instructions per cycle, 0 when there are no cycles. */
  function WithIpc(m: Metrics): (r: Measurement)
    ensures r.cycles > 0 ==> r.ipc * r.cycles as real == r.instructions as real
    ensures r.cycles <= 0 ==> r.ipc == 0.0
    ensures r.energy == m.energy && r.cycles == m.cycles && r.instructions == m.instructions && r.time == m.time
  {
    var ipc := if m.cycles > 0 then m.instructions as real / m.cycles as real else 0.0;
    Measurement(m.energy, m.cycles, m.instructions, m.time, ipc)
  }

  // ---------------------------------------------------------------------------
  // Median over the repetitions
  // ---------------------------------------------------------------------------

  function Min(a: real, b: real): real { if a <= b then a else b }
  function Max(a: real, b: real): real { if a >= b then a else b }

  /** `statistics.median` of one to three values. */
  function Median(xs: seq<real>): (r: real)
    requires 1 <= |xs| <= 3
    ensures |xs| == 1 ==> r == xs[0]
    ensures |xs| == 2 ==> r + r == xs[0] + xs[1]
    ensures |xs| == 3 ==> r in xs && AtLeastTwo(xs[0] <= r, xs[1] <= r, xs[2] <= r) && AtLeastTwo(xs[0] >= r, xs[1] >= r, xs[2] >= r)
  {
    if |xs| == 1 then xs[0]
    else if |xs| == 2 then (xs[0] + xs[1]) / 2.0
    else
      Max(Min(xs[0], xs[1]), Min(Max(xs[0], xs[1]), xs[2]))
  }

  predicate AtLeastTwo(a: bool, b: bool, c: bool) {
    (a && b) || (a && c) || (b && c)
  }

  /** The per-key median of the repetitions. */
  datatype Medians = Medians(energy: real, cycles: real, instructions: real, time: real, ipc: real)

  function MedianOfRuns(ms: seq<Measurement>): (r: Medians)
    requires 1 <= |ms| <= 3
  {
    Medians(Median(seq(|ms|, i requires 0 <= i < |ms| => ms[i].energy)),
            Median(seq(|ms|, i requires 0 <= i < |ms| => ms[i].cycles as real)),
            Median(seq(|ms|, i requires 0 <= i < |ms| => ms[i].instructions as real)),
            Median(seq(|ms|, i requires 0 <= i < |ms| => ms[i].time)),
            Median(seq(|ms|, i requires 0 <= i < |ms| => ms[i].ipc)))
  }

  /** A single repetition is its own median. */
  lemma MedianOfOne(m: Measurement)
    ensures MedianOfRuns([m]) == Medians(m.energy, m.cycles as real, m.instructions as real, m.time, m.ipc)
  {
  }

  // ---------------------------------------------------------------------------
  // `measure_energy_smart`
  // ---------------------------------------------------------------------------

  /**
   * What a repetition observes: whether `run_cmd` returned True, that is perf
   * finished without a timeout or an exception (with `ignore_errors=True` a
   * non-zero exit status still returns True, so a failed perf run whose
   * output file exists is parsed), and the output file if it exists.
   */
  datatype Repetition = Repetition(completed: bool, perfFile: Option<seq<string>>)

  /** The measurement a repetition contributes, if any. */
  function RepetitionResult(rep: Repetition, loopCount: nat): Option<Measurement> {
    if rep.completed && rep.perfFile.Some? then
      Some(WithIpc(Normalise(Fold(NoMetrics, rep.perfFile.value), loopCount)))
    else None
  }

  /** The measurements of the repetitions that produced one, in order. */
  function Collected(reps: seq<Repetition>, loopCount: nat): (r: seq<Measurement>)
    ensures |r| <= |reps|
    decreases |reps|
  {
    if reps == [] then []
    else
      var init := Collected(reps[..|reps| - 1], loopCount);
      match RepetitionResult(reps[|reps| - 1], loopCount)
      case None => init
      case Some(m) => init + [m]
  }

  /** `None` when no repetition produced output, otherwise the median of each metric. */
  function MeasureEnergy(durationUs: nat, reps: seq<Repetition>): (r: Option<Medians>)
    requires |reps| == Repetitions
  {
    var ms := Collected(reps, LoopCount(durationUs));
    if ms == [] then None else Some(MedianOfRuns(ms))
  }

  /** A result exists exactly when some repetition succeeded with an output file. */
  lemma {:induction false} CollectedEmpty(reps: seq<Repetition>, loopCount: nat)
    ensures Collected(reps, loopCount) == [] <==>
      forall i :: 0 <= i < |reps| ==> !(reps[i].completed && reps[i].perfFile.Some?)
    decreases |reps|
  {
    if reps != [] {
      CollectedEmpty(reps[..|reps| - 1], loopCount);
      var init := reps[..|reps| - 1];
      assert forall i :: 0 <= i < |init| ==> init[i] == reps[i];
    }
  }

  /** The repetition loop and median of `measure_energy_smart`. */
  method MeasureEnergySmart(durationUs: nat, reps: seq<Repetition>) returns (r: Option<Medians>)
    requires |reps| == Repetitions
    ensures r == MeasureEnergy(durationUs, reps)
    ensures r.None? <==> forall i :: 0 <= i < Repetitions ==> !(reps[i].completed && reps[i].perfFile.Some?)
  {
    var loopCount := LoopCount(durationUs);
    var measurements: seq<Measurement> := [];
    var k := 0;
    while k < Repetitions
      invariant 0 <= k <= Repetitions
      invariant measurements == Collected(reps[..k], loopCount)
    {
      assert reps[..k + 1][..k] == reps[..k];
      var rep := reps[k];
      if rep.completed && rep.perfFile.Some? {
        var m := ReadPerfFile(rep.perfFile.value);
        m := Normalise(m, loopCount);
        measurements := measurements + [WithIpc(m)];
      }
      k := k + 1;
    }
    assert reps[..Repetitions] == reps;
    CollectedEmpty(reps, loopCount);
    if measurements == [] {
      return None;
    }
    r := Some(MedianOfRuns(measurements));
  }

  // ---------------------------------------------------------------------------
  // `parse_lcov_info`: the covered file names
  // ---------------------------------------------------------------------------

  /**
   * The basename of the path of an `SF:` line: the stripped line still starts
   * with "SF:", so the text after its first ':' starts at index 3.
   */
  function SfBasename(line: string): (r: string)
    requires StartsWith(line, "SF:")
    ensures '/' !in r
  {
    StripKeepsPrefix(line, "SF:");
    Basename(Strip(line)[3..])
  }

  /** The basenames of the `SF:` lines, in file order, with repetitions. */
  function SfBasenames(lines: seq<string>): (r: seq<string>)
    decreases |lines|
  {
    if lines == [] then []
    else
      var init := SfBasenames(lines[..|lines| - 1]);
      var last := lines[|lines| - 1];
      if StartsWith(last, "SF:") then init + [SfBasename(last)] else init
  }

  lemma SfBasenamesStep(lines: seq<string>, k: nat)
    requires k < |lines|
    ensures SfBasenames(lines[..k + 1]) ==
      SfBasenames(lines[..k]) + (if StartsWith(lines[k], "SF:") then [SfBasename(lines[k])] else [])
  {
    assert lines[..k + 1][..k] == lines[..k];
  }

  /**
   * `parse_lcov_info`: "" for a missing file, otherwise the sorted distinct
   * basenames joined by ";". The set `touched` is kept as a strictly sorted
   * sequence, which is the value `sorted(list(touched))` reads.
   */
  method ParseLcovInfo(file: Option<seq<string>>) returns (r: string)
    ensures file.None? ==> r == ""
    ensures file.Some? ==> r == Join(SortedSet(SfBasenames(file.value)), ";")
  {
    if file.None? {
      return "";
    }
    var lines := file.value;
    var touched: seq<string> := [];
    ghost var names: seq<string> := [];
    var k := 0;
    while k < |lines|
      invariant 0 <= k <= |lines|
      invariant names == SfBasenames(lines[..k]) && touched == SortedSet(names)
    {
      SfBasenamesStep(lines, k);
      if StartsWith(lines[k], "SF:") {
        var name := SfBasename(lines[k]);
        SortedSetStep(names, name);
        touched := InsertSorted(name, touched);
        names := names + [name];
      }
      k := k + 1;
    }
    assert lines[..|lines|] == lines;
    r := Join(touched, ";");
  }

  /** The listed names are exactly the basenames of the `SF:` paths, sorted and distinct. */
  lemma LcovNamesSortedDistinct(lines: seq<string>)
    ensures StrictlySorted(SortedSet(SfBasenames(lines)))
    ensures forall e :: e in SortedSet(SfBasenames(lines)) <==>
      exists i :: 0 <= i < |lines| && StartsWith(lines[i], "SF:") && SfBasename(lines[i]) == e
  {
    SfBasenamesMembers(lines);
  }

  lemma {:induction false} SfBasenamesMembers(lines: seq<string>)
    ensures forall e :: e in SfBasenames(lines) <==>
      exists i :: 0 <= i < |lines| && StartsWith(lines[i], "SF:") && SfBasename(lines[i]) == e
    decreases |lines|
  {
    if lines != [] {
      var init := lines[..|lines| - 1];
      SfBasenamesMembers(init);
      assert forall i :: 0 <= i < |init| ==> init[i] == lines[i];
    }
  }

  // ---------------------------------------------------------------------------
  // The save phase of `main`
  // ---------------------------------------------------------------------------

  /** What one vulnerable test accumulated over both phases. */
  datatype ExecutionData = ExecutionData(
    vSf: Option<string>, vEng: Option<Medians>, fSf: Option<string>, fEng: Option<Medians>)

  datatype Record = Record(
    project: string, vulnCommit: string, vulnTest: string, vulnSf: string, vulnEnergy: Medians,
    fixCommit: string, fixTest: string, fixSf: string, fixEnergy: Medians)

  /** A pair is saved only when both sides were measured; a missing coverage list is "". */
  function SaveRecord(project: string, vHash: string, fHash: string, vulnTest: string, fixTest: string,
                      data: Option<ExecutionData>): (r: Option<Record>)
    ensures r.Some? <==> data.Some? && data.value.vEng.Some? && data.value.fEng.Some?
    ensures r.Some? ==> r.value.vulnEnergy == data.value.vEng.value && r.value.fixEnergy == data.value.fEng.value
    ensures r.Some? ==> r.value.vulnSf == data.value.vSf.GetOr("") && r.value.fixSf == data.value.fSf.GetOr("")
    ensures r.Some? ==> r.value.vulnTest == vulnTest && r.value.fixTest == fixTest
  {
    match data
    case None => None
    case Some(d) =>
      if d.vEng.Some? && d.fEng.Some? then
        Some(Record(project, vHash, vulnTest, d.vSf.GetOr(""), d.vEng.value,
                    fHash, fixTest, d.fSf.GetOr(""), d.fEng.value))
      else None
  }
}
