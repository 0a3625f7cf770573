/**
 * The energy phase of the OpenSSL-style pipeline: the same perf event
 * selector and deadline wrapper as the shared helpers, but the test command
 * is a ready shell string, the script is indented by twelve spaces, the
 * output goes to `<output>/<repo>/perf`, and the first failing iteration
 * ends the measurement.
 *
 * The module-level constants the script imports (output root, repository
 * name, iteration count, default timeout) are parameters.
 */
module OpensslEnergy {
  import opened Wrappers
  import opened PyStr
  import opened OpensslCommon

  /** `_wrap_until_timeout(test_cmd, timeout_ms)`: the command string in a deadline script indented by 12. */
  function WrapCommand(cmd: string, timeoutMs: int): string {
    BashCommand(DeadlineScript(cmd, TimeoutSeconds(timeoutMs), 12))
  }

  /**
   * The wrapped command is `bash -lc` and one quoted word that reads back as
   * the deadline script, whose deadline is the timeout rounded up to whole
   * seconds, and at least one.
   */
  lemma WrapCommandSpec(cmd: string, timeoutMs: int)
    ensures var w := WrapCommand(cmd, timeoutMs);
      |w| > 9 && w[..9] == "bash -lc "
      && Dequote(w[9..]) == DeadlineScript(cmd, TimeoutSeconds(timeoutMs), 12)
    ensures TimeoutSeconds(timeoutMs) >= 1
    ensures timeoutMs > 0 ==> (TimeoutSeconds(timeoutMs) - 1) * 1000 < timeoutMs <= TimeoutSeconds(timeoutMs) * 1000
  {
    BashCommandRoundTrip(DeadlineScript(cmd, TimeoutSeconds(timeoutMs), 12));
  }

  /** The index of the first failing status, or the number of statuses when none fails. */
  function FirstFailure(exits: seq<int>): (k: nat)
    ensures k <= |exits|
    ensures forall j :: 0 <= j < k ==> exits[j] == 0
    ensures k < |exits| ==> exits[k] != 0
    decreases |exits|
  {
    if exits == [] || exits[0] != 0 then 0 else 1 + FirstFailure(exits[1..])
  }

  /** The runs of a shorter measurement are the first runs of a longer one. */
  lemma {:induction false} RunsPrefix(perfEvents: string, dir: string, commit: string, name: string, wrapped: string, k: nat, n: nat)
    requires k <= n
    ensures Runs(perfEvents, dir, commit, name, wrapped, k) == Runs(perfEvents, dir, commit, name, wrapped, n)[..k]
    decreases n
  {
    if k < n {
      RunsPrefix(perfEvents, dir, commit, name, wrapped, k, n - 1);
      var longer := Runs(perfEvents, dir, commit, name, wrapped, n);
      assert longer[..n - 1] == Runs(perfEvents, dir, commit, name, wrapped, n - 1);
      assert longer[..n - 1][..k] == longer[..k];
    } else {
      assert Runs(perfEvents, dir, commit, name, wrapped, n)[..n] == Runs(perfEvents, dir, commit, name, wrapped, n);
    }
  }

  /** The number of runs that happen: up to and including the first failure. */
  function Performed(exits: seq<int>): (n: nat)
    ensures n <= |exits|
  {
    var k := FirstFailure(exits);
    if k < |exits| then k + 1 else |exits|
  }

  /**
   * The iteration loop of `measure_test` once its events, directory and
   * wrapped command are fixed: runs happen in order until one fails; that
   * run's output file is removed and nothing further runs; each successful
   * run is followed by a cool-down.
   */
  method RunUntilFailure(perfEvents: string, dir: string, commit: string, name: string, wrapped: string,
                         iterations: int, exits: seq<int>, written: seq<bool>, files: set<string>)
    returns (runs: seq<PerfRun>, shown: seq<string>, after: set<string>, coolDowns: nat)
    requires |exits| == |written| == (if iterations > 0 then iterations else 0)
    ensures runs == Runs(perfEvents, dir, commit, name, wrapped, Performed(exits))
    ensures iterations != 0 ==> shown == BarLines(iterations, Performed(exits))
    ensures after == AfterRuns(files, OutPaths(dir, commit, name, |exits|), exits, written, Performed(exits))
    ensures coolDowns == FirstFailure(exits)
  {
    var pb := new ProgressBar(iterations, DefaultLength, 1);
    var n := |exits|;
    ghost var outs := OutPaths(dir, commit, name, n);
    runs, shown, after, coolDowns := [], [], files, 0;
    for iteration := 0 to n
      invariant iteration <= FirstFailure(exits)
      invariant runs == Runs(perfEvents, dir, commit, name, wrapped, iteration)
      invariant iterations != 0 ==> shown == BarLines(iterations, iteration)
      invariant after == AfterRuns(files, outs, exits, written, iteration)
      invariant coolDowns == iteration
    {
      var line := pb.Set(iteration);
      shown := shown + [line];
      var out := OutPath(dir, commit, name, iteration);
      runs := runs + [PerfRun(perfEvents, out, wrapped)];
      after := RecordRun(after, out, exits[iteration], written[iteration]);
      if exits[iteration] != 0 {
        assert FirstFailure(exits) == iteration;
        return;
      }
      coolDowns := coolDowns + 1;
    }
    assert FirstFailure(exits) == n;
  }

  /** Where the energy phase writes: `<output>/<repo>/perf`. */
  function PerfDir(outputRoot: string, repoName: string): string {
    PathJoin(PathJoin(outputRoot, repoName), "perf")
  }

  /**
   * `measure_test`: the events are normalised as in the shared helper, the
   * test's own "timeout_ms" overrides the default, and the test's command
   * string is wrapped. The result is `None` whatever happens.
   */
  method MeasureTest(pkgEvent: EventArg, test: TestEntry, commit: string, outputRoot: string, repoName: string,
                     iterations: int, defaultTimeoutMs: int, exits: seq<int>, written: seq<bool>, files: set<string>)
    returns (runs: seq<PerfRun>, shown: seq<string>, after: set<string>, coolDowns: nat, result: Option<string>)
    requires |exits| == |written| == (if iterations > 0 then iterations else 0)
    ensures runs == Runs(PerfEvents(NormalizeEvents(pkgEvent)), PerfDir(outputRoot, repoName), commit, NameText(test),
                         WrapCommand(test.cmd, test.timeoutMs.GetOr(defaultTimeoutMs)), Performed(exits))
    ensures iterations != 0 ==> shown == BarLines(iterations, Performed(exits))
    ensures after == AfterRuns(files, OutPaths(PerfDir(outputRoot, repoName), commit, NameText(test), |exits|), exits, written, Performed(exits))
    ensures coolDowns == FirstFailure(exits)
    ensures result.None?
  {
    var events := NormalizeEvents(pkgEvent);
    var perfEvents := PerfEvents(events);
    var dir := PerfDir(outputRoot, repoName);
    var name := NameText(test);
    var wrapped := WrapCommand(test.cmd, test.timeoutMs.GetOr(defaultTimeoutMs));
    runs, shown, after, coolDowns := RunUntilFailure(perfEvents, dir, commit, name, wrapped, iterations, exits, written, files);
    result := None;
  }

  /**
   * Against the shared loop, which runs every iteration: the energy phase
   * performs a prefix of the same runs, all of them exactly when no run fails;
   * the output file of every run it performed is kept or removed as there.
   */
  lemma StopsAtFirstFailure(perfEvents: string, dir: string, commit: string, name: string, wrapped: string,
                            exits: seq<int>, written: seq<bool>, files: set<string>)
    requires |written| == |exits|
    ensures Runs(perfEvents, dir, commit, name, wrapped, Performed(exits))
      == Runs(perfEvents, dir, commit, name, wrapped, |exits|)[..Performed(exits)]
    ensures Performed(exits) == |exits| <==> forall j :: 0 <= j < |exits| - 1 ==> exits[j] == 0
    ensures forall i :: 0 <= i < Performed(exits) ==>
      (OutPath(dir, commit, name, i) in AfterRuns(files, OutPaths(dir, commit, name, |exits|), exits, written, Performed(exits))
       <==> exits[i] == 0 && (written[i] || OutPath(dir, commit, name, i) in files))
  {
    RunsPrefix(perfEvents, dir, commit, name, wrapped, Performed(exits), |exits|);
    OutPathsDistinct(dir, commit, name, |exits|);
    AfterRunsSpec(files, OutPaths(dir, commit, name, |exits|), exits, written, Performed(exits));
    var k := FirstFailure(exits);
    if Performed(exits) == |exits| && k < |exits| {
      assert k == |exits| - 1;
    }
  }
}
