/**
 * The OpenSSL-style research pipeline built on the project classes: for one
 * commit it checks out, builds with coverage, runs each test of the suite
 * and keeps the passing tests with the source files they covered; it marks
 * the tests that cover a changed C/C++ file; and for each (vulnerable, fixed)
 * pair of the dataset it builds both commits for energy measurement and
 * saves the coverage results.
 *
 * Commands are not run: a status oracle `status: Cmd -> int` gives the exit
 * status every command would have in the checked-out tree, `Layout` says
 * which build files exist, `TestSources` what the listing command printed,
 * and `artefacts` the `.gcda` paths each test's coverage folder holds.
 */
module OpensslPipeline {
  import opened Wrappers
  import opened PyStr
  import opened OpensslCommon
  import opened OpensslProject

  /** One test of a commit: its name, whether it passed, the sources it covered, and `keep` once marked. */
  datatype TestRecord = TestRecord(name: string, passed: bool, coveredFiles: seq<string>, keep: Option<bool>)

  // ---------------------------------------------------------------------------
  // process_commit
  // ---------------------------------------------------------------------------

  /** `GitHandler.clean_repo` and `GitHandler.checkout(commit)`: three `sh` calls in the checkout. */
  function PrepareCmds(p: Project, commit: string): seq<Cmd> {
    var here := Some(p.inputDir);
    [Cmd(["git", "reset", "--hard"], here, None),
     Cmd(["git", "clean", "-fdx"], here, None),
     Cmd(["git", "checkout", "-f", commit], here, None)]
  }

  /** The two sweeps of old coverage data from the output directory before each test. */
  function ScrubCmds(p: Project): seq<Cmd> {
    var out := Some(p.outputDir);
    [Cmd(["find", ".", "-name", "*.gcda", "-delete"], out, None),
     Cmd(["find", ".", "-name", "*.gcno", "-delete"], out, None)]
  }

  /** The record of a test that passed: the sources named by its coverage artefacts, not yet marked. */
  function PassedRecord(p: Project, t: string, artefacts: string -> seq<string>): TestRecord {
    TestRecord(t, true, p.CoverageFile(artefacts(t)), None)
  }

  /** The tests of `suite` whose command exits with 0, in suite order. */
  function PassedTests(p: Project, suite: seq<string>, env: map<string, string>, status: Cmd -> int,
                       artefacts: string -> seq<string>): (r: seq<TestRecord>)
    ensures |r| <= |suite|
    decreases |suite|
  {
    if suite == [] then []
    else
      var t := suite[|suite| - 1];
      PassedTests(p, suite[..|suite| - 1], env, status, artefacts)
        + (if status(p.RunCmd(env, t)) == 0 then [PassedRecord(p, t, artefacts)] else [])
  }

  /** Running a suite in two parts gives the records of the first part, then those of the second. */
  lemma {:induction false} PassedTestsConcat(p: Project, a: seq<string>, b: seq<string>, env: map<string, string>,
                                             status: Cmd -> int, artefacts: string -> seq<string>)
    ensures PassedTests(p, a + b, env, status, artefacts)
      == PassedTests(p, a, env, status, artefacts) + PassedTests(p, b, env, status, artefacts)
    decreases |b|
  {
    if b == [] {
      assert a + b == a;
    } else {
      var b' := b[..|b| - 1];
      var t := b[|b| - 1];
      assert (a + b)[..|a + b| - 1] == a + b';
      assert (a + b)[|a + b| - 1] == t;
      PassedTestsConcat(p, a, b', env, status, artefacts);
      var x := if status(p.RunCmd(env, t)) == 0 then [PassedRecord(p, t, artefacts)] else [];
      assert PassedTests(p, a + b, env, status, artefacts) == PassedTests(p, a + b', env, status, artefacts) + x;
      assert PassedTests(p, b, env, status, artefacts) == PassedTests(p, b', env, status, artefacts) + x;
      AppendAssoc(PassedTests(p, a, env, status, artefacts), PassedTests(p, b', env, status, artefacts), x);
    }
  }

  /**
   * Every record is a passing test of the suite, marked passed, unmarked,
   * with the sources its artefacts name; every passing test of the suite
   * has a record.
   */
  lemma {:induction false} PassedTestsSpec(p: Project, suite: seq<string>, env: map<string, string>,
                                           status: Cmd -> int, artefacts: string -> seq<string>)
    ensures forall rec :: rec in PassedTests(p, suite, env, status, artefacts) ==>
      rec.name in suite && status(p.RunCmd(env, rec.name)) == 0
      && rec.passed && rec.keep.None? && rec.coveredFiles == p.CoverageFile(artefacts(rec.name))
    ensures forall t :: t in suite && status(p.RunCmd(env, t)) == 0 ==>
      PassedRecord(p, t, artefacts) in PassedTests(p, suite, env, status, artefacts)
    decreases |suite|
  {
    if suite != [] {
      var init := suite[..|suite| - 1];
      PassedTestsSpec(p, init, env, status, artefacts);
      assert suite == init + [suite[|suite| - 1]];
      assert forall t :: t in suite <==> t in init || t == suite[|suite| - 1];
    }
  }

  /**
   * Running a non-empty suite: the sweeps and `run_test`'s `mkdir` are the
   * same for every test, so a failure there raises at the first test;
   * otherwise the passing tests.
   */
  function SuiteRun(p: Project, suite: seq<string>, env: map<string, string>, status: Cmd -> int,
                    artefacts: string -> seq<string>): Result<seq<TestRecord>, Failure>
  {
    var scrubbed := Outcome(ScrubCmds(p), status, true);
    if scrubbed.Err? then Err(Raised(scrubbed.error))
    else if status(p.MkdirCmd()) != 0 then Err(Raised(status(p.MkdirCmd())))
    else Ok(PassedTests(p, suite, env, status, artefacts))
  }

  /**
   * One test of the loop: the sweeps, then `run_test`; a passing test gives
   * its record, a failing one nothing.
   */
  function TestStep(p: Project, t: string, env: map<string, string>, status: Cmd -> int,
                    artefacts: string -> seq<string>): Result<seq<TestRecord>, Failure>
  {
    var scrubbed := Outcome(ScrubCmds(p), status, true);
    if scrubbed.Err? then Err(Raised(scrubbed.error))
    else if status(p.MkdirCmd()) != 0 then Err(Raised(status(p.MkdirCmd())))
    else Ok(if status(p.RunCmd(env, t)) == 0 then [PassedRecord(p, t, artefacts)] else [])
  }

  method RunOneTest(p: Project, t: string, env: map<string, string>, status: Cmd -> int,
                    artefacts: string -> seq<string>)
    returns (r: Result<seq<TestRecord>, Failure>)
    ensures r == TestStep(p, t, env, status, artefacts)
  {
    var _, scrubbed := RunAll(ScrubCmds(p), status);
    if scrubbed.Err? {
      return Err(Raised(scrubbed.error));
    }
    var run := p.RunTest(env, t, status);
    if run.Err? {
      return Err(run.error);
    }
    if !run.value.passed {
      return Ok([]);
    }
    r := Ok([PassedRecord(p, t, artefacts)]);
  }

  /** What the steps of a loop give: the first raise, or everything they append, in order. */
  function Collect(steps: seq<Result<seq<TestRecord>, Failure>>): Result<seq<TestRecord>, Failure>
    decreases |steps|
  {
    if steps == [] then Ok([])
    else
      var init := Collect(steps[..|steps| - 1]);
      var last := steps[|steps| - 1];
      if init.Err? then init
      else if last.Err? then Err(last.error)
      else Ok(init.value + last.value)
  }

  /** Once a raise has happened, later steps change nothing. */
  lemma {:induction false} CollectRaised(a: seq<Result<seq<TestRecord>, Failure>>, b: seq<Result<seq<TestRecord>, Failure>>)
    requires Collect(a).Err?
    ensures Collect(a + b) == Collect(a)
    decreases |b|
  {
    if b != [] {
      assert (a + b)[..|a + b| - 1] == a + b[..|b| - 1];
      CollectRaised(a, b[..|b| - 1]);
    } else {
      assert a + b == a;
    }
  }

  /** The step of each test of the suite. */
  function Steps(p: Project, suite: seq<string>, env: map<string, string>, status: Cmd -> int,
                 artefacts: string -> seq<string>): (r: seq<Result<seq<TestRecord>, Failure>>)
    ensures |r| == |suite|
    ensures forall i :: 0 <= i < |suite| ==> r[i] == TestStep(p, suite[i], env, status, artefacts)
  {
    seq(|suite|, i requires 0 <= i < |suite| => TestStep(p, suite[i], env, status, artefacts))
  }

  /**
   * The loop gives `SuiteRun`: the steps differ only in the test run, so a
   * raise in the sweeps or the `mkdir` happens at the first test, and
   * otherwise the records are those of the passing tests.
   */
  lemma {:induction false} CollectSteps(p: Project, suite: seq<string>, env: map<string, string>, status: Cmd -> int,
                                        artefacts: string -> seq<string>)
    requires suite != []
    ensures Collect(Steps(p, suite, env, status, artefacts)) == SuiteRun(p, suite, env, status, artefacts)
    decreases |suite|
  {
    var steps := Steps(p, suite, env, status, artefacts);
    var init := suite[..|suite| - 1];
    assert steps[..|suite| - 1] == Steps(p, init, env, status, artefacts);
    if init != [] {
      CollectSteps(p, init, env, status, artefacts);
    }
  }

  /**
   * The test loop of `process_commit`: for each test of the suite, sweep old
   * coverage data, run the test, and append a passing test with its covered
   * sources; the first raise ends the loop.
   */
  method RunSuite(p: Project, suite: seq<string>, env: map<string, string>, status: Cmd -> int,
                  artefacts: string -> seq<string>)
    returns (r: Result<seq<TestRecord>, Failure>)
    ensures r == Collect(Steps(p, suite, env, status, artefacts))
  {
    ghost var steps := Steps(p, suite, env, status, artefacts);
    var commitTests: seq<TestRecord> := [];
    for i := 0 to |suite|
      invariant Collect(steps[..i]) == Ok(commitTests)
    {
      var step := RunOneTest(p, suite[i], env, status, artefacts);
      assert steps[..i + 1][..i] == steps[..i];
      assert step == steps[i];
      if step.Err? {
        CollectRaised(steps[..i + 1], steps[i + 1..]);
        assert steps[..i + 1] + steps[i + 1..] == steps;
        return Err(step.error);
      }
      commitTests := commitTests + step.value;
    }
    assert steps[..|suite|] == steps;
    r := Ok(commitTests);
  }

  /**
   * What `process_commit` returns or raises. `clean_repo` and `checkout`
   * raise on failure; a build that gives False or an empty suite give [];
   * otherwise the suite runs.
   */
  function CommitTests(p: Project, commit: string, coverage: bool, cpuCount: Option<nat>, layout: Layout,
                       env: map<string, string>, status: Cmd -> int, sources: TestSources,
                       artefacts: string -> seq<string>): Result<seq<TestRecord>, Failure>
  {
    var prepared := Outcome(PrepareCmds(p, commit), status, true);
    var built := Outcome(p.BuildCmds(coverage, -1, cpuCount, layout, env), status, p.kind != LibRaw);
    if prepared.Err? then Err(Raised(prepared.error))
    else if built.Err? then Err(Raised(built.error))
    else if !built.value then Ok([])
    else SuiteTests(p, layout, env, status, sources, artefacts)
  }

  /** The tests of a built commit: none for an empty suite, else the records of the run. */
  function SuiteTests(p: Project, layout: Layout, env: map<string, string>, status: Cmd -> int, sources: TestSources,
                      artefacts: string -> seq<string>): Result<seq<TestRecord>, Failure>
  {
    var suite := p.Suite(layout, sources);
    if suite.Err? then Err(suite.error)
    else if suite.value == [] then Ok([])
    else SuiteRun(p, suite.value, env, status, artefacts)
  }

  /** `process_commit`: checks out and builds the commit, then runs its suite. */
  method ProcessCommit(p: Project, commit: string, coverage: bool, cpuCount: Option<nat>, layout: Layout,
                       env: map<string, string>, status: Cmd -> int, sources: TestSources,
                       artefacts: string -> seq<string>)
    returns (r: Result<seq<TestRecord>, Failure>)
    ensures r == CommitTests(p, commit, coverage, cpuCount, layout, env, status, sources, artefacts)
  {
    var _, prepared := RunAll(PrepareCmds(p, commit), status);
    if prepared.Err? {
      return Err(Raised(prepared.error));
    }
    var _, built := p.Build(coverage, -1, cpuCount, layout, env, status);
    if built.Err? {
      return Err(Raised(built.error));
    }
    if !built.value {
      return Ok([]);
    }
    r := TestBuilt(p, layout, env, status, sources, artefacts);
  }

  /** Lists the suite of a built commit and runs it. */
  method TestBuilt(p: Project, layout: Layout, env: map<string, string>, status: Cmd -> int, sources: TestSources,
                   artefacts: string -> seq<string>)
    returns (r: Result<seq<TestRecord>, Failure>)
    ensures r == SuiteTests(p, layout, env, status, sources, artefacts)
  {
    var suite := p.GetTest(layout, sources);
    if suite.Err? {
      return Err(suite.error);
    }
    if suite.value == [] {
      return Ok([]);
    }
    r := RunSuite(p, suite.value, env, status, artefacts);
    CollectSteps(p, suite.value, env, status, artefacts);
  }

  /**
   * What `process_commit` promises: a build that gives False or an empty
   * suite yields no tests; a list it returns holds exactly the passing tests
   * of the suite, in suite order, each with its coverage.
   */
  lemma ProcessCommitSpec(p: Project, commit: string, coverage: bool, cpuCount: Option<nat>, layout: Layout,
                          env: map<string, string>, status: Cmd -> int, sources: TestSources,
                          artefacts: string -> seq<string>)
    requires Outcome(PrepareCmds(p, commit), status, true).Ok?
    ensures var built := Outcome(p.BuildCmds(coverage, -1, cpuCount, layout, env), status, p.kind != LibRaw);
      built == Ok(false) || (built == Ok(true) && p.Suite(layout, sources) == Ok([])) ==>
        CommitTests(p, commit, coverage, cpuCount, layout, env, status, sources, artefacts) == Ok([])
    ensures var r := CommitTests(p, commit, coverage, cpuCount, layout, env, status, sources, artefacts);
      r.Ok? && r.value != [] ==>
        var suite := p.Suite(layout, sources).value;
        (forall rec :: rec in r.value ==>
          rec.name in suite && rec.passed && status(p.RunCmd(env, rec.name)) == 0
          && rec.coveredFiles == p.CoverageFile(artefacts(rec.name)) && rec.keep.None?)
        && (forall t :: t in suite && status(p.RunCmd(env, t)) == 0 ==> PassedRecord(p, t, artefacts) in r.value)
  {
    var r := CommitTests(p, commit, coverage, cpuCount, layout, env, status, sources, artefacts);
    if r.Ok? && r.value != [] {
      PassedTestsSpec(p, p.Suite(layout, sources).value, env, status, artefacts);
    }
  }

  // ---------------------------------------------------------------------------
  // extract_test_covering_git_changes
  // ---------------------------------------------------------------------------

  /** The changed paths that count as targets: C and C++ sources and headers. */
  predicate IsSourceTarget(f: string) {
    EndsWith(f, ".c") || EndsWith(f, ".cpp") || EndsWith(f, ".h") || EndsWith(f, ".hpp")
  }

  function SourceTargets(changed: set<string>): (r: set<string>)
    ensures forall f :: f in r <==> f in changed && IsSourceTarget(f)
  {
    set f | f in changed && IsSourceTarget(f)
  }

  /** The test covered at least one of the targets. */
  predicate CoversAny(t: TestRecord, targets: set<string>) {
    exists f :: f in t.coveredFiles && f in targets
  }

  /** Every test marked with whether it covers a target among the changed files. */
  function Marked(tests: seq<TestRecord>, changed: set<string>): (r: seq<TestRecord>)
    ensures |r| == |tests|
  {
    var targets := SourceTargets(changed);
    seq(|tests|, i requires 0 <= i < |tests| => tests[i].(keep := Some(CoversAny(tests[i], targets))))
  }

  /**
   * `extract_test_covering_git_changes`: sets `keep` on each test of the
   * list in place.
   */
  method ExtractTestsCoveringChanges(tests: array<TestRecord>, changed: set<string>)
    modifies tests
    ensures tests[..] == Marked(old(tests[..]), changed)
  {
    var targets := SourceTargets(changed);
    for i := 0 to tests.Length
      invariant tests[..i] == Marked(old(tests[..]), changed)[..i]
      invariant tests[i..] == old(tests[i..])
    {
      var covered := CoversAny(tests[i], targets);
      tests[i] := tests[i].(keep := Some(covered));
      assert tests[i + 1..] == old(tests[i + 1..]);
    }
  }

  /**
   * Marking changes nothing but `keep`, and a test is kept exactly when one
   * of the sources it covered is a changed C/C++ file.
   */
  lemma MarkedSpec(tests: seq<TestRecord>, changed: set<string>)
    ensures forall i :: 0 <= i < |tests| ==>
      var m := Marked(tests, changed)[i];
      m.name == tests[i].name && m.passed == tests[i].passed && m.coveredFiles == tests[i].coveredFiles
      && m.keep.Some?
      && (m.keep.value <==> exists f :: f in tests[i].coveredFiles && f in changed && IsSourceTarget(f))
  {
    forall i | 0 <= i < |tests|
      ensures var m := Marked(tests, changed)[i];
        m.keep.value <==> exists f :: f in tests[i].coveredFiles && f in changed && IsSourceTarget(f)
    {
      var targets := SourceTargets(changed);
      if CoversAny(tests[i], targets) {
        var f :| f in tests[i].coveredFiles && f in targets;
        assert f in changed && IsSourceTarget(f);
      }
    }
  }

  // ---------------------------------------------------------------------------
  // main
  // ---------------------------------------------------------------------------

  /** `kept_tests`: the tests whose `keep` is true, a missing `keep` counting as true, in order. */
  function KeptTests(tests: seq<TestRecord>): (r: seq<TestRecord>)
    ensures |r| <= |tests|
    decreases |tests|
  {
    if tests == [] then []
    else
      var t := tests[|tests| - 1];
      KeptTests(tests[..|tests| - 1]) + (if t.keep.GetOr(true) then [t] else [])
  }

  /** A test is kept exactly when its `keep` is true or missing. */
  lemma {:induction false} KeptTestsMembers(tests: seq<TestRecord>)
    ensures forall t :: t in KeptTests(tests) <==> t in tests && t.keep.GetOr(true)
    decreases |tests|
  {
    if tests != [] {
      var init := tests[..|tests| - 1];
      KeptTestsMembers(init);
      assert tests == init + [tests[|tests| - 1]];
    }
  }

  /** The tests that cover a target, in order. */
  function Covering(tests: seq<TestRecord>, targets: set<string>): seq<TestRecord>
    decreases |tests|
  {
    if tests == [] then []
    else
      var t := tests[|tests| - 1];
      Covering(tests[..|tests| - 1], targets) + (if CoversAny(t, targets) then [t] else [])
  }

  /** After marking, the kept tests are exactly the covering tests, in their order, marked. */
  lemma {:induction false} KeptAfterMarking(tests: seq<TestRecord>, changed: set<string>)
    ensures KeptTests(Marked(tests, changed)) == Marked(Covering(tests, SourceTargets(changed)), changed)
    decreases |tests|
  {
    if tests != [] {
      var n := |tests|;
      var targets := SourceTargets(changed);
      var init := tests[..n - 1];
      var m := Marked(tests, changed);
      assert m[..n - 1] == Marked(init, changed);
      KeptAfterMarking(init, changed);
      var cov := Covering(init, targets);
      var last := tests[n - 1];
      if CoversAny(last, targets) {
        var both := Marked(cov + [last], changed);
        assert both[..|cov|] == Marked(cov, changed);
        assert both == Marked(cov, changed) + [m[n - 1]];
      }
    }
  }

  /** Before any marking every test is kept. */
  lemma {:induction false} UnmarkedAllKept(tests: seq<TestRecord>)
    requires forall i :: 0 <= i < |tests| ==> tests[i].keep.None?
    ensures KeptTests(tests) == tests
    decreases |tests|
  {
    if tests != [] {
      var init := tests[..|tests| - 1];
      UnmarkedAllKept(init);
      assert tests == init + [tests[|tests| - 1]];
    }
  }

  /** One row of the dataset: the project it belongs to (if the column is filled) and the commit pair. */
  datatype DatasetRow = DatasetRow(project: Option<string>, vulnCommit: string, fixCommit: string)

  /** `pairs`: the (vulnerable, fixed) commits of the rows of the project, in file order. */
  function Pairs(rows: seq<DatasetRow>, name: string): (r: seq<(string, string)>)
    ensures |r| <= |rows|
    decreases |rows|
  {
    if rows == [] then []
    else
      var row := rows[|rows| - 1];
      Pairs(rows[..|rows| - 1], name) + (if row.project == Some(name) then [(row.vulnCommit, row.fixCommit)] else [])
  }

  /** A pair is processed exactly when some row of the project holds it. */
  lemma {:induction false} PairsMembers(rows: seq<DatasetRow>, name: string)
    ensures forall v, f :: (v, f) in Pairs(rows, name) <==>
      exists row :: row in rows && row.project == Some(name) && row.vulnCommit == v && row.fixCommit == f
    decreases |rows|
  {
    if rows != [] {
      var init := rows[..|rows| - 1];
      PairsMembers(init, name);
      assert rows == init + [rows[|rows| - 1]];
    }
  }

  /**
   * Rows are selected by the configured spelling: when every row carries the
   * configured name, every row becomes a pair, in order, whatever class the
   * factory picked for that name.
   */
  lemma {:induction false} AllRowsOfConfiguredName(rows: seq<DatasetRow>, name: string)
    requires forall i :: 0 <= i < |rows| ==> rows[i].project == Some(name)
    ensures |Pairs(rows, name)| == |rows|
    ensures forall i :: 0 <= i < |rows| ==> Pairs(rows, name)[i] == (rows[i].vulnCommit, rows[i].fixCommit)
    decreases |rows|
  {
    if rows != [] {
      AllRowsOfConfiguredName(rows[..|rows| - 1], name);
    }
  }

  /** `commit[:8]`. */
  function Prefix8(s: string): (r: string)
    ensures |r| == (if |s| < 8 then |s| else 8) && r <= s
  {
    if |s| <= 8 then s else s[..8]
  }

  /** The name of the saved coverage file of a pair. */
  function CoverageFileName(name: string, vuln: string, fix: string): string {
    name + "_" + Prefix8(vuln) + "_" + Prefix8(fix) + "_" + CoverageSuffix
  }

  const CoverageSuffix: string := "coverage.json"

  /** Where the coverage results of a pair are saved. */
  function CoveragePath(p: Project, vuln: string, fix: string): string {
    PathJoin(p.outputDir, CoverageFileName(p.name, vuln, fix))
  }

  /** A string without '_' that ends right before a '_' is determined, and so is the rest. */
  lemma {:induction false} UnderscoreSplit(a: string, x: string, b: string, y: string)
    requires '_' !in a && '_' !in b
    requires a + "_" + x == b + "_" + y
    ensures a == b && x == y
    decreases |a|
  {
    var s := a + "_" + x;
    assert s[|a|] == '_';
    if |b| < |a| {
      UnderscoreSplit(b, y, a, x);
    } else if |a| == |b| {
      assert a == s[..|a|] == b;
      assert x == s[|a| + 1..] == y;
    }
  }

  /**
   * Commit hashes hold no '_': two pairs share a coverage file name exactly
   * when their commits agree in their first eight characters, so a later
   * such pair overwrites the file of an earlier one.
   */
  lemma CoverageFileNameCollides(name: string, v1: string, f1: string, v2: string, f2: string)
    requires '_' !in v1 && '_' !in f1 && '_' !in v2 && '_' !in f2
    ensures CoverageFileName(name, v1, f1) == CoverageFileName(name, v2, f2)
      <==> Prefix8(v1) == Prefix8(v2) && Prefix8(f1) == Prefix8(f2)
  {
    NoUnderscorePrefix(v1);
    NoUnderscorePrefix(f1);
    NoUnderscorePrefix(v2);
    NoUnderscorePrefix(f2);
    if CoverageFileName(name, v1, f1) == CoverageFileName(name, v2, f2) {
      NameParts(name, Prefix8(v1), Prefix8(f1), Prefix8(v2), Prefix8(f2));
    }
  }

  /** The two hashes in a coverage file name, neither holding '_', can be read back from it. */
  lemma NameParts(name: string, a1: string, b1: string, a2: string, b2: string)
    requires '_' !in a1 && '_' !in b1 && '_' !in a2 && '_' !in b2
    requires name + "_" + a1 + "_" + b1 + "_" + CoverageSuffix == name + "_" + a2 + "_" + b2 + "_" + CoverageSuffix
    ensures a1 == a2 && b1 == b2
  {
    var t1 := b1 + "_" + CoverageSuffix;
    var t2 := b2 + "_" + CoverageSuffix;
    assert name + "_" + a1 + "_" + b1 + "_" + CoverageSuffix == (name + "_") + (a1 + "_" + t1);
    assert name + "_" + a2 + "_" + b2 + "_" + CoverageSuffix == (name + "_") + (a2 + "_" + t2);
    PrefixCancel(name + "_", a1 + "_" + t1, a2 + "_" + t2);
    UnderscoreSplit(a1, t1, a2, t2);
    UnderscoreSplit(b1, CoverageSuffix, b2, CoverageSuffix);
  }

  lemma NoUnderscorePrefix(s: string)
    requires '_' !in s
    ensures '_' !in Prefix8(s)
  {
    if |s| > 8 {
      assert forall c :: c in s[..8] ==> c in s;
    }
  }

  /** The checked-out tree of one commit: which build files exist and how each command ends. */
  datatype Checkout = Checkout(layout: Layout, status: Cmd -> int)

  /**
   * One round of the energy loop: raises, stops the loop (`Ok(false)`, the
   * build gave False) or goes on (`Ok(true)`). `compute_energy` takes only a
   * test name but is called with the commit as well, so the first kept test
   * raises a `TypeError`.
   */
  function EnergyRound(p: Project, commit: string, kept: seq<TestRecord>, cpuCount: Option<nat>,
                       env: map<string, string>, tree: Checkout): Result<bool, Failure>
  {
    var prepared := Outcome(PrepareCmds(p, commit), tree.status, true);
    var built := Outcome(p.BuildCmds(false, -1, cpuCount, tree.layout, env), tree.status, p.kind != LibRaw);
    if prepared.Err? then Err(Raised(prepared.error))
    else if built.Err? then Err(Raised(built.error))
    else if !built.value then Ok(false)
    else if kept != [] then Err(ArityError)
    else Ok(true)
  }

  /** One round of the energy loop for `commit`. */
  method MeasureCommit(p: Project, commit: string, kept: seq<TestRecord>, cpuCount: Option<nat>,
                       env: map<string, string>, tree: Checkout)
    returns (r: Result<bool, Failure>)
    ensures r == EnergyRound(p, commit, kept, cpuCount, env, tree)
  {
    var _, prepared := RunAll(PrepareCmds(p, commit), tree.status);
    if prepared.Err? {
      return Err(Raised(prepared.error));
    }
    var _, built := p.Build(false, -1, cpuCount, tree.layout, env, tree.status);
    if built.Err? {
      return Err(Raised(built.error));
    }
    if !built.value {
      return Ok(false);
    }
    if kept != [] {
      return Err(ArityError);
    }
    r := Ok(true);
  }

  /** The index of the first round that does not go on, or the number of rounds. */
  function FirstStop(rounds: seq<Result<bool, Failure>>): (k: nat)
    ensures k <= |rounds|
    ensures forall j :: 0 <= j < k ==> rounds[j] == Ok(true)
    ensures k < |rounds| ==> rounds[k] != Ok(true)
    decreases |rounds|
  {
    if rounds == [] || rounds[0] != Ok(true) then 0 else 1 + FirstStop(rounds[1..])
  }

  /** Where the loop stands after round `i`: past it when it goes on, stopped at it otherwise. */
  lemma FirstStopAt(rounds: seq<Result<bool, Failure>>, i: nat)
    requires i <= FirstStop(rounds) && i < |rounds|
    ensures rounds[i] == Ok(true) ==> i + 1 <= FirstStop(rounds)
    ensures rounds[i] != Ok(true) ==> i == FirstStop(rounds)
  {
  }

  /** How a loop of rounds ends: the first round that raises, if it comes before any round that stops. */
  function LoopResult(rounds: seq<Result<bool, Failure>>): Result<(), Failure> {
    var k := FirstStop(rounds);
    if k < |rounds| && rounds[k].Err? then Err(rounds[k].error) else Ok(())
  }

  /**
   * The energy loop over `(vuln, fix)`: rounds run in order until one does
   * not go on; a build that gives False breaks the loop, a raise ends it.
   * `rounds` is the number of commits checked out; with tests to measure
   * the fixed commit is never checked out.
   */
  method MeasurePair(p: Project, vuln: string, fix: string, kept: seq<TestRecord>, cpuCount: Option<nat>,
                     env: map<string, string>, trees: string -> Checkout)
    returns (rounds: nat, r: Result<(), Failure>)
    ensures var results := [EnergyRound(p, vuln, kept, cpuCount, env, trees(vuln)),
                            EnergyRound(p, fix, kept, cpuCount, env, trees(fix))];
      rounds == (if FirstStop(results) < 2 then FirstStop(results) + 1 else 2)
      && r == LoopResult(results)
    ensures kept != [] ==> rounds <= 1
  {
    ghost var results := [EnergyRound(p, vuln, kept, cpuCount, env, trees(vuln)),
                          EnergyRound(p, fix, kept, cpuCount, env, trees(fix))];
    KeptStopsFirstRound(p, vuln, kept, cpuCount, env, trees(vuln));
    assert kept != [] ==> FirstStop(results) == 0;
    var commits := [vuln, fix];
    rounds, r := 0, Ok(());
    for i := 0 to 2
      invariant i <= FirstStop(results)
      invariant rounds == i
    {
      var commit := commits[i];
      var round := MeasureCommit(p, commit, kept, cpuCount, env, trees(commit));
      assert round == results[i];
      FirstStopAt(results, i);
      rounds := rounds + 1;
      if round.Err? {
        return rounds, Err(round.error);
      }
      if !round.value {
        return;
      }
    }
  }

  /** With tests kept, the first round never goes on, so the loop stops there. */
  lemma KeptStopsFirstRound(p: Project, commit: string, kept: seq<TestRecord>, cpuCount: Option<nat>,
                            env: map<string, string>, tree: Checkout)
    ensures kept != [] ==> EnergyRound(p, commit, kept, cpuCount, env, tree) != Ok(true)
  {
  }

  /** What `main` does with one pair. */
  datatype PairResult =
    | Skipped                                        // no coverage results, or no test kept
    | Saved(path: string, tests: seq<TestRecord>)   // the coverage results written to `path`

  /**
   * One pair in `main`: skipped without coverage results or kept tests;
   * otherwise the energy loop, then the coverage results are saved unless
   * the loop raised.
   */
  function PairOutcome(p: Project, vuln: string, fix: string, coverage: Option<seq<TestRecord>>, cpuCount: Option<nat>,
                       env: map<string, string>, trees: string -> Checkout): Result<PairResult, Failure>
  {
    if coverage.None? || KeptTests(coverage.value) == [] then Ok(Skipped)
    else
      var kept := KeptTests(coverage.value);
      var energy := LoopResult([EnergyRound(p, vuln, kept, cpuCount, env, trees(vuln)),
                                EnergyRound(p, fix, kept, cpuCount, env, trees(fix))]);
      if energy.Err? then Err(energy.error)
      else Ok(Saved(CoveragePath(p, vuln, fix), coverage.value))
  }

  method ProcessPair(p: Project, vuln: string, fix: string, coverage: Option<seq<TestRecord>>, cpuCount: Option<nat>,
                     env: map<string, string>, trees: string -> Checkout)
    returns (r: Result<PairResult, Failure>)
    ensures r == PairOutcome(p, vuln, fix, coverage, cpuCount, env, trees)
  {
    if coverage.None? {
      return Ok(Skipped);
    }
    var kept := KeptTests(coverage.value);
    if kept == [] {
      return Ok(Skipped);
    }
    var _, energy := MeasurePair(p, vuln, fix, kept, cpuCount, env, trees);
    if energy.Err? {
      return Err(energy.error);
    }
    r := Ok(Saved(CoveragePath(p, vuln, fix), coverage.value));
  }

  /**
   * A pair is saved exactly when it has kept tests and its vulnerable
   * commit builds to False (a build that gives True reaches the first
   * energy call, which raises); the saved results are the coverage results
   * unchanged.
   */
  lemma PairSavedSpec(p: Project, vuln: string, fix: string, coverage: Option<seq<TestRecord>>, cpuCount: Option<nat>,
                      env: map<string, string>, trees: string -> Checkout)
    ensures var r := PairOutcome(p, vuln, fix, coverage, cpuCount, env, trees);
      (r.Ok? && r.value.Saved?) <==>
        (coverage.Some? && KeptTests(coverage.value) != []
         && EnergyRound(p, vuln, KeptTests(coverage.value), cpuCount, env, trees(vuln)) == Ok(false))
    ensures var r := PairOutcome(p, vuln, fix, coverage, cpuCount, env, trees);
      r.Ok? && r.value.Saved? ==> r.value.tests == coverage.value && r.value.path == CoveragePath(p, vuln, fix)
  {
    if coverage.Some? && KeptTests(coverage.value) != [] {
      var kept := KeptTests(coverage.value);
      var results := [EnergyRound(p, vuln, kept, cpuCount, env, trees(vuln)),
                      EnergyRound(p, fix, kept, cpuCount, env, trees(fix))];
      assert results[0] != Ok(true);
      assert FirstStop(results) == 0;
    }
  }

  /** The index of the first pair that raises, or the number of pairs. */
  function FirstCrash(outcomes: seq<Result<PairResult, Failure>>): (k: nat)
    ensures k <= |outcomes|
    ensures forall j :: 0 <= j < k ==> outcomes[j].Ok?
    ensures k < |outcomes| ==> outcomes[k].Err?
    decreases |outcomes|
  {
    if outcomes == [] || outcomes[0].Err? then 0 else 1 + FirstCrash(outcomes[1..])
  }

  /** Where the run stands after the pair at `i`: past it when it completes, stopped at it when it raises. */
  lemma FirstCrashAt(outcomes: seq<Result<PairResult, Failure>>, i: nat)
    requires i <= FirstCrash(outcomes) && i < |outcomes|
    ensures outcomes[i].Ok? ==> i + 1 <= FirstCrash(outcomes)
    ensures outcomes[i].Err? ==> i == FirstCrash(outcomes)
  {
  }

  /** The saved results among the outcomes, in order. */
  function SavedFiles(outcomes: seq<Result<PairResult, Failure>>): (r: seq<PairResult>)
    ensures |r| <= |outcomes|
    decreases |outcomes|
  {
    if outcomes == [] then []
    else
      var o := outcomes[|outcomes| - 1];
      SavedFiles(outcomes[..|outcomes| - 1]) + (if o.Ok? && o.value.Saved? then [o.value] else [])
  }

  lemma SavedStep(outcomes: seq<Result<PairResult, Failure>>, i: nat)
    requires i < |outcomes|
    ensures var o := outcomes[i];
      SavedFiles(outcomes[..i + 1]) == SavedFiles(outcomes[..i]) + (if o.Ok? && o.value.Saved? then [o.value] else [])
  {
    assert outcomes[..i + 1][..i] == outcomes[..i];
  }

  /** The saved results are exactly the saved outcomes. */
  lemma {:induction false} SavedFilesMembers(outcomes: seq<Result<PairResult, Failure>>)
    ensures forall x :: x in SavedFiles(outcomes) <==> x.Saved? && Ok(x) in outcomes
    decreases |outcomes|
  {
    if outcomes != [] {
      var init := outcomes[..|outcomes| - 1];
      SavedFilesMembers(init);
      assert outcomes == init + [outcomes[|outcomes| - 1]];
    }
  }

  /** The outcome of each pair in turn. */
  function PairOutcomes(p: Project, pairs: seq<(string, string)>, coverageOf: string -> Option<seq<TestRecord>>,
                        cpuCount: Option<nat>, env: map<string, string>, trees: string -> Checkout)
    : (r: seq<Result<PairResult, Failure>>)
    ensures |r| == |pairs|
    ensures forall i :: 0 <= i < |pairs| ==> r[i] == PairOutcome(p, pairs[i].0, pairs[i].1, coverageOf(pairs[i].1), cpuCount, env, trees)
  {
    seq(|pairs|, i requires 0 <= i < |pairs| => PairOutcome(p, pairs[i].0, pairs[i].1, coverageOf(pairs[i].1), cpuCount, env, trees))
  }

  /**
   * `main`'s loop for one project: the pairs of the dataset whose project
   * column equals the configured name (as written in the configuration, not
   * the class's own spelling), each processed in turn with the coverage
   * results of its fixed commit; the first pair that raises ends the run,
   * and the results saved are those of the pairs before it.
   */
  method RunProject(p: Project, configName: string, rows: seq<DatasetRow>, coverageOf: string -> Option<seq<TestRecord>>,
                    cpuCount: Option<nat>, env: map<string, string>, trees: string -> Checkout)
    returns (saved: seq<PairResult>, r: Result<(), Failure>)
    ensures var outcomes := PairOutcomes(p, Pairs(rows, configName), coverageOf, cpuCount, env, trees);
      saved == SavedFiles(outcomes[..FirstCrash(outcomes)])
      && (r.Ok? <==> FirstCrash(outcomes) == |outcomes|)
      && (r.Err? ==> r == Err(outcomes[FirstCrash(outcomes)].error))
  {
    var pairs := Pairs(rows, configName);
    ghost var outcomes := PairOutcomes(p, pairs, coverageOf, cpuCount, env, trees);
    saved, r := [], Ok(());
    for i := 0 to |pairs|
      invariant i <= FirstCrash(outcomes)
      invariant saved == SavedFiles(outcomes[..i])
    {
      var (vuln, fix) := pairs[i];
      var result := ProcessPair(p, vuln, fix, coverageOf(fix), cpuCount, env, trees);
      assert result == outcomes[i];
      FirstCrashAt(outcomes, i);
      if result.Err? {
        return saved, Err(result.error);
      }
      SavedStep(outcomes, i);
      if result.value.Saved? {
        saved := saved + [result.value];
      }
    }
    assert outcomes[..|pairs|] == outcomes;
  }

  /** Why `main` stopped for a project: the factory rejected its name, or a pair raised. */
  datatype MainError = UnknownProject(message: string) | PairRaised(failure: Failure)

  /**
   * One entry of the configuration's project list: the factory builds the
   * project from the configured name (in any letter case), then `RunProject`
   * processes the rows carrying exactly that name.
   */
  method RunConfiguredProject(configName: string, inputRoot: string, outputRoot: string, rows: seq<DatasetRow>,
                              coverageOf: string -> Option<seq<TestRecord>>, cpuCount: Option<nat>,
                              env: map<string, string>, trees: string -> Checkout)
    returns (project: Option<Project>, saved: seq<PairResult>, r: Result<(), MainError>)
    ensures KindOf(configName).Err? ==>
      project.None? && saved == [] && r == Err(UnknownProject(KindOf(configName).error))
    ensures KindOf(configName).Ok? ==>
      project.Some? && fresh(project.value) && project.value.kind == KindOf(configName).value
      && project.value.inputDir == PathJoin(inputRoot, ProjectName(project.value.kind))
      && project.value.outputDir == PathJoin(outputRoot, ProjectName(project.value.kind))
      && var outcomes := PairOutcomes(project.value, Pairs(rows, configName), coverageOf, cpuCount, env, trees);
         saved == SavedFiles(outcomes[..FirstCrash(outcomes)])
         && (r.Ok? <==> FirstCrash(outcomes) == |outcomes|)
         && (r.Err? ==> r == Err(PairRaised(outcomes[FirstCrash(outcomes)].error)))
  {
    var made := GetProject(configName, inputRoot, outputRoot);
    if made.Err? {
      return None, [], Err(UnknownProject(made.error));
    }
    var p := made.value;
    project := Some(p);
    var outcome;
    saved, outcome := RunProject(p, configName, rows, coverageOf, cpuCount, env, trees);
    r := if outcome.Ok? then Ok(()) else Err(PairRaised(outcome.error));
  }
}
