/**
 * The curl coverage-intersection script: build one fix commit of curl
 * with gcov instrumentation, run every numbered test case alone, and
 * record which of the fix's C files each passing test touched.
 *
 * Processes are an oracle from the command line to its exit status and
 * output. The `.gcda` files present after a test are an oracle from the
 * test id: the script deletes every `.gcda` file before each test, so what
 * is found afterwards belongs to that test alone. The tests/data directory
 * listing is an input.
 */
module CurlCovTests {
  import opened Wrappers
  import opened PyStr
  import TestRelevance

  /** A finished shell command. */
  datatype Proc = Proc(rc: int, stdout: string, stderr: string)

  const Project := "curl"
  const FixCommit := "70b1900dd13d16f2e83f571407a614541d5ac9ba"

  /** The first line `main` writes to the freshly cleared log. */
  const LogHeader := "--- Log for " + Project + " @ " + FixCommit + " ---"

  /** What `run_cmd` logs when a command fails. */
  function ErrorMessage(description: string, command: string, stderr: string): string {
    "ERROR in " + description + ":\nCmd: " + command + "\nStderr: " + stderr
  }

  /** A command with the description `run_cmd` logs for it. */
  datatype Step = Step(command: string, description: string)

  const GitSteps := [Step("git reset --hard", "Git Reset"), Step("git clean -fdx", "Git Clean"),
                     Step("git checkout " + FixCommit, "Git Checkout")]

  const ConfigureFlags := "--disable-ldap --without-ssl --disable-shared --enable-debug "
    + "CFLAGS=\"-fprofile-arcs -ftest-coverage\" LDFLAGS=\"-fprofile-arcs -ftest-coverage\""

  const BuildSteps := [Step("./buildconf", "Buildconf"), Step("./configure " + ConfigureFlags, "Configure"),
                       Step("make -j4", "Make Main"), Step("make", "Make Tests")]

  const ShowCmd := "git show --name-only " + FixCommit

  /**
   * Straight-line `run_cmd` calls without `can_fail`: the first failing
   * command's log message (after which the script exits with status 1),
   * or `None` when every command succeeds.
   */
  function RunSteps(steps: seq<Step>, exec: string -> Proc): (r: Option<string>)
    ensures r.None? <==> forall i :: 0 <= i < |steps| ==> exec(steps[i].command).rc == 0
    ensures steps != [] && exec(steps[0].command).rc != 0 ==>
      r == Some(ErrorMessage(steps[0].description, steps[0].command, exec(steps[0].command).stderr))
    decreases |steps|
  {
    if steps == [] then None
    else
      var p := exec(steps[0].command);
      if p.rc != 0 then Some(ErrorMessage(steps[0].description, steps[0].command, p.stderr))
      else
        var r := RunSteps(steps[1..], exec);
        assert forall i :: 1 <= i < |steps| ==> steps[i] == steps[1..][i - 1];
        r
  }

  // ---------------------------------------------------------------------------
  // The fix's files and the touched files
  // ---------------------------------------------------------------------------

  /** `get_fix_files`: the basenames of the listed paths that end with ".c", in listing order. */
  function FixFiles(lines: seq<string>): (r: seq<string>)
    ensures |r| <= |lines|
    ensures forall i :: 0 <= i < |r| ==> EndsWith(r[i], ".c") && '/' !in r[i]
    decreases |lines|
  {
    if lines == [] then []
    else
      var init := FixFiles(lines[..|lines| - 1]);
      var f := lines[|lines| - 1];
      if EndsWith(f, ".c") then
        BasenameKeepsSuffix(f);
        init + [Basename(f)]
      else init
  }

  /** The basename of a path ending with ".c" still ends with ".c". */
  lemma BasenameKeepsSuffix(f: string)
    requires EndsWith(f, ".c")
    ensures EndsWith(Basename(f), ".c")
  {
    assert f[|f| - 2] == ".c"[0] && f[|f| - 1] == ".c"[1];
  }

  /** Every listed C file contributes its basename. */
  lemma {:induction false} FixFilesMembers(lines: seq<string>, f: string)
    ensures f in FixFiles(lines) <==> exists i :: 0 <= i < |lines| && EndsWith(lines[i], ".c") && Basename(lines[i]) == f
    decreases |lines|
  {
    if lines != [] {
      var init := lines[..|lines| - 1];
      FixFilesMembers(init, f);
      assert lines == init + [lines[|lines| - 1]];
    }
  }

  /** `get_touched_source_files`: every `.gcda` basename with ".gcda" replaced by ".c". */
  function Touched(gcdaPaths: seq<string>): set<string> {
    set g | g in gcdaPaths :: Replace(Basename(g), ".gcda", ".c")
  }

  /** `dir/stem.gcda` stands for `stem.c`. */
  lemma TouchedOfStem(gcdaPaths: seq<string>, dir: string, stem: string)
    requires dir + "/" + stem + ".gcda" in gcdaPaths
    requires '/' !in stem && !Contains(stem, ".gcda")
    ensures stem + ".c" in Touched(gcdaPaths)
  {
    assert dir + "/" + stem + ".gcda" == dir + "/" + (stem + ".gcda");
    BasenameOfJoin(dir, stem + ".gcda");
    TestRelevance.ReplaceGcdaSuffix(stem);
  }

  /** `[f for f in fixed_files if f in touched_files]`. */
  function Intersection(fixed: seq<string>, touched: set<string>): (r: seq<string>)
    ensures |r| <= |fixed|
    decreases |fixed|
  {
    if fixed == [] then []
    else
      var init := Intersection(fixed[..|fixed| - 1], touched);
      if fixed[|fixed| - 1] in touched then init + [fixed[|fixed| - 1]] else init
  }

  /**
   * The intersection keeps the fix's duplicates: every touched file occurs
   * as often as in the fix's list, any other not at all.
   */
  lemma {:induction false} IntersectionSpec(fixed: seq<string>, touched: set<string>)
    ensures forall f :: multiset(Intersection(fixed, touched))[f] == if f in touched then multiset(fixed)[f] else 0
    decreases |fixed|
  {
    if fixed != [] {
      var init := fixed[..|fixed| - 1];
      var last := fixed[|fixed| - 1];
      IntersectionSpec(init, touched);
      assert fixed == init + [last];
      assert multiset(fixed) == multiset(init) + multiset{last};
    }
  }

  /** The intersection is the whole list exactly when the test touched every file of the fix. */
  lemma {:induction false} IntersectionWhole(fixed: seq<string>, touched: set<string>)
    ensures Intersection(fixed, touched) == fixed <==> forall i :: 0 <= i < |fixed| ==> fixed[i] in touched
    decreases |fixed|
  {
    if fixed != [] {
      var init := fixed[..|fixed| - 1];
      var last := fixed[|fixed| - 1];
      IntersectionWhole(init, touched);
      assert forall i :: 0 <= i < |init| ==> fixed[i] == init[i];
      var r := Intersection(init, touched);
      if last in touched {
        assert Intersection(fixed, touched) == r + [last];
        assert fixed == init + [last];
        if r + [last] == init + [last] {
          assert r == (r + [last])[..|r|];
        }
      } else {
        assert Intersection(fixed, touched) == r && |r| <= |init|;
        assert !(fixed[|fixed| - 1] in touched);
      }
    }
  }

  // ---------------------------------------------------------------------------
  // The test ids
  // ---------------------------------------------------------------------------

  /** The names `glob("tests/data/test*")` matches. */
  function Globbed(names: seq<string>): (r: seq<string>)
    ensures forall i :: 0 <= i < |r| ==> StartsWith(r[i], "test")
    decreases |names|
  {
    if names == [] then []
    else
      var init := Globbed(names[..|names| - 1]);
      if StartsWith(names[|names| - 1], "test") then init + [names[|names| - 1]] else init
  }

  lemma {:induction false} GlobbedMembers(names: seq<string>, n: string)
    ensures n in Globbed(names) <==> n in names && StartsWith(n, "test")
    decreases |names|
  {
    if names != [] {
      var init := names[..|names| - 1];
      GlobbedMembers(init, n);
      assert names == init + [names[|names| - 1]];
    }
  }

  /** The id of a test file: its name with every "test" removed, kept when all digits. */
  function TestIdOf(name: string): (r: Option<string>)
    ensures r.Some? ==> IsDigitString(r.value)
  {
    var id := Replace(name, "test", "");
    if IsDigitString(id) then Some(id) else None
  }

  /** `test<digits>` has id `<digits>`. */
  lemma TestIdOfName(d: string)
    requires IsDigitString(d)
    ensures TestIdOf("test" + d) == Some(d)
  {
    var s := "test" + d;
    assert s[..4] == "test" && s[4..] == d;
    assert Replace(s, "test", "") == Replace(d, "test", "");
    NoCharNoContains(d, "test", 0);
    ReplaceAbsent(d, "test", "");
  }

  /** The ids of the matched file names, in the order of the names. */
  function IdsOf(files: seq<string>): (r: seq<string>)
    ensures forall i :: 0 <= i < |r| ==> IsDigitString(r[i])
    decreases |files|
  {
    if files == [] then []
    else
      var init := IdsOf(files[..|files| - 1]);
      match TestIdOf(files[|files| - 1])
      case Some(id) => init + [id]
      case None => init
  }

  /** `test_ids` of `main`: the ids of the sorted matched names. */
  function DataTestIds(names: seq<string>): seq<string> {
    IdsOf(SortedSet(Globbed(names)))
  }

  /** Prefixing the same text keeps the order of two texts. */
  lemma {:induction false} StrLessCommonPrefix(p: string, a: string, b: string)
    ensures StrLess(p + a, p + b) <==> StrLess(a, b)
    decreases |p|
  {
    if p == [] {
      assert p + a == a && p + b == b;
    } else {
      assert (p + a)[0] == (p + b)[0];
      assert (p + a)[1..] == p[1..] + a && (p + b)[1..] == p[1..] + b;
      StrLessCommonPrefix(p[1..], a, b);
    }
  }

  /** Names of the form `test<digits>` give their digits, in the same order. */
  lemma {:induction false} IdsOfPlainNames(files: seq<string>)
    requires forall i :: 0 <= i < |files| ==> |files[i]| >= 4 && StartsWith(files[i], "test") && IsDigitString(files[i][4..])
    ensures IdsOf(files) == seq(|files|, i requires 0 <= i < |files| => files[i][4..])
    decreases |files|
  {
    if files != [] {
      var n := |files| - 1;
      IdsOfPlainNames(files[..n]);
      assert files[n] == "test" + files[n][4..];
      TestIdOfName(files[n][4..]);
    }
  }

  /**
   * When every matched name is `test` followed by digits, the ids are the
   * digits of exactly those names, without repetition and in increasing
   * string order (so "10" comes before "2").
   */
  lemma DataTestIdsSpec(names: seq<string>)
    requires forall n :: n in names && StartsWith(n, "test") ==> IsDigitString(n[4..])
    ensures StrictlySorted(DataTestIds(names))
    ensures forall d :: d in DataTestIds(names) <==> IsDigitString(d) && "test" + d in names
  {
    var files := SortedSet(Globbed(names));
    forall i | 0 <= i < |files| ensures |files[i]| >= 4 && StartsWith(files[i], "test") && IsDigitString(files[i][4..]) {
      GlobbedMembers(names, files[i]);
    }
    IdsOfPlainNames(files);
    var ids := DataTestIds(names);
    forall i, j | 0 <= i < j < |ids| ensures StrLess(ids[i], ids[j]) {
      assert files[i] == "test" + ids[i] && files[j] == "test" + ids[j];
      StrLessCommonPrefix("test", ids[i], ids[j]);
    }
    forall d ensures d in ids <==> IsDigitString(d) && "test" + d in names {
      if d in ids {
        var i :| 0 <= i < |ids| && ids[i] == d;
        assert files[i] == "test" + d;
        GlobbedMembers(names, files[i]);
      }
      if IsDigitString(d) && "test" + d in names {
        assert StartsWith("test" + d, "test");
        GlobbedMembers(names, "test" + d);
        var i :| 0 <= i < |files| && files[i] == "test" + d;
        assert ("test" + d)[4..] == d;
        assert ids[i] == d;
      }
    }
  }

  // ---------------------------------------------------------------------------
  // The test loop
  // ---------------------------------------------------------------------------

  /** One CSV row: project, fix commit, test id, touched fix file. */
  datatype Row = Row(project: string, fixCommit: string, testfile: string, sourcefile: string)

  const Header := ["project", "fix_commit", "testfile", "sourcefile"]

  function RunTestCmd(tid: string): string {
    "./runtests.pl " + tid
  }

  /** The rows one test adds: none when it fails, one per fix file it touched otherwise. */
  function TestRows(tid: string, fixed: seq<string>, exec: string -> Proc, gcdaAfter: string -> seq<string>): (r: seq<Row>)
    ensures exec(RunTestCmd(tid)).rc != 0 ==> r == []
    ensures exec(RunTestCmd(tid)).rc == 0 ==> |r| == |Intersection(fixed, Touched(gcdaAfter(tid)))|
    ensures forall i :: 0 <= i < |r| ==>
      r[i] == Row(Project, FixCommit, tid, Intersection(fixed, Touched(gcdaAfter(tid)))[i])
  {
    if exec(RunTestCmd(tid)).rc != 0 then []
    else
      var hit := Intersection(fixed, Touched(gcdaAfter(tid)));
      seq(|hit|, i requires 0 <= i < |hit| => Row(Project, FixCommit, tid, hit[i]))
  }

  /** The log lines one test adds: the command's error and the skip note when it fails. */
  function TestLog(tid: string, exec: string -> Proc): seq<string> {
    var p := exec(RunTestCmd(tid));
    if p.rc != 0 then
      [ErrorMessage("Test " + tid, RunTestCmd(tid), p.stderr), "Test " + tid + " failed or was skipped by curl runner."]
    else []
  }

  /** The rows of a sequence of tests, test by test. */
  function AllRows(ids: seq<string>, fixed: seq<string>, exec: string -> Proc, gcdaAfter: string -> seq<string>): seq<Row>
    decreases |ids|
  {
    if ids == [] then []
    else AllRows(ids[..|ids| - 1], fixed, exec, gcdaAfter) + TestRows(ids[|ids| - 1], fixed, exec, gcdaAfter)
  }

  /** The log lines of a sequence of tests, test by test. */
  function AllLog(ids: seq<string>, exec: string -> Proc): seq<string>
    decreases |ids|
  {
    if ids == [] then [] else AllLog(ids[..|ids| - 1], exec) + TestLog(ids[|ids| - 1], exec)
  }

  /**
   * A row exists exactly for a test that passed and a fix file it touched:
   * failed tests contribute nothing.
   */
  lemma {:induction false} AllRowsMembers(ids: seq<string>, fixed: seq<string>, exec: string -> Proc,
                                          gcdaAfter: string -> seq<string>, row: Row)
    ensures row in AllRows(ids, fixed, exec, gcdaAfter) <==>
      row.project == Project && row.fixCommit == FixCommit && row.testfile in ids
      && exec(RunTestCmd(row.testfile)).rc == 0
      && row.sourcefile in fixed && row.sourcefile in Touched(gcdaAfter(row.testfile))
    decreases |ids|
  {
    if ids != [] {
      var init := ids[..|ids| - 1];
      var tid := ids[|ids| - 1];
      AllRowsMembers(init, fixed, exec, gcdaAfter, row);
      assert ids == init + [tid];
      TestRowsMembers(tid, fixed, exec, gcdaAfter, row);
      assert row in AllRows(ids, fixed, exec, gcdaAfter) <==>
        row in AllRows(init, fixed, exec, gcdaAfter) || row in TestRows(tid, fixed, exec, gcdaAfter);
    }
  }

  /** The rows of one test: one per fixed file it touched, when it passed. */
  lemma TestRowsMembers(tid: string, fixed: seq<string>, exec: string -> Proc, gcdaAfter: string -> seq<string>, row: Row)
    ensures row in TestRows(tid, fixed, exec, gcdaAfter) <==>
      row.project == Project && row.fixCommit == FixCommit && row.testfile == tid
      && exec(RunTestCmd(tid)).rc == 0
      && row.sourcefile in fixed && row.sourcefile in Touched(gcdaAfter(tid))
  {
    var hit := Intersection(fixed, Touched(gcdaAfter(tid)));
    IntersectionSpec(fixed, Touched(gcdaAfter(tid)));
    var rows := TestRows(tid, fixed, exec, gcdaAfter);
    if row in rows {
      var i :| 0 <= i < |rows| && rows[i] == row;
      assert hit[i] in multiset(hit);
    }
    if row.testfile == tid && exec(RunTestCmd(tid)).rc == 0 && row.sourcefile in fixed
       && row.sourcefile in Touched(gcdaAfter(tid)) && row.project == Project && row.fixCommit == FixCommit {
      assert row.sourcefile in multiset(hit);
      var i :| 0 <= i < |hit| && hit[i] == row.sourcefile;
      assert rows[i] == row;
    }
  }

  /** One pass of the loop of `main`: run the test, then pair it with each fixed file it touched. */
  method RunTest(tid: string, fixed: seq<string>, exec: string -> Proc, gcdaAfter: string -> seq<string>)
    returns (rows: seq<Row>, log: seq<string>)
    ensures rows == TestRows(tid, fixed, exec, gcdaAfter)
    ensures log == TestLog(tid, exec)
  {
    rows, log := [], [];
    var p := exec(RunTestCmd(tid));
    if p.rc != 0 {
      log := log + [ErrorMessage("Test " + tid, RunTestCmd(tid), p.stderr)];
      log := log + ["Test " + tid + " failed or was skipped by curl runner."];
      return;
    }
    var touched := Touched(gcdaAfter(tid));
    var intersection := Intersection(fixed, touched);
    for j := 0 to |intersection|
      invariant rows == TestRows(tid, fixed, exec, gcdaAfter)[..j]
    {
      assert TestRows(tid, fixed, exec, gcdaAfter)[..j + 1] == TestRows(tid, fixed, exec, gcdaAfter)[..j] + [Row(Project, FixCommit, tid, intersection[j])];
      rows := rows + [Row(Project, FixCommit, tid, intersection[j])];
    }
    assert TestRows(tid, fixed, exec, gcdaAfter)[..|intersection|] == TestRows(tid, fixed, exec, gcdaAfter);
  }

  /** The loop of `main` over the test ids. */
  method RunTestLoop(ids: seq<string>, fixed: seq<string>, exec: string -> Proc, gcdaAfter: string -> seq<string>)
    returns (rows: seq<Row>, log: seq<string>)
    ensures rows == AllRows(ids, fixed, exec, gcdaAfter)
    ensures log == AllLog(ids, exec)
  {
    rows, log := [], [];
    for k := 0 to |ids|
      invariant rows == AllRows(ids[..k], fixed, exec, gcdaAfter)
      invariant log == AllLog(ids[..k], exec)
    {
      assert ids[..k + 1][..k] == ids[..k];
      var more, note := RunTest(ids[k], fixed, exec, gcdaAfter);
      rows, log := rows + more, log + note;
    }
    assert ids[..|ids|] == ids;
  }

  // ---------------------------------------------------------------------------
  // main
  // ---------------------------------------------------------------------------

  /** How a run ends: `exit(1)` after a failed command, an uncaught exception, or normally. */
  datatype Outcome =
    | Exited(log: seq<string>)
    | Raised(log: seq<string>)
    | Finished(log: seq<string>, header: bool, rows: seq<Row>)

  /**
   * `main`: clear the log, check out the fix, read its C files, build,
   * run the tests. The header row is written only when the CSV is new.
   */
  method CoverageRun(exec: string -> Proc, gcdaAfter: string -> seq<string>, dataNames: seq<string>, csvExists: bool)
    returns (out: Outcome)
    ensures out.Finished? <==>
      RunSteps(GitSteps, exec).None? && exec(ShowCmd).rc == 0 && RunSteps(BuildSteps, exec).None?
    ensures out.Raised? <==> RunSteps(GitSteps, exec).None? && exec(ShowCmd).rc != 0
    ensures out.Exited? ==> out.log == [LogHeader] + [(if RunSteps(GitSteps, exec).Some? then RunSteps(GitSteps, exec) else RunSteps(BuildSteps, exec)).value]
    ensures out.Finished? ==>
      var fixed := FixFiles(SplitLines(exec(ShowCmd).stdout));
      var ids := DataTestIds(dataNames);
      out.header == !csvExists && out.rows == AllRows(ids, fixed, exec, gcdaAfter)
      && out.log == [LogHeader] + AllLog(ids, exec)
  {
    var log := [LogHeader];
    var setup := RunSteps(GitSteps, exec);
    if setup.Some? {
      return Exited(log + [setup.value]);
    }
    var show := exec(ShowCmd);
    if show.rc != 0 {
      return Raised(log);
    }
    var fixed := FixFiles(SplitLines(show.stdout));
    var build := RunSteps(BuildSteps, exec);
    if build.Some? {
      return Exited(log + [build.value]);
    }
    var ids := DataTestIds(dataNames);
    var rows, testLog := RunTestLoop(ids, fixed, exec, gcdaAfter);
    out := Finished(log + testLog, !csvExists, rows);
  }

  /** The records a finished run appends to the CSV. */
  function CsvRecords(header: bool, rows: seq<Row>): (r: seq<seq<string>>)
    ensures |r| == |rows| + (if header then 1 else 0)
    ensures header ==> r[0] == Header
    ensures forall i :: 0 <= i < |rows| ==>
      r[i + (if header then 1 else 0)] == [rows[i].project, rows[i].fixCommit, rows[i].testfile, rows[i].sourcefile]
  {
    (if header then [Header] else [])
      + seq(|rows|, i requires 0 <= i < |rows| => [rows[i].project, rows[i].fixCommit, rows[i].testfile, rows[i].sourcefile])
  }
}
