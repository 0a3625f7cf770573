/**
 * The project classes of the OpenSSL-style pipeline. A factory picks one of
 * six projects by name; each project configures and builds its checkout,
 * lists its tests, runs one test with gcov told to write under a per-test
 * folder, and reads back the source files that test executed.
 *
 * The file system and processes are parameters: a `Layout` says which of
 * the probed files exist, `status` gives the exit status each command would
 * end with, and glob results and command output are passed in.
 */
module OpensslProject {
  import opened Wrappers
  import opened PyStr
  import opened OpensslCommon

  datatype ProjectKind = OpenSSL | FFmpeg | Vim | PhpSrc | LibRaw | LibVNCServer

  /** The name each project passes to `_init`; it names its input and output directories. */
  function ProjectName(kind: ProjectKind): string {
    match kind
    case OpenSSL => "openssl"
    case FFmpeg => "FFmpeg"
    case Vim => "vim"
    case PhpSrc => "php-src"
    case LibRaw => "libraw"
    case LibVNCServer => "libvncserver"
  }

  /** The names the factory accepts, lower-cased. */
  const KnownNames: seq<string> := ["openssl", "ffmpeg", "vim", "php-src", "libraw", "libvncserver"]

  /**
   * `ProjectFactory.get_project`'s choice: the lower-cased name selects the
   * project whose own name it is, ignoring case; any other name is a
   * `ValueError`.
   */
  function KindOf(name: string): (r: Result<ProjectKind, string>)
    ensures r.Ok? <==> Lower(name) in KnownNames
    ensures r.Ok? ==> Lower(ProjectName(r.value)) == Lower(name)
    ensures r.Err? ==> r.error == "Unknown project: " + name
  {
    var n := Lower(name);
    assert Lower("FFmpeg") == "ffmpeg";
    if n == "openssl" then Ok(OpenSSL)
    else if n == "ffmpeg" then Ok(FFmpeg)
    else if n == "vim" then Ok(Vim)
    else if n == "php-src" then Ok(PhpSrc)
    else if n == "libraw" then Ok(LibRaw)
    else if n == "libvncserver" then Ok(LibVNCServer)
    else Err("Unknown project: " + name)
  }

  /** Every project is found under its own name. */
  lemma KindOfName(kind: ProjectKind)
    ensures KindOf(ProjectName(kind)) == Ok(kind)
  {
    assert Lower("FFmpeg") == "ffmpeg";
    assert Lower("openssl") == "openssl";
    assert Lower("vim") == "vim";
    assert Lower("php-src") == "php-src";
    assert Lower("libraw") == "libraw";
    assert Lower("libvncserver") == "libvncserver";
  }

  // ---------------------------------------------------------------------------
  // Commands
  // ---------------------------------------------------------------------------

  /** A command as `sh` runs it: argv, working directory (`None`: the caller's) and environment (`None`: inherited). */
  datatype Cmd = Cmd(argv: seq<string>, cwd: Option<string>, env: Option<map<string, string>>)

  /** Why a project operation ends with an exception instead of a value. */
  datatype Failure =
    | Raised(status: int)   // `sh` raised `CalledProcessError` with this status
    | ArityError            // called with fewer arguments than it takes
    | NotATestList          // returned something other than a list of names

  /** The files the project code probes for. */
  datatype Layout = Layout(makefile: bool, cmakeLists: bool, configureScript: bool, cmakeBuild: bool)

  /** Index of the first command whose status is not 0, or the number of commands. */
  function FirstFailing(cmds: seq<Cmd>, status: Cmd -> int): (k: nat)
    ensures k <= |cmds|
    ensures forall j :: 0 <= j < k ==> status(cmds[j]) == 0
    ensures k < |cmds| ==> status(cmds[k]) != 0
    decreases |cmds|
  {
    if cmds == [] || status(cmds[0]) != 0 then 0 else 1 + FirstFailing(cmds[1..], status)
  }

  /** The commands `sh` runs one after another: up to and including the first that fails. */
  function Ran(cmds: seq<Cmd>, status: Cmd -> int): seq<Cmd> {
    var k := FirstFailing(cmds, status);
    if k < |cmds| then cmds[..k + 1] else cmds
  }

  /** Their outcome: the first failing status raises, otherwise the caller's value. */
  function Outcome(cmds: seq<Cmd>, status: Cmd -> int, value: bool): Result<bool, int> {
    var k := FirstFailing(cmds, status);
    if k < |cmds| then Err(status(cmds[k])) else Ok(value)
  }

  /** Running two lists in turn: the second starts only when the first ran through. */
  lemma {:induction false} FirstFailingConcat(a: seq<Cmd>, b: seq<Cmd>, status: Cmd -> int)
    ensures FirstFailing(a + b, status)
      == if FirstFailing(a, status) < |a| then FirstFailing(a, status) else |a| + FirstFailing(b, status)
    decreases |a|
  {
    if a == [] {
      assert a + b == b;
    } else {
      assert (a + b)[0] == a[0] && (a + b)[1..] == a[1..] + b;
      FirstFailingConcat(a[1..], b, status);
    }
  }

  lemma PrefixOfConcat<T>(a: seq<T>, b: seq<T>, n: nat)
    requires n <= |b|
    ensures (a + b)[..|a| + n] == a + b[..n]
  {
  }

  /** When the first list fails, the second never runs. */
  lemma RanConcatStops(a: seq<Cmd>, b: seq<Cmd>, status: Cmd -> int, value: bool)
    requires FirstFailing(a, status) < |a|
    ensures Ran(a + b, status) == Ran(a, status)
    ensures Outcome(a + b, status, value) == Outcome(a, status, value)
  {
    FirstFailingConcat(a, b, status);
    var k := FirstFailing(a, status);
    StopsAt(a, b, k);
  }

  lemma StopsAt(a: seq<Cmd>, b: seq<Cmd>, k: nat)
    requires k < |a|
    ensures (a + b)[..k + 1] == a[..k + 1] && (a + b)[k] == a[k]
  {
  }

  /** When the first list runs through, the second runs after it. */
  lemma RanConcatContinues(a: seq<Cmd>, b: seq<Cmd>, status: Cmd -> int, value: bool)
    requires FirstFailing(a, status) == |a|
    ensures Ran(a + b, status) == a + Ran(b, status)
    ensures Outcome(a + b, status, value) == Outcome(b, status, value)
  {
    FirstFailingConcat(a, b, status);
    var m := FirstFailing(b, status);
    if m < |b| {
      ContinuesToFailure(a, b, status, value, m);
    } else {
      ContinuesThrough(a, b, status, value);
    }
  }

  lemma ContinuesToFailure(a: seq<Cmd>, b: seq<Cmd>, status: Cmd -> int, value: bool, m: nat)
    requires m < |b| && FirstFailing(b, status) == m && FirstFailing(a + b, status) == |a| + m
    ensures Ran(a + b, status) == a + Ran(b, status)
    ensures Outcome(a + b, status, value) == Outcome(b, status, value)
  {
    PrefixOfConcat(a, b, m + 1);
    assert (a + b)[|a| + m] == b[m];
  }

  lemma ContinuesThrough(a: seq<Cmd>, b: seq<Cmd>, status: Cmd -> int, value: bool)
    requires FirstFailing(b, status) == |b| && FirstFailing(a + b, status) == |a + b|
    ensures Ran(a + b, status) == a + Ran(b, status)
    ensures Outcome(a + b, status, value) == Outcome(b, status, value)
  {
  }

  // ---------------------------------------------------------------------------
  // Test listings
  // ---------------------------------------------------------------------------

  /** Lines of `make list-tests` that are not test names. */
  const OpensslExcluded: seq<string> := ["make", "Files=", "Tests=", "Result:"]
  /** Lines of `make -s fate-list` that are not test names. */
  const FfmpegExcluded: seq<string> := ["make", "Files=", "Tests=", "Result:", "GEN"]

  /** A line names a test: it is not blank and does not start (after indentation) with an excluded word. */
  predicate Listed(line: string, excluded: seq<string>) {
    Strip(line) != [] && forall e :: e in excluded ==> !StartsWith(LStrip(line), e)
  }

  /** `line.strip().split()[0]`. */
  function FirstToken(line: string): (w: string)
    requires Strip(line) != []
    ensures IsWord(w)
  {
    var s := Strip(line);
    assert SplitWs(s) == [s[..NonSpaceRun(s)]] + SplitWs(s[NonSpaceRun(s)..]);
    SplitWs(s)[0]
  }

  lemma {:induction false} NonSpaceRunPrefix(x: string, m: nat)
    requires NonSpaceRun(x) <= m <= |x|
    ensures NonSpaceRun(x[..m]) == NonSpaceRun(x)
    decreases |x|
  {
    if m > 0 && !IsSpace(x[0]) {
      assert x[..m][0] == x[0] && x[..m][1..] == x[1..][..m - 1];
      NonSpaceRunPrefix(x[1..], m - 1);
    }
  }

  /** The first token is the run of non-whitespace right after the indentation. */
  lemma FirstTokenIsLeadingWord(line: string)
    requires Strip(line) != []
    ensures var x := LStrip(line); FirstToken(line) == x[..NonSpaceRun(x)]
  {
    var x := LStrip(line);
    var m := |x| - TrailingSpaces(x);
    var k := NonSpaceRun(x);
    assert Strip(line) == x[..m];
    assert x != [] && !IsSpace(x[0]);
    assert !IsSpace(x[k - 1]);
    NonSpaceRunPrefix(x, m);
    assert x[..m][..k] == x[..k];
  }

  /** The `get_test` comprehension of OpenSSL and FFmpeg over the listing's lines. */
  function ListedTests(lines: seq<string>, excluded: seq<string>): (r: seq<string>)
    ensures |r| <= |lines|
    ensures forall i :: 0 <= i < |r| ==> IsWord(r[i])
    decreases |lines|
  {
    if lines == [] then []
    else (if Listed(lines[0], excluded) then [FirstToken(lines[0])] else []) + ListedTests(lines[1..], excluded)
  }

  /** A name is listed exactly when some listed line starts with it. */
  lemma {:induction false} ListedTestsMembers(lines: seq<string>, excluded: seq<string>, t: string)
    ensures t in ListedTests(lines, excluded)
      <==> exists i :: 0 <= i < |lines| && Listed(lines[i], excluded) && FirstToken(lines[i]) == t
    decreases |lines|
  {
    if lines != [] {
      ListedTestsMembers(lines[1..], excluded, t);
      if exists i :: 0 <= i < |lines| && Listed(lines[i], excluded) && FirstToken(lines[i]) == t {
        var i :| 0 <= i < |lines| && Listed(lines[i], excluded) && FirstToken(lines[i]) == t;
        if i > 0 {
          assert lines[1..][i - 1] == lines[i];
        }
      }
      if t in ListedTests(lines[1..], excluded) {
        var i :| 0 <= i < |lines| - 1 && Listed(lines[1..][i], excluded) && FirstToken(lines[1..][i]) == t;
        assert lines[i + 1] == lines[1..][i];
      }
    }
  }

  /** `os.path.join(... "cmake_build")` and friends. */
  const CmakeBuildDir: string := "cmake_build"

  /** What `get_test` of LibVNCServer takes from one line of `ctest -N`. */
  function CtestTestOfLine(line: string): Option<string> {
    if Contains(line, "Test #") then
      var parts := Split(line, ':');
      if |parts| >= 2 then Some(Strip(parts[1])) else None
    else None
  }

  /** The names gathered from the lines so far. */
  function CtestTests(lines: seq<string>): (r: seq<string>)
    decreases |lines|
  {
    if lines == [] then []
    else
      var last := CtestTestOfLine(lines[|lines| - 1]);
      CtestTests(lines[..|lines| - 1]) + (if last.Some? then [last.value] else [])
  }

  /** A `Test #n: name` line gives the trimmed name. */
  lemma CtestLine(a: string, b: string)
    requires ':' !in a && ':' !in b && Contains(a, "Test #")
    ensures CtestTestOfLine(a + ":" + b) == Some(Strip(b))
  {
    assert a + ":" + b == a + (":" + b);
    ContainsAppend(a, ":" + b, "Test #");
    SplitConcat(a, b, ':');
    SplitNoSep(a, ':');
    SplitNoSep(b, ':');
  }

  lemma JoinFive(a: string, b: string, c: string, d: string, e: string, sep: string)
    ensures Join([a, b, c, d, e], sep) == a + sep + b + sep + c + sep + d + sep + e
  {
    var parts := [a, b, c, d, e];
    assert parts[1..][1..][1..][1..] == [e];
    assert Join(parts[3..], sep) == d + sep + e;
    assert Join(parts[2..], sep) == c + sep + (d + sep + e);
    assert Join(parts[1..], sep) == b + sep + (c + sep + (d + sep + e));
  }

  /** Where Vim keeps its test scripts, under the checkout. */
  const VimTestDir: string := "src/testdir"

  /** A Vim test name: the glob result without its directory and without ".in", then without ".vim". */
  function VimTestName(testDir: string, path: string): string {
    Replace(Replace(Replace(path, testDir + "/", ""), ".in", ""), ".vim", "")
  }

  /** A `test_x.vim` or `test_x.in` script directly in the test directory is the test `test_x`. */
  lemma VimTestNameOf(testDir: string, n: string, ext: string)
    requires ext == ".vim" || ext == ".in"
    requires '.' !in n && '/' !in n
    ensures VimTestName(testDir, testDir + "/" + n + ext) == n
  {
    var pat := testDir + "/";
    var s := testDir + "/" + n + ext;
    var rest := n + ext;
    assert s == pat + rest;
    assert s[..|pat|] == pat && s[|pat|..] == rest;
    assert '/' !in rest;
    NoCharNoContains(rest, pat, |pat| - 1);
    ReplaceAbsent(rest, pat, "");
    assert Replace(s, pat, "") == rest;
    if ext == ".vim" {
      NoCharNoContains(ext, ".in", 2);
      ReplaceAbsent(ext, ".in", "");
      ReplaceSkipsPrefix(n, ext, ".in", "");
      ReplaceSkipsPrefix(n, ext, ".vim", "");
      ReplaceWhole(".vim", "");
      assert n + [] == n;
    } else {
      ReplaceSkipsPrefix(n, ext, ".in", "");
      ReplaceWhole(".in", "");
      assert n + [] == n;
      ReplaceSkipsPrefix(n, [], ".vim", "");
      assert n + [] == n;
    }
  }

  /** The Vim suite: each found script or input file named as `VimTestName` does, in glob order. */
  function VimTests(testDir: string, found: seq<string>): (r: seq<string>)
    ensures |r| == |found|
    ensures forall i :: 0 <= i < |found| ==> r[i] == VimTestName(testDir, found[i])
  {
    seq(|found|, i requires 0 <= i < |found| => VimTestName(testDir, found[i]))
  }

  /** The test name of a `.phpt` path: its basename without the extension. */
  function PhpTestName(path: string): string {
    var base := Basename(path);
    if EndsWith(base, ".phpt") then base[..|base| - 5] else base
  }

  // ---------------------------------------------------------------------------
  // Coverage artefacts
  // ---------------------------------------------------------------------------

  /** One `.gcda` path as `coverage_file` rewrites it. */
  function SourceOfArtifact(f: string): string {
    Replace(Replace(AfterLast(f, ".dir/"), ".c.gcda", ".c"), ".gcda", ".c")
  }

  /** Two occurrences of ".dir/" never overlap. */
  lemma DirSepApart(s: string, p: int, q: int)
    requires SepAt(s, ".dir/", p) && p < q < p + 5
    ensures !SepAt(s, ".dir/", q)
  {
    assert s[q] != '.' by { assert s[q] == s[p..p + 5][q - p]; }
  }

  /** No two occurrences of ".dir/" in `s` overlap. */
  lemma DirSepsApart(s: string)
    ensures forall a, b :: SepAt(s, ".dir/", a) && a < b < a + 5 ==> !SepAt(s, ".dir/", b)
  {
    forall a, b | SepAt(s, ".dir/", a) && a < b < a + 5 ensures !SepAt(s, ".dir/", b) {
      DirSepApart(s, a, b);
    }
  }

  /** The text after the last ".dir/" is what follows a ".dir/" when no other one comes after it. */
  lemma AfterDirOf(prefix: string, t: string)
    requires forall j :: !SepAt(t, ".dir/", j)
    ensures AfterLast(prefix + ".dir/" + t, ".dir/") == t
  {
    var sep := ".dir/";
    var s := prefix + sep + t;
    AfterLastSpec(s, sep);
    var r := AfterLast(s, sep);
    var p := |prefix|;
    var q := |s| - |r|;
    assert SepAt(s, sep, p) by { assert s[p..p + 5] == sep; }
    forall j | q <= j ensures !SepAt(s, sep, j) {
      if j + 5 <= |s| {
        assert r[j - q..j - q + 5] == s[j..j + 5];
      }
      assert !SepAt(r, sep, j - q);
    }
    forall j | p + 5 <= j ensures !SepAt(s, sep, j) {
      if j + 5 <= |s| {
        assert t[j - p - 5..j - p] == s[j..j + 5];
      }
      assert !SepAt(t, sep, j - p - 5);
    }
    assert p < q;
    assert SepAt(s, sep, q - 5);
    DirSepsApart(s);
    assert q - 5 == p;
    assert s[p + 5..] == t;
  }

  /**
   * A CMake object-directory artefact `<...>.dir/<rel>.c.gcda`, with no dot
   * in `rel`, is kept and read back as the source `<rel>.c`.
   */
  lemma ArtifactSource(prefix: string, rel: string)
    requires '.' !in rel
    ensures Contains(prefix + ".dir/" + rel + ".c.gcda", ".dir/")
    ensures SourceOfArtifact(prefix + ".dir/" + rel + ".c.gcda") == rel + ".c"
  {
    var f := prefix + ".dir/" + rel + ".c.gcda";
    var t := rel + ".c.gcda";
    assert f == prefix + ".dir/" + t;
    assert f[|prefix|..|prefix| + 5] == ".dir/";
    ContainsAt(f, ".dir/", |prefix|);
    forall j | 0 <= j
      ensures !SepAt(t, ".dir/", j)
    {
      if j + 5 <= |t| {
        assert t[j..j + 5][0] == t[j] && t[j..j + 5][1] == t[j + 1];
        if j >= |rel| {
          assert t[j] == ".c.gcda"[j - |rel|];
          assert t[j + 1] == ".c.gcda"[j + 1 - |rel|];
        }
      }
    }
    AfterDirOf(prefix, t);
    ReplaceSkipsPrefix(rel, ".c.gcda", ".c.gcda", ".c");
    ReplaceWhole(".c.gcda", ".c");
    ReplaceSkipsPrefix(rel, ".c", ".gcda", ".c");
  }

  // ---------------------------------------------------------------------------
  // Projects
  // ---------------------------------------------------------------------------

  /** The flags LibVNCServer's configure step passes: C flags and link libraries. */
  function VncFlags(coverage: bool): (string, string) {
    if coverage then ("-O0" + " --coverage", "-lgcov") else ("-O0", "")
  }

  /** The arguments of PHP's `./configure`. */
  const PhpConfigureArgs: seq<string> := ["./configure", "--prefix=/usr/local/php", "--enable-cli",
    "CFLAGS=-fprofile-arcs -ftest-coverage", "CXXFLAGS=-fprofile-arcs -ftest-coverage"]

  /** Vim's `_build` adds the profiling flags before the jobs flag. */
  const VimProfileArgs: seq<string> := ["PROFILE_CFLAGS=\"-g -O0 -fprofile-arcs -ftest-coverage -DWE_ARE_PROFILING -DUSE_GCOV_FLUSH\"",
    "LDFLAGS=\"--coverage\""]

  /** The outcome of `run_test`: whether the test passed and the error `_run` caught. */
  datatype TestRun = TestRun(passed: bool, error: Option<int>)

  /** The inputs a project's `get_test` reads. */
  datatype TestSources = TestSources(
    listing: Result<string, int>,   // output (or failing status) of the listing command
    vimScripts: seq<string>,        // the `test_*.vim` glob
    vimInputs: seq<string>)         // the `test_*.in` glob

  /** Vim's terminal size: 24 lines of 80 columns. */
  function TerminalEnv(env: map<string, string>): (r: map<string, string>)
    ensures r.Keys == env.Keys + {"LINES", "COLUMNS"}
    ensures r["LINES"] == "24" && r["COLUMNS"] == "80"
    ensures forall k :: k in env && k != "LINES" && k != "COLUMNS" ==> r[k] == env[k]
  {
    env["LINES" := "24"]["COLUMNS" := "80"]
  }

  class Project {
    const kind: ProjectKind
    const name: string
    const outputDir: string
    const inputDir: string

    /** `_init`: the project's directories are its name under the output and input roots. */
    constructor(kind: ProjectKind, outputRoot: string, inputRoot: string)
      ensures this.kind == kind && name == ProjectName(kind)
      ensures outputDir == PathJoin(outputRoot, name) && inputDir == PathJoin(inputRoot, name)
    {
      this.kind := kind;
      name := ProjectName(kind);
      outputDir := PathJoin(outputRoot, ProjectName(kind));
      inputDir := PathJoin(inputRoot, ProjectName(kind));
    }

    /** `get_test_cmd`. */
    function TestCmd(test: string): (argv: seq<string>)
      ensures |argv| >= 3
    {
      match kind
      case OpenSSL => TestArgv(test)
      case PhpSrc => TestArgv(test)
      case FFmpeg => ["make", test, "HARNESS_JOBS=1"]
      case LibRaw => ["make", test, "HARNESS_JOBS=1"]
      case Vim => ["make", test, "HARNESS_JOBS=1", "LINES=24", "COLUMNS=80"]
      case LibVNCServer => ["ctest", "-R", "^" + test + "$", "--output-on-failure"]
    }

    /** Different tests are run by different commands. */
    lemma TestCmdInjective(t1: string, t2: string)
      requires TestCmd(t1) == TestCmd(t2)
      ensures t1 == t2
    {
      match kind
      case OpenSSL => PrefixCancel("TESTS=", t1, t2);
      case PhpSrc => PrefixCancel("TESTS=", t1, t2);
      case FFmpeg => assert TestCmd(t1)[1] == t1;
      case LibRaw => assert TestCmd(t1)[1] == t1;
      case Vim => assert TestCmd(t1)[1] == t1;
      case LibVNCServer =>
        var w1, w2 := "^" + t1 + "$", "^" + t2 + "$";
        assert w1 == TestCmd(t1)[2] && w2 == TestCmd(t2)[2];
        assert t1 == w1[1..|w1| - 1] && t2 == w2[1..|w2| - 1];
    }

    /**
     * `_prepare_env_for_testing`: the caller's environment with gcov writing
     * under `<output>/coverage-per-test/<test>` after stripping three
     * components; Vim also fixes the terminal size.
     */
    function TestEnv(env: map<string, string>, test: string): (r: map<string, string>)
      ensures r.Keys == env.Keys + {"GCOV_PREFIX_STRIP", "GCOV_PREFIX"} + (if kind == Vim then {"LINES", "COLUMNS"} else {})
      ensures r["GCOV_PREFIX_STRIP"] == "3"
      ensures r["GCOV_PREFIX"] == PathJoin(PathJoin(outputDir, GcdaFolder), test)
      ensures kind == Vim ==> r["LINES"] == "24" && r["COLUMNS"] == "80"
      ensures forall k :: k in env && k != "GCOV_PREFIX_STRIP" && k != "GCOV_PREFIX" && k != "LINES" && k != "COLUMNS" ==> r[k] == env[k]
    {
      var gcov := GcovEnv(env, outputDir, test);
      if kind == Vim then TerminalEnv(gcov) else gcov
    }

    /** The `mkdir -p` of the coverage folder that `_prepare_env_for_testing` runs first. */
    function MkdirCmd(): Cmd {
      Cmd(["mkdir", "-p", PathJoin(outputDir, GcdaFolder)], None, None)
    }

    /** Vim runs its test through `script` so it gets a terminal; this is the `-c` argument. */
    function VimShellText(test: string): string {
      "\"stty rows 24 cols 80;" + Join(TestCmd(test), " ") + "\""
    }

    /** The command `run_test` runs: where, with what environment, and Vim's wrapping. */
    function RunCmd(env: map<string, string>, test: string): Cmd {
      match kind
      case Vim => Cmd(["script", "-q", "-e", "-c", VimShellText(test), "/dev/null"], Some(PathJoin(inputDir, "src")), Some(TestEnv(env, test)))
      case LibVNCServer => Cmd(TestCmd(test), Some(PathJoin(inputDir, CmakeBuildDir)), Some(TestEnv(env, test)))
      case _ => Cmd(TestCmd(test), Some(inputDir), Some(TestEnv(env, test)))
    }

    /** The command line inside Vim's wrapper, after the terminal size is set: the test's `make` line. */
    lemma VimCommandLine(test: string)
      requires kind == Vim
      ensures Join(TestCmd(test), " ") == "make" + " " + test + " " + "HARNESS_JOBS=1" + " " + "LINES=24" + " " + "COLUMNS=80"
    {
      JoinFive("make", test, "HARNESS_JOBS=1", "LINES=24", "COLUMNS=80", " ");
    }

    /**
     * `run_test`: a failing `mkdir` raises before the test runs; otherwise
     * the test passed exactly when its status was 0, and the caught error
     * carries the status of a failing test.
     */
    method RunTest(env: map<string, string>, test: string, status: Cmd -> int) returns (r: Result<TestRun, Failure>)
      ensures status(MkdirCmd()) != 0 ==> r == Err(Raised(status(MkdirCmd())))
      ensures status(MkdirCmd()) == 0 ==> r.Ok?
      ensures r.Ok? ==> (r.value.passed <==> status(RunCmd(env, test)) == 0)
      ensures r.Ok? ==> (r.value.error.None? <==> r.value.passed)
      ensures r.Ok? && r.value.error.Some? ==> r.value.error.value == status(RunCmd(env, test))
    {
      var mkdir := Sh(status(MkdirCmd()), "");
      if mkdir.Err? {
        return Err(Raised(mkdir.error));
      }
      var cmd := RunCmd(env, test);
      var ran := Sh(status(cmd), "");
      match ran {
        case Err(code) => r := Ok(TestRun(false, Some(code)));
        case Ok(out) => r := Ok(TestRun(out.returncode == 0, None));
      }
    }

    /** `coverage_file`: the artefacts under a `.dir/`, each rewritten to its source file, in glob order. */
    function CoverageFile(found: seq<string>): (r: seq<string>)
      ensures |r| <= |found|
      ensures forall x :: x in r <==> exists f :: f in found && Contains(f, ".dir/") && x == SourceOfArtifact(f)
      decreases |found|
    {
      if found == [] then []
      else
        var rest := CoverageFile(found[1..]);
        assert forall f :: f in found <==> f == found[0] || f in found[1..];
        if Contains(found[0], ".dir/") then [SourceOfArtifact(found[0])] + rest else rest
    }

    /** The commands `_configure` runs, in order (autogen only when there is no configure script). */
    function ConfigureCmds(coverage: bool, layout: Layout, env: map<string, string>): seq<Cmd> {
      var here := Some(inputDir);
      match kind
      case OpenSSL => [Cmd(["./config", "--debug", "no-shared"] + (if coverage then ["--coverage"] else []), here, None)]
      case FFmpeg => [Cmd(["./configure", "--disable-asm", "--disable-doc"]
                        + (if coverage then ["--extra-cflags=--coverage", "--extra-ldflags=--coverage"] else []), here, None)]
      case Vim => [Cmd(["./configure", "--with-features=huge", "--enable-gui=no", "--without-x"], here, None)]
      case PhpSrc => [Cmd(["./buildconf", "--force"], here, None), Cmd(PhpConfigureArgs, here, None)]
      case LibRaw => []
      case LibVNCServer =>
        var (flags, libs) := VncFlags(coverage);
        if layout.cmakeLists then
          [Cmd(["cmake", "-B", CmakeBuildDir, "-S", ".", "-DCMAKE_C_FLAGS=\"" + flags + "\"",
                "-DCMAKE_EXE_LINKER_FLAGS=\"" + libs + "\"", "-DBUILD_TESTS=ON"], here, None)]
        else
          (if layout.configureScript then [] else [Cmd(["autogen.sh"], here, None)])
          + [Cmd(["./configure", "--enable-static"], here, Some(env["CFLAGS" := flags]["LDFLAGS" := flags]["LIBS" := libs]))]
    }

    /**
     * `_configure`: builds each argv as the source does and runs it with `sh`,
     * which raises on the first failing status; otherwise the result is True,
     * except for LibRaw, which inherits the base method returning None.
     */
    method Configure(coverage: bool, layout: Layout, env: map<string, string>, status: Cmd -> int)
      returns (ran: seq<Cmd>, configured: Result<bool, int>)
      ensures ran == Ran(ConfigureCmds(coverage, layout, env), status)
      ensures configured == Outcome(ConfigureCmds(coverage, layout, env), status, kind != LibRaw)
    {
      var here := Some(inputDir);
      match kind {
        case OpenSSL =>
          var args := ["./config", "--debug", "no-shared"];
          ghost var base := args;
          if coverage {
            args := args + ["--coverage"];
          }
          assert args == base + (if coverage then ["--coverage"] else []);
          assert ConfigureCmds(coverage, layout, env) == [Cmd(args, here, None)];
          ran, configured := RunOne(Cmd(args, here, None), status);
        case FFmpeg =>
          var args := ["./configure", "--disable-asm", "--disable-doc"];
          ghost var base := args;
          if coverage {
            args := args + ["--extra-cflags=--coverage"];
            args := args + ["--extra-ldflags=--coverage"];
          }
          assert args == base + (if coverage then ["--extra-cflags=--coverage", "--extra-ldflags=--coverage"] else []);
          assert ConfigureCmds(coverage, layout, env) == [Cmd(args, here, None)];
          ran, configured := RunOne(Cmd(args, here, None), status);
        case Vim =>
          ran, configured := RunOne(Cmd(["./configure", "--with-features=huge", "--enable-gui=no", "--without-x"], here, None), status);
        case PhpSrc =>
          ran, configured := RunTwo(Cmd(["./buildconf", "--force"], here, None), Cmd(PhpConfigureArgs, here, None), status);
        case LibRaw =>
          ran, configured := [], Ok(false);
        case LibVNCServer =>
          ran, configured := ConfigureVnc(coverage, layout, env, status);
      }
    }

    /** LibVNCServer's `_configure`: CMake when there is a CMakeLists.txt, else autogen.sh when needed and configure. */
    method ConfigureVnc(coverage: bool, layout: Layout, env: map<string, string>, status: Cmd -> int)
      returns (ran: seq<Cmd>, configured: Result<bool, int>)
      requires kind == LibVNCServer
      ensures ran == Ran(ConfigureCmds(coverage, layout, env), status)
      ensures configured == Outcome(ConfigureCmds(coverage, layout, env), status, true)
    {
      var here := Some(inputDir);
      var flags := "-O0";
      var libs := "";
      if coverage {
        flags := flags + " --coverage";
        libs := "-lgcov";
      }
      assert (flags, libs) == VncFlags(coverage);
      if layout.cmakeLists {
        var cmake := ["cmake", "-B", CmakeBuildDir, "-S", ".", "-DCMAKE_C_FLAGS=\"" + flags + "\"",
                      "-DCMAKE_EXE_LINKER_FLAGS=\"" + libs + "\"", "-DBUILD_TESTS=ON"];
        ran, configured := RunOne(Cmd(cmake, here, None), status);
      } else {
        var configureEnv := env["CFLAGS" := flags]["LDFLAGS" := flags]["LIBS" := libs];
        var script := Cmd(["./configure", "--enable-static"], here, Some(configureEnv));
        if !layout.configureScript {
          ran, configured := RunTwo(Cmd(["autogen.sh"], here, None), script, status);
        } else {
          ran, configured := RunOne(script, status);
        }
      }
    }

    /** The argv of `_build`: `make` (or `cmake --build` once LibVNCServer has a build tree, and with Vim's profiling flags) and the jobs flag. */
    function CompileArgv(nProc: int, cpuCount: Option<nat>, layout: Layout): (argv: seq<string>)
      ensures |argv| >= 2 && argv[|argv| - 1] == "-j" + IntToString(Jobs(nProc, cpuCount))
    {
      var jobs := "-j" + IntToString(Jobs(nProc, cpuCount));
      match kind
      case Vim => ["make"] + VimProfileArgs + [jobs]
      case LibVNCServer => (if layout.cmakeBuild then ["cmake", "--build", CmakeBuildDir] else ["make"]) + [jobs]
      case _ => ["make", jobs]
    }

    /** The commands `build` may run: `make clean` when there is a Makefile, the configure steps, then the compile (never for LibRaw). */
    function BuildCmds(coverage: bool, nProc: int, cpuCount: Option<nat>, layout: Layout, env: map<string, string>): seq<Cmd> {
      (if layout.makefile then [Cmd(["make", "clean"], Some(inputDir), None)] else [])
      + ConfigureCmds(coverage, layout, env)
      + (if kind == LibRaw then [] else [Cmd(CompileArgv(nProc, cpuCount, layout), Some(inputDir), None)])
    }

    /**
     * `build`: cleans when a Makefile exists, configures, and compiles only
     * when configuring gave a true value. A failing command raises, which
     * ends the build there.
     */
    method Build(coverage: bool, nProc: int, cpuCount: Option<nat>, layout: Layout, env: map<string, string>, status: Cmd -> int)
      returns (ran: seq<Cmd>, built: Result<bool, int>)
      ensures ran == Ran(BuildCmds(coverage, nProc, cpuCount, layout, env), status)
      ensures built == Outcome(BuildCmds(coverage, nProc, cpuCount, layout, env), status, kind != LibRaw)
    {
      var clean: seq<Cmd> := if layout.makefile then [Cmd(["make", "clean"], Some(inputDir), None)] else [];
      var configureCmds := ConfigureCmds(coverage, layout, env);
      var compile: seq<Cmd> := if kind == LibRaw then [] else [Cmd(CompileArgv(nProc, cpuCount, layout), Some(inputDir), None)];
      ghost var value := kind != LibRaw;
      assert BuildCmds(coverage, nProc, cpuCount, layout, env) == clean + configureCmds + compile;
      ran, built := [], Ok(true);
      if layout.makefile {
        ran, built := RunOne(clean[0], status);
        assert clean == [clean[0]];
        if built.Err? {
          RanConcatStops(clean, configureCmds, status, value);
          RanConcatStops(clean + configureCmds, compile, status, value);
          return;
        }
      }
      assert FirstFailing(clean, status) == |clean| && ran == clean;
      RanConcatContinues(clean, configureCmds, status, value);
      var configuredRan, configured := Configure(coverage, layout, env, status);
      ran := ran + configuredRan;
      if configured.Err? {
        RanConcatStops(clean + configureCmds, compile, status, value);
        built := Err(configured.error);
        return;
      }
      RanConcatContinues(clean + configureCmds, compile, status, value);
      if !configured.value {
        assert compile == [] && clean + configureCmds + compile == clean + configureCmds;
        built := Ok(false);
        return;
      }
      var compiled;
      compiled, built := RunOne(compile[0], status);
      assert compile == [compile[0]];
      ran := ran + compiled;
    }

    /** `build` gives False only for LibRaw, and then without compiling: it runs at most `make clean`. */
    lemma BuildFalseOnlyForLibRaw(coverage: bool, nProc: int, cpuCount: Option<nat>, layout: Layout, env: map<string, string>, status: Cmd -> int)
      ensures var cmds := BuildCmds(coverage, nProc, cpuCount, layout, env);
        (Outcome(cmds, status, kind != LibRaw) == Ok(false)
         <==> (kind == LibRaw && (layout.makefile ==> status(Cmd(["make", "clean"], Some(inputDir), None)) == 0)))
      ensures kind == LibRaw ==>
        BuildCmds(coverage, nProc, cpuCount, layout, env) == (if layout.makefile then [Cmd(["make", "clean"], Some(inputDir), None)] else [])
    {
      var cmds := BuildCmds(coverage, nProc, cpuCount, layout, env);
      if kind == LibRaw {
        assert ConfigureCmds(coverage, layout, env) == [];
        if layout.makefile {
          assert cmds == [Cmd(["make", "clean"], Some(inputDir), None)];
        } else {
          assert cmds == [];
        }
      }
    }

    /** The `ctest -N` loop of LibVNCServer's `get_test`. */
    method ParseCtestListing(out: string) returns (tests: seq<string>)
      ensures tests == CtestTests(SplitLines(out))
    {
      var lines := SplitLines(out);
      tests := [];
      for i := 0 to |lines|
        invariant tests == CtestTests(lines[..i])
      {
        var line := lines[i];
        assert lines[..i + 1][..i] == lines[..i];
        if Contains(line, "Test #") {
          var parts := Split(line, ':');
          if |parts| >= 2 {
            tests := tests + [Strip(parts[1])];
          }
        }
      }
      assert lines[..|lines|] == lines;
    }

    /**
     * The suite `get_test` yields, or the failure it raises: the listing
     * command's tests for OpenSSL, FFmpeg and a CMake-built LibVNCServer, the
     * Vim test globs, and the two kinds whose `get_test` cannot be called
     * without error from the pipeline.
     */
    function Suite(layout: Layout, sources: TestSources): Result<seq<string>, Failure> {
      match kind
      case OpenSSL =>
        if sources.listing.Err? then Err(Raised(sources.listing.error))
        else Ok(ListedTests(SplitLines(sources.listing.value), OpensslExcluded))
      case FFmpeg =>
        if sources.listing.Err? then Err(Raised(sources.listing.error))
        else Ok(ListedTests(SplitLines(sources.listing.value), FfmpegExcluded))
      case Vim => Ok(VimTests(PathJoin(inputDir, VimTestDir), sources.vimScripts + sources.vimInputs))
      case LibVNCServer =>
        if !layout.cmakeBuild then Ok([])
        else if sources.listing.Err? then Err(Raised(sources.listing.error))
        else Ok(CtestTests(SplitLines(sources.listing.value)))
      case PhpSrc => Err(ArityError)
      case LibRaw => Err(NotATestList)
    }

    /**
     * `get_test` as the pipeline calls it (with no argument). A failing
     * listing command raises; PHP's takes a directory argument, so the call
     * fails; LibRaw's returns the raw `sh` tuple instead of a list.
     */
    method GetTest(layout: Layout, sources: TestSources) returns (r: Result<seq<string>, Failure>)
      ensures kind == OpenSSL || kind == FFmpeg || (kind == LibVNCServer && layout.cmakeBuild) ==>
        (r.Err? <==> sources.listing.Err?) && (r.Err? ==> r.error == Raised(sources.listing.error))
      ensures kind == OpenSSL && sources.listing.Ok? ==> r == Ok(ListedTests(SplitLines(sources.listing.value), OpensslExcluded))
      ensures kind == FFmpeg && sources.listing.Ok? ==> r == Ok(ListedTests(SplitLines(sources.listing.value), FfmpegExcluded))
      ensures kind == LibVNCServer && layout.cmakeBuild && sources.listing.Ok? ==> r == Ok(CtestTests(SplitLines(sources.listing.value)))
      ensures kind == LibVNCServer && !layout.cmakeBuild ==> r == Ok([])
      ensures kind == Vim ==> (r.Ok? && |r.value| == |sources.vimScripts| + |sources.vimInputs|
        && forall i :: 0 <= i < |r.value| ==>
          r.value[i] == VimTestName(PathJoin(inputDir, VimTestDir), (sources.vimScripts + sources.vimInputs)[i]))
      ensures kind == PhpSrc ==> r == Err(ArityError)
      ensures kind == LibRaw ==> r == Err(NotATestList)
      ensures r == Suite(layout, sources)
    {
      match kind {
        case OpenSSL =>
          if sources.listing.Err? {
            return Err(Raised(sources.listing.error));
          }
          r := Ok(ListedTests(SplitLines(sources.listing.value), OpensslExcluded));
        case FFmpeg =>
          if sources.listing.Err? {
            return Err(Raised(sources.listing.error));
          }
          r := Ok(ListedTests(SplitLines(sources.listing.value), FfmpegExcluded));
        case Vim =>
          var testDir := PathJoin(inputDir, VimTestDir);
          var found := sources.vimScripts + sources.vimInputs;
          r := Ok(VimTests(testDir, found));
        case LibVNCServer =>
          if !layout.cmakeBuild {
            return Ok([]);
          }
          if sources.listing.Err? {
            return Err(Raised(sources.listing.error));
          }
          var tests := ParseCtestListing(sources.listing.value);
          r := Ok(tests);
        case PhpSrc =>
          r := Err(ArityError);
        case LibRaw =>
          r := Err(NotATestList);
      }
    }
  }

  /** Runs one command with `sh`: it either passes or raises with its status. */
  method RunOne(cmd: Cmd, status: Cmd -> int) returns (ran: seq<Cmd>, r: Result<bool, int>)
    ensures ran == [cmd]
    ensures r == Outcome([cmd], status, true)
  {
    ran := [cmd];
    var out := Sh(status(cmd), "");
    match out {
      case Err(code) => r := Err(code);
      case Ok(c) => r := Ok(c.returncode == 0);
    }
  }

  /** Runs two commands with `sh`; a failing first one raises before the second. */
  method RunTwo(first: Cmd, second: Cmd, status: Cmd -> int) returns (ran: seq<Cmd>, r: Result<bool, int>)
    ensures ran == Ran([first, second], status)
    ensures r == Outcome([first, second], status, true)
  {
    assert [first, second] == [first] + [second];
    ran, r := RunOne(first, status);
    if r.Ok? {
      RanConcatContinues([first], [second], status, true);
      var more;
      more, r := RunOne(second, status);
      ran := ran + more;
    } else {
      RanConcatStops([first], [second], status, true);
    }
  }

  /** Runs commands with `sh` one after another; the first failing one raises and ends the run. */
  method RunAll(cmds: seq<Cmd>, status: Cmd -> int) returns (ran: seq<Cmd>, r: Result<bool, int>)
    ensures ran == Ran(cmds, status)
    ensures r == Outcome(cmds, status, true)
  {
    ran := [];
    for i := 0 to |cmds|
      invariant i <= FirstFailing(cmds, status)
      invariant ran == cmds[..i]
    {
      ran := ran + [cmds[i]];
      var out := Sh(status(cmds[i]), "");
      if out.Err? {
        assert ran == cmds[..i + 1];
        return ran, Err(out.error);
      }
    }
    assert ran == cmds;
    r := Ok(true);
  }

  /**
   * `ProjectFactory.get_project`: a new project of the kind the name
   * selects, with its directories under the given roots.
   */
  method GetProject(name: string, inputRoot: string, outputRoot: string) returns (r: Result<Project, string>)
    ensures KindOf(name).Err? ==> r == Err(KindOf(name).error)
    ensures KindOf(name).Ok? ==> (r.Ok? && fresh(r.value) && r.value.kind == KindOf(name).value
      && r.value.outputDir == PathJoin(outputRoot, ProjectName(r.value.kind))
      && r.value.inputDir == PathJoin(inputRoot, ProjectName(r.value.kind)))
  {
    var kind := KindOf(name);
    if kind.Err? {
      return Err(kind.error);
    }
    var p := new Project(kind.value, outputRoot, inputRoot);
    r := Ok(p);
  }
}
