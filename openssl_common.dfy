/**
 * The helpers shared by the OpenSSL-style Docker pipeline: the console
 * progress bar, the `sh` process wrapper, the `make` front end, the coverage
 * listings, RAPL energy-event detection from `perf list`, the normalisation
 * of the event selector, the shell wrapper that repeats a test until a
 * deadline, and the per-iteration energy measurement loop.
 *
 * Processes are parameters: an exit status and the text a command printed.
 * The file system reached by the measurement loop is a set of paths.
 */
module OpensslCommon {
  import opened Wrappers
  import opened PyStr
  import opened TestRelevance

  // ---------------------------------------------------------------------------
  // Progress bar
  // ---------------------------------------------------------------------------

  const FullCell: char := '\U{2588}'
  const EmptyCell: char := '\U{2591}'

  /** `int(length * (i + 1) / total)`: the full cells shown for step `i`. */
  function Filled(total: int, length: int, i: int): int
    requires total != 0
  {
    TruncDiv(length * (i + 1), total)
  }

  /** The `length` cells of the bar for step `i`: full ones, then empty ones. */
  function Bar(total: int, length: int, i: int): string
    requires total != 0
  {
    var f := Filled(total, length, i);
    Repeat(FullCell, f) + Repeat(EmptyCell, length - f)
  }

  /** The text `update(i)` prints: the bar and the step count `i + 1` out of `total`. */
  function BarLine(total: int, length: int, i: int): string
    requires total != 0
  {
    "\r[" + Bar(total, length, i) + "] " + IntToString(i + 1) + "/" + IntToString(total)
  }

  lemma MulCancel(a: int, b: int, c: int)
    requires c > 0 && a * c < (b + 1) * c
    ensures a <= b
  {
  }

  lemma MulMonotone(k: int, x: int, y: int)
    requires k >= 0 && x <= y
    ensures k * x <= k * y
  {
    assert k * y - k * x == k * (y - x);
  }

  /**
   * For a step inside the run and a non-negative length, `f` full cells with
   * `f * total <= length * (i + 1) < (f + 1) * total` (that is, the floor of
   * `length * (i + 1) / total`), then `length - f` empty cells: the bar is
   * always exactly `length` cells wide.
   */
  lemma BarShape(total: int, length: int, i: int)
    requires 0 <= i < total && 0 <= length
    ensures var f := Filled(total, length, i);
      0 <= f <= length
      && f * total <= length * (i + 1) < (f + 1) * total
      && |Bar(total, length, i)| == length
      && (forall k :: 0 <= k < f ==> Bar(total, length, i)[k] == FullCell)
      && (forall k :: f <= k < length ==> Bar(total, length, i)[k] == EmptyCell)
  {
    FilledBounds(total, length, i);
    BarCells(Filled(total, length, i), length);
  }

  /** The floor of `length * (i + 1) / total` lies between 0 and `length`. */
  lemma FilledBounds(total: int, length: int, i: int)
    requires 0 <= i < total && 0 <= length
    ensures var f := Filled(total, length, i);
      0 <= f <= length && f * total <= length * (i + 1) < (f + 1) * total
  {
    var f := Filled(total, length, i);
    var a := length * (i + 1);
    assert 0 <= a by {
      MulMonotone(length, 0, i + 1);
    }
    assert f * total <= a < (f + 1) * total;
    assert a <= length * total by {
      MulMonotone(length, i + 1, total);
    }
    assert length * total == total * length;
    MulCancel(f, length, total);
    assert 0 <= f by {
      NonNegQuotient(f, a, total);
    }
  }

  lemma NonNegQuotient(f: int, a: int, total: int)
    requires total > 0 && 0 <= a < (f + 1) * total
    ensures 0 <= f
  {
    PositiveFactor(f + 1, total);
  }

  lemma PositiveFactor(x: int, t: int)
    requires t > 0 && x * t > 0
    ensures x > 0
  {
  }

  /** `f` full cells and then empty ones up to `length`. */
  lemma BarCells(f: int, length: int)
    requires 0 <= f <= length
    ensures var b := Repeat(FullCell, f) + Repeat(EmptyCell, length - f);
      |b| == length && (forall k :: 0 <= k < f ==> b[k] == FullCell) && (forall k :: f <= k < length ==> b[k] == EmptyCell)
  {
  }

  /** The last step fills the whole bar. */
  lemma BarFullAtEnd(total: int, length: int)
    requires total > 0 && length >= 0
    ensures Filled(total, length, total - 1) == length
    ensures Bar(total, length, total - 1) == Repeat(FullCell, length)
  {
    var f := Filled(total, length, total - 1);
    BarShape(total, length, total - 1);
    assert length * total == total * length;
    MulCancel(length, f, total);
    assert Repeat(EmptyCell, length - f) == [];
  }

  /** The bar never empties as the steps advance. */
  lemma BarMonotone(total: int, length: int, i: int, j: int)
    requires 0 <= i <= j < total && 0 <= length
    ensures Filled(total, length, i) <= Filled(total, length, j)
  {
    BarShape(total, length, i);
    BarShape(total, length, j);
    MulMonotone(length, i + 1, j + 1);
    MulCancel(Filled(total, length, i), Filled(total, length, j), total);
  }

  /** The default width of the bar. */
  const DefaultLength: int := 40

  /** A console progress bar; `current` is absent until `Set` is first called. */
  class ProgressBar {
    const total: int
    const length: int
    const step: int
    var current: Option<int>

    constructor(total: int, length: int, step: int)
      ensures this.total == total && this.length == length && this.step == step
      ensures current.None?
    {
      this.total := total;
      this.length := length;
      this.step := step;
      current := None;
    }

    /** `update(i)`: the line printed for step `i`. */
    function Update(i: int): string
      requires total != 0
    {
      BarLine(total, length, i)
    }

    /** `set(i)`: remembers the step and prints its line. */
    method Set(i: int) returns (shown: string)
      requires total != 0
      modifies this
      ensures current == Some(i)
      ensures shown == Update(i)
    {
      current := Some(i);
      shown := Update(i);
    }

    /**
     * `log(msg)`: a blank line, the message, then the line of the current
     * step again; before any `set` there is no `current` and Python raises
     * `AttributeError`.
     */
    method Log(msg: string) returns (shown: Result<string, string>)
      requires total != 0
      ensures current.None? ==> shown == Err("AttributeError")
      ensures current.Some? ==> shown == Ok("\n" + msg + "\n" + Update(current.value))
    {
      if current.None? {
        return Err("AttributeError");
      }
      shown := Ok("\n" + msg + "\n" + Update(current.value));
    }
  }

  // ---------------------------------------------------------------------------
  // Processes
  // ---------------------------------------------------------------------------

  /** What `sh` returns: the combined output, the exit status and the (always absent) stderr. */
  datatype Completed = Completed(stdout: string, returncode: int, stderr: Option<string>)

  /**
   * `sh(cmd)`: runs with `check=True` and stderr folded into stdout, so it
   * returns only for exit status 0 and raises `CalledProcessError` (carrying
   * the status) for any other.
   */
  function Sh(exitCode: int, output: string): (r: Result<Completed, int>)
    ensures r.Ok? <==> exitCode == 0
    ensures r.Ok? ==> r.value == Completed(output, 0, None)
    ensures r.Err? ==> r.error == exitCode
  {
    if exitCode == 0 then Ok(Completed(output, 0, None)) else Err(exitCode)
  }

  /** `-j{n}`: every CPU (`os.cpu_count() or 1`) when `n_proc` is -1, otherwise `n_proc`. */
  function Jobs(nProc: int, cpuCount: Option<nat>): int {
    if nProc == -1 then (if cpuCount.Some? && cpuCount.value != 0 then cpuCount.value else 1) else nProc
  }

  /** `MakeHandler.build`'s argv. */
  function BuildArgv(nProc: int, cpuCount: Option<nat>): (argv: seq<string>)
    ensures |argv| == 2 && argv[0] == "make" && StartsWith(argv[1], "-j")
  {
    ["make", "-j" + IntToString(Jobs(nProc, cpuCount))]
  }

  /** The jobs flag asks for at least one job whenever `n_proc` is left at -1. */
  lemma JobsDefault(cpuCount: Option<nat>)
    ensures Jobs(-1, cpuCount) >= 1
    ensures cpuCount.Some? && cpuCount.value > 0 ==> Jobs(-1, cpuCount) == cpuCount.value
  {
  }

  /**
   * `MakeHandler.build`: `make -jN`. Since `sh` raises on a failing status,
   * the call either raises or returns True; it never returns False.
   */
  method MakeBuild(nProc: int, cpuCount: Option<nat>, exitCode: int)
    returns (argv: seq<string>, built: Result<bool, int>)
    ensures argv == BuildArgv(nProc, cpuCount)
    ensures built.Ok? <==> exitCode == 0
    ensures built.Ok? ==> built.value
    ensures built.Err? ==> built.error == exitCode
  {
    argv := BuildArgv(nProc, cpuCount);
    var r := Sh(exitCode, "");
    match r {
      case Err(code) => built := Err(code);
      case Ok(out) => built := Ok(out.returncode == 0);
    }
  }

  /** The directory the per-test coverage artifacts are written under. */
  const GcdaFolder: string := "coverage-per-test"

  /** `make test TESTS=<target> HARNESS_JOBS=1`. */
  function TestArgv(target: string): (argv: seq<string>)
    ensures |argv| == 4 && argv[2] == "TESTS=" + target
  {
    ["make", "test", "TESTS=" + target, "HARNESS_JOBS=1"]
  }

  /** The test environment: the caller's, with gcov told to strip three components and write under the test's folder. */
  function GcovEnv(env: map<string, string>, outputDir: string, target: string): (r: map<string, string>)
    ensures r.Keys == env.Keys + {"GCOV_PREFIX_STRIP", "GCOV_PREFIX"}
    ensures r["GCOV_PREFIX_STRIP"] == "3"
    ensures r["GCOV_PREFIX"] == PathJoin(PathJoin(outputDir, GcdaFolder), target)
    ensures forall k :: k in env && k != "GCOV_PREFIX_STRIP" && k != "GCOV_PREFIX" ==> r[k] == env[k]
  {
    var prefix := PathJoin(PathJoin(outputDir, GcdaFolder), target);
    assert |"GCOV_PREFIX_STRIP"| == 17 && |"GCOV_PREFIX"| == 11;
    env["GCOV_PREFIX_STRIP" := "3"]["GCOV_PREFIX" := prefix]
  }

  /**
   * `MakeHandler.test`: runs one test with the gcov environment; any
   * exception (including the failing status `sh` raises) is caught, so the
   * test passed exactly when the status was 0.
   */
  method MakeTest(target: string, outputDir: string, env: map<string, string>, exitCode: int)
    returns (argv: seq<string>, testEnv: map<string, string>, passed: bool)
    ensures argv == TestArgv(target)
    ensures testEnv == GcovEnv(env, outputDir, target)
    ensures passed <==> exitCode == 0
  {
    argv := TestArgv(target);
    testEnv := GcovEnv(env, outputDir, target);
    var r := Sh(exitCode, "");
    passed := r.Ok? && r.value.returncode == 0;
  }

  // ---------------------------------------------------------------------------
  // Coverage listings
  // ---------------------------------------------------------------------------

  /**
   * `get_covered_files`: the covered sources of the walk as a list, in the
   * set's iteration order, each once.
   */
  method CoveredFileList(walk: seq<WalkEntry>) returns (files: seq<string>)
    ensures Enumerates(files, CoveredFiles(walk))
  {
    var covered := GetCoveredFiles(walk);
    files := [];
    var rest := covered;
    while rest != {}
      invariant rest <= covered
      invariant forall t :: t in covered ==> t in rest || t in files
      invariant forall i :: 0 <= i < |files| ==> files[i] in covered && files[i] !in rest
      invariant forall i, j :: 0 <= i < j < |files| ==> files[i] != files[j]
      decreases rest
    {
      var t :| t in rest;
      files := files + [t];
      rest := rest - {t};
    }
  }

  /** Path order: the '/'-separated parts compared as lists, part by part. */
  predicate PartsLess(a: seq<string>, b: seq<string>)
    decreases |a|
  {
    if a == [] then b != []
    else if b == [] then false
    else if a[0] == b[0] then PartsLess(a[1..], b[1..])
    else StrLess(a[0], b[0])
  }

  lemma {:induction false} PartsLessIrreflexive(a: seq<string>)
    ensures !PartsLess(a, a)
    decreases |a|
  {
    if a != [] { PartsLessIrreflexive(a[1..]); }
  }

  lemma {:induction false} PartsLessTransitive(a: seq<string>, b: seq<string>, c: seq<string>)
    requires PartsLess(a, b) && PartsLess(b, c)
    ensures PartsLess(a, c)
    decreases |a|
  {
    if a != [] {
      if a[0] == b[0] && b[0] == c[0] {
        PartsLessTransitive(a[1..], b[1..], c[1..]);
      } else if a[0] != b[0] && b[0] != c[0] {
        StrLessTransitive(a[0], b[0], c[0]);
        if a[0] == c[0] { StrLessIrreflexive(a[0]); }
      }
    }
  }

  lemma {:induction false} PartsLessTotal(a: seq<string>, b: seq<string>)
    requires a != b
    ensures PartsLess(a, b) || PartsLess(b, a)
    decreases |a|
  {
    if a != [] && b != [] {
      if a[0] == b[0] {
        assert a == [a[0]] + a[1..] && b == [b[0]] + b[1..];
        PartsLessTotal(a[1..], b[1..]);
      } else {
        StrLessTotal(a[0], b[0]);
      }
    }
  }

  /** `Path(p) < Path(q)` for paths below the same root. */
  predicate PathLess(p: string, q: string) {
    PartsLess(Split(p, '/'), Split(q, '/'))
  }

  lemma PathLessTotal(p: string, q: string)
    requires p != q
    ensures PathLess(p, q) || PathLess(q, p)
  {
    JoinSplit(p, '/');
    JoinSplit(q, '/');
    PartsLessTotal(Split(p, '/'), Split(q, '/'));
  }

  lemma PathLessTransitive(p: string, q: string, r: string)
    requires PathLess(p, q) && PathLess(q, r)
    ensures PathLess(p, r)
  {
    PartsLessTransitive(Split(p, '/'), Split(q, '/'), Split(r, '/'));
  }

  lemma PathLessIrreflexive(p: string)
    ensures !PathLess(p, p)
  {
    PartsLessIrreflexive(Split(p, '/'));
  }

  predicate PathSorted(s: seq<string>) {
    forall i, j :: 0 <= i < j < |s| ==> PathLess(s[i], s[j])
  }

  predicate Distinct(s: seq<string>) {
    forall i, j :: 0 <= i < j < |s| ==> s[i] != s[j]
  }

  function InsertPath(x: string, s: seq<string>): (r: seq<string>)
    requires PathSorted(s) && x !in s
    ensures PathSorted(r)
    ensures multiset(r) == multiset(s) + multiset{x}
    decreases |s|
  {
    if s == [] then [x]
    else if PathLess(x, s[0]) then
      assert forall j :: 0 <= j < |s| ==> PathLess(x, s[j]) by {
        forall j | 0 <= j < |s| ensures PathLess(x, s[j]) {
          if j > 0 { PathLessTransitive(x, s[0], s[j]); }
        }
      }
      [x] + s
    else
      PathLessTotal(x, s[0]);
      assert s == [s[0]] + s[1..];
      var rest := InsertPath(x, s[1..]);
      assert forall e :: e in rest ==> PathLess(s[0], e) by {
        forall e | e in rest ensures PathLess(s[0], e) {
          assert e in multiset(rest);
          if e != x {
            assert e in multiset(s[1..]);
            var k :| 0 <= k < |s[1..]| && s[1..][k] == e;
            assert s[k + 1] == e;
          }
        }
      }
      [s[0]] + rest
  }

  /** `sorted(paths)` for a list in which no path repeats. */
  function SortPaths(xs: seq<string>): (r: seq<string>)
    requires Distinct(xs)
    ensures PathSorted(r)
    ensures multiset(r) == multiset(xs)
    decreases |xs|
  {
    if xs == [] then []
    else
      var init := xs[..|xs| - 1];
      assert xs == init + [xs[|xs| - 1]];
      var sorted := SortPaths(init);
      assert xs[|xs| - 1] !in init;
      assert xs[|xs| - 1] !in multiset(sorted);
      InsertPath(xs[|xs| - 1], sorted)
  }

  /** The tail of a path-sorted list is path-sorted. */
  lemma PathSortedTail(a: seq<string>)
    requires PathSorted(a) && a != []
    ensures PathSorted(a[1..])
  {
    forall i, j | 0 <= i < j < |a[1..]| ensures PathLess(a[1..][i], a[1..][j]) {
      assert a[1..][i] == a[i + 1] && a[1..][j] == a[j + 1];
    }
  }

  /** Two non-empty path-sorted lists with the same paths start alike. */
  lemma PathSortedHeads(a: seq<string>, b: seq<string>)
    requires PathSorted(a) && PathSorted(b) && multiset(a) == multiset(b) && a != [] && b != []
    ensures a[0] == b[0]
  {
    assert a[0] in multiset(b) && b[0] in multiset(a);
    var i :| 0 <= i < |b| && b[i] == a[0];
    var j :| 0 <= j < |a| && a[j] == b[0];
    if a[0] != b[0] {
      assert PathLess(b[0], a[0]) && PathLess(a[0], b[0]);
      PathLessTransitive(a[0], b[0], a[0]);
      PathLessIrreflexive(a[0]);
    }
  }

  /** Two path-sorted lists holding the same paths are the same list. */
  lemma {:induction false} PathSortedUnique(a: seq<string>, b: seq<string>)
    requires PathSorted(a) && PathSorted(b) && multiset(a) == multiset(b)
    ensures a == b
    decreases |a|
  {
    assert |b| == |a| by { assert |multiset(b)| == |multiset(a)|; }
    if a != [] {
      PathSortedHeads(a, b);
      assert a == [a[0]] + a[1..] && b == [b[0]] + b[1..];
      assert multiset(a[1..]) == multiset(a) - multiset{a[0]};
      assert multiset(b[1..]) == multiset(b) - multiset{b[0]};
      PathSortedTail(a);
      PathSortedTail(b);
      PathSortedUnique(a[1..], b[1..]);
    }
  }

  /**
   * `MakeHandler.coverage_file`: the `.gcda` artifacts the glob found under
   * `<root>/coverage-per-test/<test>` (relative to that folder, each once),
   * in path order, with every "gcda" in each path replaced by "c".
   */
  function CoverageFile(found: seq<string>): (r: seq<string>)
    requires Distinct(found)
    ensures |r| == |found|
  {
    var sorted := SortPaths(found);
    assert |sorted| == |found| by { assert |multiset(sorted)| == |multiset(found)|; }
    seq(|sorted|, i requires 0 <= i < |sorted| => Replace(sorted[i], "gcda", "c"))
  }

  /**
   * Whatever path-ordered listing of the found artifacts one takes, the
   * coverage files are its entries with "gcda" rewritten, in that order.
   */
  lemma CoverageFileInPathOrder(found: seq<string>, order: seq<string>)
    requires Distinct(found) && PathSorted(order) && multiset(order) == multiset(found)
    ensures |CoverageFile(found)| == |order|
    ensures forall i :: 0 <= i < |order| ==> CoverageFile(found)[i] == Replace(order[i], "gcda", "c")
  {
    PathSortedUnique(SortPaths(found), order);
  }

  // ---------------------------------------------------------------------------
  // RAPL energy events in `perf list` output
  // ---------------------------------------------------------------------------

  /** The text every energy event starts with. */
  const EnergyPrefix: string := "power/energy-"

  /** `\w` at index `k`; nothing outside the text is a word character. */
  predicate WordAt(s: string, k: int) {
    0 <= k < |s| && IsWordChar(s[k])
  }

  /** `\b` at position `k`: a word character on exactly one side. */
  predicate BoundaryAt(s: string, k: int) {
    WordAt(s, k - 1) != WordAt(s, k)
  }

  /** `[^/\s]`: the characters of an event's name. */
  predicate IsSelectorChar(c: char) {
    c != '/' && !IsSpace(c)
  }

  /** The length of the run of name characters starting at `q`. */
  function SelectorRun(s: string, q: nat): (n: nat)
    requires q <= |s|
    ensures q + n <= |s|
    ensures forall k :: q <= k < q + n ==> IsSelectorChar(s[k])
    ensures q + n < |s| ==> !IsSelectorChar(s[q + n])
    decreases |s| - q
  {
    if q < |s| && IsSelectorChar(s[q]) then 1 + SelectorRun(s, q + 1) else 0
  }

  /**
   * The backtracking of `[^/\s]+\b` once the optional '/' has been given up:
   * the longest run prefix, of at most `n` characters, that a boundary follows.
   */
  function ShorterEnd(s: string, q: nat, n: nat): (e: Option<nat>)
    requires q + n <= |s|
    ensures e.Some? ==> q < e.value <= q + n && BoundaryAt(s, e.value)
    ensures e.Some? ==> forall k :: e.value < k <= q + n ==> !BoundaryAt(s, k)
    ensures e.None? ==> forall k :: q < k <= q + n ==> !BoundaryAt(s, k)
    decreases n
  {
    if n == 0 then None
    else if BoundaryAt(s, q + n) then Some(q + n)
    else ShorterEnd(s, q, n - 1)
  }

  /**
   * Where a match of `\bpower/energy-[^/\s]+/?\b` starting at `p` ends, if
   * one does: the greedy run with its '/' when a boundary follows that,
   * otherwise the longest run prefix a boundary follows.
   */
  function MatchEnd(s: string, p: nat): (e: Option<nat>)
    requires p <= |s|
    ensures e.Some? ==> p + |EnergyPrefix| < e.value <= |s|
  {
    if !(BoundaryAt(s, p) && p + |EnergyPrefix| <= |s| && s[p..p + |EnergyPrefix|] == EnergyPrefix) then None
    else
      var q := p + |EnergyPrefix|;
      var n := SelectorRun(s, q);
      if n == 0 then None
      else if q + n < |s| && s[q + n] == '/' && BoundaryAt(s, q + n + 1) then Some(q + n + 1)
      else ShorterEnd(s, q, n)
  }

  /** A matched text: the prefix, a non-empty name, perhaps a closing '/'. */
  predicate IsEnergyMatch(m: string) {
    |m| > |EnergyPrefix| && m[..|EnergyPrefix|] == EnergyPrefix
    && (forall k :: |EnergyPrefix| <= k < |m| - 1 ==> IsSelectorChar(m[k]))
    && (IsSelectorChar(m[|m| - 1]) || (m[|m| - 1] == '/' && |m| > |EnergyPrefix| + 1))
  }

  lemma MatchEndShape(s: string, p: nat)
    requires p <= |s| && MatchEnd(s, p).Some?
    ensures IsEnergyMatch(s[p..MatchEnd(s, p).value])
  {
    var e := MatchEnd(s, p).value;
    var m := s[p..e];
    assert m[..|EnergyPrefix|] == s[p..p + |EnergyPrefix|];
    forall k | |EnergyPrefix| <= k < |m|
      ensures IsSelectorChar(m[k]) || (k == |m| - 1 && m[k] == '/' && k > |EnergyPrefix|)
    {
      assert m[k] == s[p + k];
    }
  }

  /** `ENERGY_RE.findall(line)` from position `pos`: the matches, left to right, none overlapping. */
  function FindAll(s: string, pos: nat): (r: seq<string>)
    requires pos <= |s|
    ensures forall i :: 0 <= i < |r| ==> IsEnergyMatch(r[i])
    decreases |s| - pos
  {
    if pos == |s| then []
    else
      match MatchEnd(s, pos)
      case Some(e) =>
        MatchEndShape(s, pos);
        [s[pos..e]] + FindAll(s, e)
      case None => FindAll(s, pos + 1)
  }

  /** A canonical energy selector: the prefix, a non-empty name, and a closing '/'. */
  predicate IsRaplEvent(e: string) {
    |e| >= |EnergyPrefix| + 2 && e[..|EnergyPrefix|] == EnergyPrefix && e[|e| - 1] == '/'
    && forall k :: |EnergyPrefix| <= k < |e| - 1 ==> IsSelectorChar(e[k])
  }

  /** The canonical form: a '/' appended unless the match has one. */
  function Canonical(m: string): (e: string)
    requires IsEnergyMatch(m)
    ensures IsRaplEvent(e)
    ensures EndsWith(m, "/") ==> e == m
    ensures !EndsWith(m, "/") ==> e == m + "/"
  {
    if EndsWith(m, "/") then
      assert m[|m| - 1] == '/' by { assert "/"[0] == '/'; }
      m
    else
      assert m[|m| - 1] != '/' by { assert "/"[0] == '/'; }
      assert (m + "/")[..|EnergyPrefix|] == m[..|EnergyPrefix|];
      m + "/"
  }

  /** The canonical events of one line, in match order. */
  function LineEvents(line: string): (r: seq<string>)
    ensures forall i :: 0 <= i < |r| ==> IsRaplEvent(r[i])
  {
    var ms := FindAll(line, 0);
    seq(|ms|, i requires 0 <= i < |ms| => Canonical(ms[i]))
  }

  /** The canonical events of some lines, line by line. */
  function OutputEvents(lines: seq<string>): (r: seq<string>)
    ensures forall i :: 0 <= i < |r| ==> IsRaplEvent(r[i])
    decreases |lines|
  {
    if lines == [] then [] else OutputEvents(lines[..|lines| - 1]) + LineEvents(lines[|lines| - 1])
  }

  lemma SelectorRunExact(s: string, q: nat, n: nat)
    requires q + n <= |s|
    requires forall k :: q <= k < q + n ==> IsSelectorChar(s[k])
    requires q + n < |s| ==> !IsSelectorChar(s[q + n])
    ensures SelectorRun(s, q) == n
    decreases n
  {
    if n > 0 {
      SelectorRunExact(s, q + 1, n - 1);
    }
  }

  /**
   * How `perf list` shows an event, `power/energy-pkg/` followed by a blank:
   * no boundary follows the '/', so the match stops before it, which is why
   * every match is given its '/' again.
   */
  lemma MatchStopsBeforeSlash(s: string, p: nat, n: nat)
    requires p + |EnergyPrefix| + n < |s| && n > 0
    requires !WordAt(s, p - 1)
    requires s[p..p + |EnergyPrefix|] == EnergyPrefix
    requires forall k :: p + |EnergyPrefix| <= k < p + |EnergyPrefix| + n ==> IsSelectorChar(s[k])
    requires IsWordChar(s[p + |EnergyPrefix| + n - 1]) && s[p + |EnergyPrefix| + n] == '/'
    requires !WordAt(s, p + |EnergyPrefix| + n + 1)
    ensures MatchEnd(s, p) == Some(p + |EnergyPrefix| + n)
  {
    assert s[p] == EnergyPrefix[0];
    SelectorRunExact(s, p + |EnergyPrefix|, n);
  }

  lemma CanonicalOfName(name: string)
    requires name != [] && IsWordChar(name[|name| - 1])
    requires forall k :: 0 <= k < |name| ==> IsSelectorChar(name[k])
    ensures IsEnergyMatch(EnergyPrefix + name) && Canonical(EnergyPrefix + name) == EnergyPrefix + name + "/"
  {
    var m := EnergyPrefix + name;
    assert m[..|EnergyPrefix|] == EnergyPrefix;
    forall k | |EnergyPrefix| <= k < |m| ensures IsSelectorChar(m[k]) {
      assert m[k] == name[k - |EnergyPrefix|];
    }
    assert m[|m| - 1] == name[|name| - 1];
    assert !EndsWith(m, "/") by { assert "/"[0] == '/'; }
  }

  /** `sorted(events)` for a set: the elements taken out one at a time and inserted in order. */
  method SortedList(events: set<string>) returns (r: seq<string>)
    ensures StrictlySorted(r)
    ensures forall e :: e in r <==> e in events
  {
    r := [];
    var rest := events;
    while rest != {}
      invariant rest <= events
      invariant StrictlySorted(r)
      invariant forall e :: e in r <==> e in events - rest
      decreases rest
    {
      var e :| e in rest;
      r := InsertSorted(e, r);
      rest := rest - {e};
    }
  }

  /** The inner loop of `detect_rapl`: every match of one line, given its closing '/', added to the set. */
  method AddLineEvents(events: set<string>, line: string) returns (added: set<string>)
    ensures forall e :: e in added <==> e in events || e in LineEvents(line)
  {
    added := events;
    var ms := FindAll(line, 0);
    ghost var lineEvents := LineEvents(line);
    for j := 0 to |ms|
      invariant forall e :: e in added <==> e in events || e in lineEvents[..j]
    {
      var m := ms[j];
      if !EndsWith(m, "/") {
        m := m + "/";
      }
      assert m == lineEvents[j];
      assert lineEvents[..j + 1] == lineEvents[..j] + [m];
      added := added + {m};
    }
    assert lineEvents[..|ms|] == lineEvents;
  }

  lemma SortedEventsCanonical(events: seq<string>)
    requires forall i :: 0 <= i < |events| ==> IsRaplEvent(events[i])
    ensures forall i :: 0 <= i < |SortedSet(events)| ==> IsRaplEvent(SortedSet(events)[i])
  {
    var r := SortedSet(events);
    forall i | 0 <= i < |r| ensures IsRaplEvent(r[i]) {
      assert r[i] in events;
    }
  }

  /**
   * `detect_rapl`: the output of `perf list --no-desc`, or of `perf list`
   * when that call fails (a failing fallback propagates its error), is
   * scanned line by line for energy events; each match gets its closing '/'
   * and the result is every such event once, in sorted order.
   */
  method DetectRapl(noDesc: Result<string, int>, plain: Result<string, int>) returns (r: Result<seq<string>, int>)
    ensures noDesc.Ok? ==> r == Ok(SortedSet(OutputEvents(SplitLines(noDesc.value))))
    ensures noDesc.Err? && plain.Ok? ==> r == Ok(SortedSet(OutputEvents(SplitLines(plain.value))))
    ensures noDesc.Err? && plain.Err? ==> r == Err(plain.error)
    ensures r.Ok? ==> StrictlySorted(r.value) && forall i :: 0 <= i < |r.value| ==> IsRaplEvent(r.value[i])
  {
    var out: string;
    if noDesc.Ok? {
      out := noDesc.value;
    } else if plain.Ok? {
      out := plain.value;
    } else {
      return Err(plain.error);
    }
    var lines := SplitLines(out);
    var events: set<string> := {};
    for i := 0 to |lines|
      invariant forall e :: e in events <==> e in OutputEvents(lines[..i])
    {
      events := AddLineEvents(events, lines[i]);
      assert lines[..i + 1][..i] == lines[..i];
    }
    assert lines[..|lines|] == lines;
    var sorted := SortedList(events);
    SortedUnique(sorted, SortedSet(OutputEvents(lines)));
    SortedEventsCanonical(OutputEvents(lines));
    r := Ok(sorted);
  }

  // ---------------------------------------------------------------------------
  // The perf event selector
  // ---------------------------------------------------------------------------

  /** The event measured when none is given. */
  const DefaultEvent: string := "power/energy-pkg/"

  /**
   * The `pkg_event` argument: a list, tuple or set of values (in iteration
   * order, each already `str`), one other value, or `None`.
   */
  datatype EventArg = EventCollection(items: seq<string>) | EventValue(value: string) | NoEvent

  /** `[str(e).strip() for e in items if str(e).strip()]`. */
  function StrippedNonBlank(items: seq<string>): (r: seq<string>)
    ensures forall i :: 0 <= i < |r| ==> r[i] != []
    decreases |items|
  {
    if items == [] then []
    else (if Strip(items[0]) == [] then [] else [Strip(items[0])]) + StrippedNonBlank(items[1..])
  }

  /** An entry is kept exactly when it is the non-empty stripped form of some item. */
  lemma {:induction false} StrippedNonBlankMembers(items: seq<string>, e: string)
    ensures e in StrippedNonBlank(items) <==> e != [] && exists i :: 0 <= i < |items| && Strip(items[i]) == e
    decreases |items|
  {
    if items != [] {
      StrippedNonBlankMembers(items[1..], e);
      if exists i :: 0 <= i < |items[1..]| && Strip(items[1..][i]) == e {
        var i :| 0 <= i < |items[1..]| && Strip(items[1..][i]) == e;
        assert Strip(items[i + 1]) == e;
      }
      if exists i :: 0 <= i < |items| && Strip(items[i]) == e {
        var i :| 0 <= i < |items| && Strip(items[i]) == e;
        if i > 0 {
          assert Strip(items[1..][i - 1]) == e;
        }
      }
    }
  }

  /** Items that all strip to nothing leave nothing. */
  lemma {:induction false} AllBlankStripsAway(items: seq<string>)
    requires forall i :: 0 <= i < |items| ==> Strip(items[i]) == []
    ensures StrippedNonBlank(items) == []
    decreases |items|
  {
    if items != [] {
      assert Strip(items[0]) == [];
      assert forall i :: 0 <= i < |items[1..]| ==> items[1..][i] == items[i + 1];
      AllBlankStripsAway(items[1..]);
    }
  }

  /** The events the argument gives before the fallback: a falsy value gives none. */
  function GivenEvents(arg: EventArg): seq<string> {
    match arg
    case EventCollection(items) => StrippedNonBlank(items)
    case EventValue(v) => if v == [] then [] else [Strip(v)]
    case NoEvent => []
  }

  /** The events measured: those given, or the package-energy event when none are. */
  function NormalizeEvents(arg: EventArg): (r: seq<string>)
    ensures r != []
  {
    var given := GivenEvents(arg);
    if given == [] then [DefaultEvent] else given
  }

  /**
   * A collection yields its stripped non-blank entries, falling back to the
   * package event only when every entry is blank; a non-empty single value
   * yields itself stripped; an empty value or `None` yields the package event.
   */
  lemma NormalizeEventsSpec(arg: EventArg)
    ensures arg.EventCollection? && (forall i :: 0 <= i < |arg.items| ==> Strip(arg.items[i]) == []) ==>
      NormalizeEvents(arg) == [DefaultEvent]
    ensures arg.EventCollection? && (exists i :: 0 <= i < |arg.items| && Strip(arg.items[i]) != []) ==>
      forall e :: e in NormalizeEvents(arg) <==> e != [] && exists i :: 0 <= i < |arg.items| && Strip(arg.items[i]) == e
    ensures arg.EventValue? && arg.value != [] ==> NormalizeEvents(arg) == [Strip(arg.value)]
    ensures arg == NoEvent || arg == EventValue([]) ==> NormalizeEvents(arg) == [DefaultEvent]
  {
    if arg.EventCollection? {
      var items := arg.items;
      forall e ensures e in StrippedNonBlank(items) <==> e != [] && exists i :: 0 <= i < |items| && Strip(items[i]) == e {
        StrippedNonBlankMembers(items, e);
      }
      if exists i :: 0 <= i < |items| && Strip(items[i]) != [] {
        var i :| 0 <= i < |items| && Strip(items[i]) != [];
        assert Strip(items[i]) in StrippedNonBlank(items);
      } else {
        AllBlankStripsAway(items);
      }
    }
  }

  /** A whitespace-only single value is truthy, so it is measured as an empty event name. */
  lemma BlankValueGivesEmptyEvent()
    ensures NormalizeEvents(EventValue(" ")) == [""]
    ensures PerfEvents([""]) == ",cycles,instructions"
  {
    assert LeadingSpaces(" ") == 1 + LeadingSpaces(" "[1..]);
    assert " "[1..] == [];
    assert Strip(" ") == [];
    var parts := ["", "cycles", "instructions"];
    assert [""] + ["cycles", "instructions"] == parts;
    assert parts[1..][1..] == ["instructions"];
    assert Join(parts[1..], ",") == "cycles" + "," + "instructions";
  }

  /** The `-e` argument: the events, then cycles and instructions, comma-separated. */
  function PerfEvents(events: seq<string>): string {
    Join(events + ["cycles", "instructions"], ",")
  }

  /** When no event holds a comma, perf reads back exactly the events, then cycles and instructions. */
  lemma PerfEventsFields(events: seq<string>)
    requires forall i :: 0 <= i < |events| ==> ',' !in events[i]
    ensures Split(PerfEvents(events), ',') == events + ["cycles", "instructions"]
  {
    var all := events + ["cycles", "instructions"];
    forall i | 0 <= i < |all| ensures ',' !in all[i] {
      if i >= |events| { assert all[i] == "cycles" || all[i] == "instructions"; }
    }
    SplitJoin(all, ',');
  }

  // ---------------------------------------------------------------------------
  // Repeating a test until a deadline
  // ---------------------------------------------------------------------------

  /** `max(1, int((timeout_ms + 999) / 1000))`: whole seconds, rounded up, at least one. */
  function TimeoutSeconds(timeoutMs: int): (t: int)
    ensures t >= 1
    ensures timeoutMs <= 0 ==> t == 1
    ensures timeoutMs > 0 ==> (t - 1) * 1000 < timeoutMs <= t * 1000
  {
    var q := TruncDiv(timeoutMs + 999, 1000);
    if q > 1 then q else 1
  }

  /**
   * The bash script `_wrap_until_timeout` builds: each line indented by
   * `indent` spaces, `set -e`, a deadline `seconds` from now, and a loop
   * running `cmd` until the deadline passes.
   */
  function DeadlineScript(cmd: string, seconds: int, indent: nat): string {
    var pad := Repeat(' ', indent);
    "\n" + pad + "set -e\n"
    + pad + "end=$((SECONDS + " + IntToString(seconds) + "))\n"
    + pad + "while [ $SECONDS -lt $end ]; do\n"
    + pad + "  " + cmd + "\n"
    + pad + "done\n"
    + pad
  }

  /** `"bash -lc " + shlex.quote(script)`. */
  function BashCommand(script: string): string {
    "bash -lc " + ShlexQuote(script)
  }

  /** A script that starts with a newline goes to bash as one single-quoted word that reads back as the script. */
  lemma BashCommandRoundTrip(script: string)
    requires script != [] && script[0] == '\n'
    ensures var w := BashCommand(script);
      |w| > 9 && w[..9] == "bash -lc " && w[9] == '\'' && Dequote(w[9..]) == script
  {
    var w := BashCommand(script);
    assert !ShlexSafe(script[0]);
    assert w[9..] == ShlexQuote(script);
    ShlexRoundTrip(script);
  }

  /** `EnergyHandler._wrap_until_timeout`: the argv joined by spaces, in a script indented by 16. */
  function WrapUntilTimeout(argv: seq<string>, timeoutMs: int): string {
    BashCommand(DeadlineScript(Join(argv, " "), TimeoutSeconds(timeoutMs), 16))
  }

  /** The wrapped command hands bash the deadline script for the joined command, unchanged by quoting. */
  lemma WrapUntilTimeoutSpec(argv: seq<string>, timeoutMs: int)
    ensures var w := WrapUntilTimeout(argv, timeoutMs);
      |w| > 9 && w[..9] == "bash -lc "
      && Dequote(w[9..]) == DeadlineScript(Join(argv, " "), TimeoutSeconds(timeoutMs), 16)
  {
    BashCommandRoundTrip(DeadlineScript(Join(argv, " "), TimeoutSeconds(timeoutMs), 16));
  }

  // ---------------------------------------------------------------------------
  // The measurement loop
  // ---------------------------------------------------------------------------

  /** A test as the measuring code reads it: its name (possibly missing), its own timeout, its command. */
  datatype TestEntry = TestEntry(name: Option<string>, timeoutMs: Option<int>, cmd: string)

  /** How `test.get('name')` reads inside an f-string. */
  function NameText(t: TestEntry): string {
    match t.name
    case Some(n) => n
    case None => "None"
  }

  /** `<dir>/<commit>_<name>__<iteration>.csv`. */
  function OutPath(dir: string, commit: string, name: string, iteration: int): string {
    PathJoin(dir, commit + "_" + name + "__" + IntToString(iteration) + ".csv")
  }

  /** The output paths of iterations 0 to n - 1. */
  function OutPaths(dir: string, commit: string, name: string, n: nat): (r: seq<string>)
    ensures |r| == n && forall i :: 0 <= i < n ==> r[i] == OutPath(dir, commit, name, i)
  {
    seq(n, i => OutPath(dir, commit, name, i))
  }

  lemma PrefixCancel(a: string, x: string, y: string)
    requires a + x == a + y
    ensures x == y
  {
    assert x == (a + x)[|a|..];
  }

  lemma IntToStringInjective(m: int, n: int)
    requires IntToString(m) == IntToString(n)
    ensures m == n
  {
    IntToStringRoundTrip(m);
    IntToStringRoundTrip(n);
  }

  /** Joining one directory to two names that start alike gives different paths for different names. */
  lemma PathJoinInjective(dir: string, x: string, y: string)
    requires x != [] && y != [] && x[0] == y[0] && PathJoin(dir, x) == PathJoin(dir, y)
    ensures x == y
  {
    if StartsWith(x, "/") {
      assert StartsWith(y, "/");
    } else if dir == [] || EndsWith(dir, "/") {
      PrefixCancel(dir, x, y);
    } else {
      assert dir + "/" + x == (dir + "/") + x;
      assert dir + "/" + y == (dir + "/") + y;
      PrefixCancel(dir + "/", x, y);
    }
  }

  lemma NumberedNameInjective(a: string, m: int, n: int)
    requires a + IntToString(m) + ".csv" == a + IntToString(n) + ".csv"
    ensures m == n
  {
    var dm := IntToString(m);
    var dn := IntToString(n);
    assert a + dm + ".csv" == a + (dm + ".csv");
    assert a + dn + ".csv" == a + (dn + ".csv");
    PrefixCancel(a, dm + ".csv", dn + ".csv");
    assert dm == (dm + ".csv")[..|dm|];
    assert dn == (dn + ".csv")[..|dn|];
    IntToStringInjective(m, n);
  }

  /** Different iterations write different files. */
  lemma OutPathsDistinct(dir: string, commit: string, name: string, n: nat)
    ensures Distinct(OutPaths(dir, commit, name, n))
  {
    var outs := OutPaths(dir, commit, name, n);
    var a := commit + "_" + name + "__";
    forall i, j | 0 <= i < j < n ensures outs[i] != outs[j] {
      if outs[i] == outs[j] {
        var x := a + IntToString(i) + ".csv";
        var y := a + IntToString(j) + ".csv";
        assert x[0] == y[0] by { if commit != [] { assert x[0] == commit[0] == y[0]; } }
        PathJoinInjective(dir, x, y);
        NumberedNameInjective(a, i, j);
      }
    }
  }

  /** One `perf stat` run: the event list, the output file, and the wrapped test command. */
  datatype PerfRun = PerfRun(perfEvents: string, out: string, wrapped: string)

  /** Its argv: `perf stat -a -e <events> -x, --output <out> -- sh -c <wrapped>`. */
  function PerfArgv(run: PerfRun): (argv: seq<string>)
    ensures |argv| == 12 && argv[4] == run.perfEvents && argv[7] == run.out && argv[11] == run.wrapped
  {
    ["perf", "stat", "-a", "-e", run.perfEvents, "-x,", "--output", run.out, "--", "sh", "-c", run.wrapped]
  }

  /** The files after one run: the output perf wrote, if any, is removed again when the run failed. */
  function AfterRun(files: set<string>, out: string, exitCode: int, written: bool): set<string> {
    var present := if written then files + {out} else files;
    if exitCode != 0 then present - {out} else present
  }

  /** What one run does to the files: perf may write its output, and a failed run's output is removed if it exists. */
  method RecordRun(files: set<string>, out: string, exitCode: int, written: bool) returns (after: set<string>)
    ensures after == AfterRun(files, out, exitCode, written)
  {
    after := files;
    if written {
      after := after + {out};
    }
    if exitCode != 0 && out in after {
      after := after - {out};
    }
  }

  /** The files after the first `k` runs. */
  function AfterRuns(files: set<string>, outs: seq<string>, exits: seq<int>, written: seq<bool>, k: nat): set<string>
    requires k <= |outs| && k <= |exits| && k <= |written|
    decreases k
  {
    if k == 0 then files
    else AfterRun(AfterRuns(files, outs, exits, written, k - 1), outs[k - 1], exits[k - 1], written[k - 1])
  }

  /**
   * With one distinct file per run, a run's file remains exactly when the run
   * succeeded and its file was written (or was already there); every other
   * file is as it was.
   */
  lemma {:induction false} AfterRunsSpec(files: set<string>, outs: seq<string>, exits: seq<int>, written: seq<bool>, k: nat)
    requires k <= |outs| && k <= |exits| && k <= |written| && Distinct(outs)
    ensures forall i :: 0 <= i < k ==>
      (outs[i] in AfterRuns(files, outs, exits, written, k) <==> exits[i] == 0 && (written[i] || outs[i] in files))
    ensures forall p :: p !in outs[..k] ==> (p in AfterRuns(files, outs, exits, written, k) <==> p in files)
    decreases k
  {
    if k > 0 {
      AfterRunsSpec(files, outs, exits, written, k - 1);
      forall p | p !in outs[..k] ensures p !in outs[..k - 1] && p != outs[k - 1] {
        assert outs[..k] == outs[..k - 1] + [outs[k - 1]];
      }
      forall i | 0 <= i < k - 1 ensures outs[i] !in outs[..k - 1][..i] + outs[..k - 1][i + 1..] {
      }
      forall i | 0 <= i < k - 1
        ensures outs[i] in AfterRuns(files, outs, exits, written, k) <==> outs[i] in AfterRuns(files, outs, exits, written, k - 1)
      {
        assert outs[i] != outs[k - 1];
      }
      assert outs[k - 1] !in outs[..k - 1];
    }
  }

  /** The default number of iterations and per-iteration timeout of `measure_test`. */
  const DefaultIterations: int := 5
  const DefaultTimeoutMs: int := 5000

  /** The perf runs of iterations 0 to k - 1. */
  function Runs(perfEvents: string, dir: string, commit: string, name: string, wrapped: string, k: nat): (r: seq<PerfRun>)
    ensures |r| == k
    decreases k
  {
    if k == 0 then []
    else Runs(perfEvents, dir, commit, name, wrapped, k - 1) + [PerfRun(perfEvents, OutPath(dir, commit, name, k - 1), wrapped)]
  }

  /** Run `i` measures the same events and command, into the file numbered `i`. */
  lemma {:induction false} RunsAt(perfEvents: string, dir: string, commit: string, name: string, wrapped: string, k: nat, i: nat)
    requires i < k
    ensures Runs(perfEvents, dir, commit, name, wrapped, k)[i] == PerfRun(perfEvents, OutPath(dir, commit, name, i), wrapped)
    decreases k
  {
    if i < k - 1 {
      RunsAt(perfEvents, dir, commit, name, wrapped, k - 1, i);
    }
  }

  /** The progress lines of steps 0 to k - 1. */
  function BarLines(total: int, k: nat): (r: seq<string>)
    requires total != 0
    ensures |r| == k
    decreases k
  {
    if k == 0 then [] else BarLines(total, k - 1) + [BarLine(total, DefaultLength, k - 1)]
  }

  /**
   * The iteration loop of `EnergyHandler.measure_test` once its events,
   * directory and wrapped command are fixed: each of the runs happens, a
   * failed run only loses its output file, and a cool-down follows every run.
   */
  method RunAllIterations(perfEvents: string, dir: string, commit: string, name: string, wrapped: string,
                          iterations: int, exits: seq<int>, written: seq<bool>, files: set<string>)
    returns (runs: seq<PerfRun>, shown: seq<string>, after: set<string>, coolDowns: nat)
    requires |exits| == |written| == (if iterations > 0 then iterations else 0)
    ensures runs == Runs(perfEvents, dir, commit, name, wrapped, |exits|)
    ensures iterations != 0 ==> shown == BarLines(iterations, |exits|)
    ensures after == AfterRuns(files, OutPaths(dir, commit, name, |exits|), exits, written, |exits|)
    ensures coolDowns == |exits|
  {
    var pb := new ProgressBar(iterations, DefaultLength, 1);
    var n := |exits|;
    ghost var outs := OutPaths(dir, commit, name, n);
    runs, shown, after, coolDowns := [], [], files, 0;
    for iteration := 0 to n
      invariant runs == Runs(perfEvents, dir, commit, name, wrapped, iteration)
      invariant iterations != 0 ==> shown == BarLines(iterations, iteration)
      invariant after == AfterRuns(files, outs, exits, written, iteration)
      invariant coolDowns == iteration
    {
      var line := pb.Set(iteration);
      shown := shown + [line];
      var out := OutPath(dir, commit, name, iteration);
      runs := runs + [PerfRun(perfEvents, out, wrapped)];
      after := RecordRun(after, out, exits[iteration], written[iteration]);
      coolDowns := coolDowns + 1;
    }
  }

  /**
   * `EnergyHandler.measure_test`: every one of the `iterations` runs happens
   * (`range` of a non-positive count is empty), each under `perf stat` with
   * the same events and the same wrapped `make test`; a failed run only
   * loses its output file, and a cool-down follows every run. The test's own
   * "timeout_ms" overrides the argument. `exits[i]` and `written[i]` are the
   * status of run `i` and whether perf left its output file.
   */
  method MeasureTest(pkgEvent: EventArg, test: TestEntry, commit: string, outputDir: string,
                     iterations: int, timeoutMs: int, exits: seq<int>, written: seq<bool>, files: set<string>)
    returns (runs: seq<PerfRun>, shown: seq<string>, after: set<string>, coolDowns: nat)
    requires |exits| == |written| == (if iterations > 0 then iterations else 0)
    ensures runs == Runs(PerfEvents(NormalizeEvents(pkgEvent)), PathJoin(outputDir, "energy_measurements"), commit, NameText(test),
                         WrapUntilTimeout(TestArgv(NameText(test)), test.timeoutMs.GetOr(timeoutMs)), |exits|)
    ensures iterations != 0 ==> shown == BarLines(iterations, |exits|)
    ensures coolDowns == |exits|
    ensures after == AfterRuns(files, OutPaths(PathJoin(outputDir, "energy_measurements"), commit, NameText(test), |exits|), exits, written, |exits|)
  {
    var events := NormalizeEvents(pkgEvent);
    var perfEvents := PerfEvents(events);
    var dir := PathJoin(outputDir, "energy_measurements");
    var name := NameText(test);
    var wrapped := WrapUntilTimeout(TestArgv(name), test.timeoutMs.GetOr(timeoutMs));
    runs, shown, after, coolDowns := RunAllIterations(perfEvents, dir, commit, name, wrapped, iterations, exits, written, files);
  }
}
