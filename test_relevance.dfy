/**
 * Test relevance: which tests of a suite executed the files a fix commit
 * changed. The FFmpeg pipeline, the standalone test-compile script and the
 * OpenSSL pipeline write these pieces the same way, so they are modelled once:
 * the walk that turns `.gcda` coverage artifacts into source paths, the
 * `git diff-tree --name-only` listing, the `make fate-list` listing, the
 * resumable pass over the vulnerable commit's suite, and the rows the pass over
 * the fixed commit's suite emits.
 *
 * A dict the scripts iterate is an association list in insertion order
 * (`Results`); a set whose iteration order reaches the output is a
 * duplicate-free `seq`; a set only tested for membership is a `set`.
 */
module TestRelevance {
  import opened Wrappers
  import opened PyStr

  // ---------------------------------------------------------------------------
  // Coverage artifacts
  // ---------------------------------------------------------------------------

  /** A file met by `os.walk`: its directory relative to the walk root ("." for the root) and its name. */
  datatype WalkEntry = WalkEntry(relDir: string, name: string)

  predicate IsGcda(e: WalkEntry) {
    EndsWith(e.name, ".gcda")
  }

  /** The source a coverage artifact stands for: ".gcda" becomes ".c", under its directory unless that is the root. */
  function GcdaSource(e: WalkEntry): string {
    var source := Replace(e.name, ".gcda", ".c");
    if e.relDir == "." then source else PathJoin(e.relDir, source)
  }

  /** In `stem + ".gcda"` the only occurrence of ".gcda" is the suffix when the stem has none. */
  lemma {:induction false} ReplaceGcdaSuffix(stem: string)
    requires !Contains(stem, ".gcda")
    ensures Replace(stem + ".gcda", ".gcda", ".c") == stem + ".c"
    decreases |stem|
  {
    var s := stem + ".gcda";
    if stem == [] {
      assert s[..5] == ".gcda" && s[5..] == [];
    } else {
      if |stem| < 5 {
        // ".gcda" has no '.' after its first character, so no match can start inside the stem
        assert s[..5][|stem|] == '.';
      } else {
        assert s[..5] == stem[..5];
      }
      assert s[1..] == stem[1..] + ".gcda";
      ReplaceGcdaSuffix(stem[1..]);
      assert [stem[0]] + stem[1..] + ".c" == stem + ".c";
    }
  }

  /** The artifact `stem.gcda` stands for `stem.c`, bare at the root and joined to its directory elsewhere. */
  lemma GcdaSourceOfStem(dir: string, stem: string)
    requires !Contains(stem, ".gcda")
    ensures IsGcda(WalkEntry(dir, stem + ".gcda"))
    ensures GcdaSource(WalkEntry(dir, stem + ".gcda"))
         == if dir == "." then stem + ".c" else PathJoin(dir, stem + ".c")
  {
    ReplaceGcdaSuffix(stem);
  }

  /** The covered sources found in a walk. */
  function CoveredFiles(walk: seq<WalkEntry>): set<string>
    decreases |walk|
  {
    if walk == [] then {}
    else
      var e := walk[|walk| - 1];
      CoveredFiles(walk[..|walk| - 1]) + (if IsGcda(e) then {GcdaSource(e)} else {})
  }

  /** The walk entry `e` is a coverage artifact for the source `p`. */
  predicate StandsFor(e: WalkEntry, p: string) {
    IsGcda(e) && GcdaSource(e) == p
  }

  /** A path is covered exactly when some `.gcda` entry of the walk stands for it. */
  lemma {:induction false} CoveredFilesMembers(walk: seq<WalkEntry>, p: string)
    ensures p in CoveredFiles(walk) <==> exists i :: 0 <= i < |walk| && StandsFor(walk[i], p)
    decreases |walk|
  {
    if walk != [] {
      var init := walk[..|walk| - 1];
      CoveredFilesMembers(init, p);
      if p in CoveredFiles(init) {
        var i :| 0 <= i < |init| && StandsFor(init[i], p);
        assert walk[i] == init[i];
      }
      if exists i :: 0 <= i < |walk| && StandsFor(walk[i], p) {
        var i :| 0 <= i < |walk| && StandsFor(walk[i], p);
        if i < |init| {
          assert init[i] == walk[i];
        }
      }
    }
  }

  /** `get_covered_files`: every `.gcda` of the walk, as the source it stands for. */
  method GetCoveredFiles(walk: seq<WalkEntry>) returns (covered: set<string>)
    ensures covered == CoveredFiles(walk)
  {
    covered := {};
    for k := 0 to |walk|
      invariant covered == CoveredFiles(walk[..k])
    {
      assert walk[..k + 1][..k] == walk[..k];
      if IsGcda(walk[k]) {
        covered := covered + {GcdaSource(walk[k])};
      }
    }
    assert walk[..|walk|] == walk;
  }

  // ---------------------------------------------------------------------------
  // Listings printed by git and make
  // ---------------------------------------------------------------------------

  /** `{f for f in stdout.strip().split('\n') if f}`: the paths git printed. */
  function DiffFiles(stdout: string): (r: set<string>)
    ensures "" !in r
    ensures forall f :: f in r ==> '\n' !in f
  {
    set f | f in Split(Strip(stdout), '\n') && f != ""
  }

  /** Paths printed one per line, each ended by a newline, come back as exactly those paths. */
  lemma DiffFilesOfListing(paths: seq<string>)
    requires paths != []
    requires forall i :: 0 <= i < |paths| ==>
      paths[i] != [] && '\n' !in paths[i] && !IsSpace(paths[i][0]) && !IsSpace(paths[i][|paths[i]| - 1])
    ensures DiffFiles(Join(paths, "\n") + "\n") == set i | 0 <= i < |paths| :: paths[i]
  {
    var listing := Join(paths, "\n");
    JoinEnds(paths, "\n");
    StripNewline(listing);
    SplitJoin(paths, '\n');
  }

  /** `[l.strip() for l in lines if l.strip().startswith("fate-")]`. */
  function FateNames(lines: seq<string>): (r: seq<string>)
    ensures |r| <= |lines|
    ensures forall i :: 0 <= i < |r| ==> StartsWith(r[i], "fate-") && !IsSpace(r[i][|r[i]| - 1])
    decreases |lines|
  {
    if lines == [] then []
    else
      var t := Strip(lines[|lines| - 1]);
      FateNames(lines[..|lines| - 1]) + (if StartsWith(t, "fate-") then [t] else [])
  }

  /** The listing is a filter: it keeps the order of the lines and distributes over concatenation. */
  lemma {:induction false} FateNamesAppend(a: seq<string>, b: seq<string>)
    ensures FateNames(a + b) == FateNames(a) + FateNames(b)
    decreases |b|
  {
    if b == [] {
      assert a + b == a;
    } else {
      assert (a + b)[..|a + b| - 1] == a + b[..|b| - 1];
      FateNamesAppend(a, b[..|b| - 1]);
    }
  }

  /** `s[:n]` for a Python int `n`, negative values counting from the end. */
  function PrefixSlice(s: seq<string>, n: int): (r: seq<string>)
    ensures |r| <= |s| && r == s[..|r|]
    ensures 0 <= n ==> |r| == if n < |s| then n else |s|
    ensures n < 0 ==> |r| == if |s| + n > 0 then |s| + n else 0
  {
    var k := if n >= 0 then (if n < |s| then n else |s|) else (if |s| + n > 0 then |s| + n else 0);
    s[..k]
  }

  /**
   * `get_fate_tests`: the names `make fate-list` printed, cut to the limit when
   * one is set; a limit of 0 is falsy in Python and counts as unset.
   */
  function FateTests(stdout: string, limit: Option<int>): (r: seq<string>)
    ensures forall i :: 0 <= i < |r| ==> StartsWith(r[i], "fate-")
    ensures |r| <= |FateNames(Split(stdout, '\n'))|
    ensures r == FateNames(Split(stdout, '\n'))[..|r|]
    ensures (limit.None? || limit.value == 0) ==> |r| == |FateNames(Split(stdout, '\n'))|
    ensures limit.Some? && limit.value > 0 ==> |r| <= limit.value
  {
    var tests := FateNames(Split(stdout, '\n'));
    if limit.Some? && limit.value != 0 then PrefixSlice(tests, limit.value) else tests
  }

  // ---------------------------------------------------------------------------
  // The pass over the vulnerable commit
  // ---------------------------------------------------------------------------

  /** The dict from test name to the target files it covered, in insertion order. */
  type Results = seq<(string, set<string>)>

  /**
   * The JSON checkpoint of the vulnerable-commit pass: its "status" and its
   * "results"; a missing file or key reads as `None` or as no results.
   */
  datatype Checkpoint = Checkpoint(status: Option<string>, results: Results)

  predicate IsComplete(c: Checkpoint) {
    c.status == Some("COMPLETE")
  }

  function Keys(d: Results): set<string>
    decreases |d|
  {
    if d == [] then {} else Keys(d[..|d| - 1]) + {d[|d| - 1].0}
  }

  predicate DistinctKeys(d: Results) {
    forall i, j :: 0 <= i < j < |d| ==> d[i].0 != d[j].0
  }

  /** `d[t]` for a present key and the empty set otherwise, so `t in d and f in d[t]` is `f in Get(d, t)`. */
  function Get(d: Results, t: string): set<string>
    decreases |d|
  {
    if d == [] then {} else if d[|d| - 1].0 == t then d[|d| - 1].1 else Get(d[..|d| - 1], t)
  }

  lemma {:induction false} KeysMembers(d: Results, t: string)
    ensures t in Keys(d) <==> exists i :: 0 <= i < |d| && d[i].0 == t
    decreases |d|
  {
    if d != [] {
      var init := d[..|d| - 1];
      KeysMembers(init, t);
      if t in Keys(init) {
        var i :| 0 <= i < |init| && init[i].0 == t;
        assert d[i] == init[i];
      }
      if exists i :: 0 <= i < |d| && d[i].0 == t {
        var i :| 0 <= i < |d| && d[i].0 == t;
        if i < |init| {
          assert init[i] == d[i];
        }
      }
    }
  }

  /** With distinct keys, looking an entry's key up gives that entry's value. */
  lemma {:induction false} GetEntry(d: Results, i: nat)
    requires DistinctKeys(d) && i < |d|
    ensures Get(d, d[i].0) == d[i].1
    decreases |d|
  {
    if i < |d| - 1 {
      var init := d[..|d| - 1];
      assert init[i] == d[i];
      GetEntry(init, i);
    }
  }

  /** The target files a test covered: `[f for f in covered if f in target_files]`, as a set. */
  function Relevant(walk: seq<WalkEntry>, targets: set<string>): set<string> {
    CoveredFiles(walk) * targets
  }

  /** One test of the pass: a cached test is skipped; otherwise it is recorded iff it covered a target. */
  function Remember(d: Results, t: string, relevant: set<string>): Results {
    if t in Keys(d) || relevant == {} then d else d + [(t, relevant)]
  }

  /** The results after the first `k` tests of the suite, starting from the cached ones. */
  function VulnAfter(cached: Results, suite: seq<string>, runs: seq<seq<WalkEntry>>, targets: set<string>, k: nat): Results
    requires |runs| == |suite| && k <= |suite|
  {
    if k == 0 then cached
    else Remember(VulnAfter(cached, suite, runs, targets, k - 1), suite[k - 1], Relevant(runs[k - 1], targets))
  }

  /**
   * The test loop of the vulnerable-commit pass: `runs[i]` is the walk taken
   * after running `suite[i]` with fresh coverage counters.
   */
  method RunVulnTests(cached: Results, suite: seq<string>, runs: seq<seq<WalkEntry>>, targets: set<string>)
    returns (results: Results)
    requires |runs| == |suite|
    ensures results == VulnAfter(cached, suite, runs, targets, |suite|)
  {
    results := cached;
    for k := 0 to |suite|
      invariant results == VulnAfter(cached, suite, runs, targets, k)
    {
      var name := suite[k];
      if name !in Keys(results) {
        var covered := GetCoveredFiles(runs[k]);
        var relevant := covered * targets;
        if relevant != {} {
          results := results + [(name, relevant)];
        }
      }
    }
  }

  lemma KeysOfRemember(d: Results, t: string, relevant: set<string>)
    ensures Keys(Remember(d, t, relevant)) == Keys(d) + (if relevant == {} then {} else {t})
  {
    if t !in Keys(d) && relevant != {} {
      assert (d + [(t, relevant)])[..|d|] == d;
    }
  }

  /** Keys are never dropped: the results after `j` tests hold every key of those after `k <= j`. */
  lemma {:induction false} KeysGrow(cached: Results, suite: seq<string>, runs: seq<seq<WalkEntry>>, targets: set<string>, k: nat, j: nat)
    requires |runs| == |suite| && k <= j <= |suite|
    ensures Keys(VulnAfter(cached, suite, runs, targets, k)) <= Keys(VulnAfter(cached, suite, runs, targets, j))
    decreases j
  {
    if k < j {
      KeysGrow(cached, suite, runs, targets, k, j - 1);
      KeysOfRemember(VulnAfter(cached, suite, runs, targets, j - 1), suite[j - 1], Relevant(runs[j - 1], targets));
    }
  }

  /** A test that covered a target is in the results from its own step on. */
  lemma RecordedWhenRelevant(cached: Results, suite: seq<string>, runs: seq<seq<WalkEntry>>, targets: set<string>, i: nat, k: nat)
    requires |runs| == |suite| && i < k <= |suite| && Relevant(runs[i], targets) != {}
    ensures suite[i] in Keys(VulnAfter(cached, suite, runs, targets, k))
  {
    KeysOfRemember(VulnAfter(cached, suite, runs, targets, i), suite[i], Relevant(runs[i], targets));
    KeysGrow(cached, suite, runs, targets, i + 1, k);
  }

  /** The cached entries stay first and unchanged: results only grow at the end. */
  lemma {:induction false} VulnAfterKeepsCached(cached: Results, suite: seq<string>, runs: seq<seq<WalkEntry>>, targets: set<string>, k: nat)
    requires |runs| == |suite| && k <= |suite|
    ensures |cached| <= |VulnAfter(cached, suite, runs, targets, k)|
    ensures VulnAfter(cached, suite, runs, targets, k)[..|cached|] == cached
    decreases k
  {
    if k > 0 {
      var prev := VulnAfter(cached, suite, runs, targets, k - 1);
      VulnAfterKeepsCached(cached, suite, runs, targets, k - 1);
      var rel := Relevant(runs[k - 1], targets);
      if suite[k - 1] !in Keys(prev) && rel != {} {
        assert (prev + [(suite[k - 1], rel)])[..|cached|] == prev[..|cached|];
      }
    }
  }

  /** A dict never holds a key twice, and the pass keeps it so. */
  lemma {:induction false} VulnAfterDistinct(cached: Results, suite: seq<string>, runs: seq<seq<WalkEntry>>, targets: set<string>, k: nat)
    requires |runs| == |suite| && k <= |suite| && DistinctKeys(cached)
    ensures DistinctKeys(VulnAfter(cached, suite, runs, targets, k))
    decreases k
  {
    if k > 0 {
      var prev := VulnAfter(cached, suite, runs, targets, k - 1);
      VulnAfterDistinct(cached, suite, runs, targets, k - 1);
      var t := suite[k - 1];
      var rel := Relevant(runs[k - 1], targets);
      if t !in Keys(prev) && rel != {} {
        var r := prev + [(t, rel)];
        forall i, j | 0 <= i < j < |r|
          ensures r[i].0 != r[j].0
        {
          if j == |prev| {
            KeysMembers(prev, r[i].0);
          }
        }
      }
    }
  }

  /** An entry the pass added after the cached ones: a test of the first `k`, with the non-empty set of targets it covered. */
  predicate AddedEntry(e: (string, set<string>), cached: Results, suite: seq<string>, runs: seq<seq<WalkEntry>>, targets: set<string>, k: nat)
    requires |runs| == |suite| && k <= |suite|
  {
    e.0 !in Keys(cached) && e.1 != {} && e.1 <= targets
    && exists i :: 0 <= i < k && suite[i] == e.0 && e.1 == Relevant(runs[i], targets)
  }

  /** Every entry after the cached ones was recorded by the pass, for a test that covered a target. */
  lemma {:induction false} VulnAfterAdded(cached: Results, suite: seq<string>, runs: seq<seq<WalkEntry>>, targets: set<string>, k: nat)
    requires |runs| == |suite| && k <= |suite|
    ensures forall j :: |cached| <= j < |VulnAfter(cached, suite, runs, targets, k)| ==>
      AddedEntry(VulnAfter(cached, suite, runs, targets, k)[j], cached, suite, runs, targets, k)
    decreases k
  {
    if k > 0 {
      var prev := VulnAfter(cached, suite, runs, targets, k - 1);
      VulnAfterAdded(cached, suite, runs, targets, k - 1);
      KeysGrow(cached, suite, runs, targets, 0, k - 1);
      var t := suite[k - 1];
      var rel := Relevant(runs[k - 1], targets);
      var r := VulnAfter(cached, suite, runs, targets, k);
      forall j | |cached| <= j < |r|
        ensures AddedEntry(r[j], cached, suite, runs, targets, k)
      {
        if j < |prev| {
          assert r[j] == prev[j];
          assert AddedEntry(prev[j], cached, suite, runs, targets, k - 1);
        } else {
          assert r[j] == (t, rel);
        }
      }
    }
  }

  /** Before step `k`, a test missing from the results after step `k` covered no target. */
  lemma SkippedBeforeResume(cached: Results, suite: seq<string>, runs: seq<seq<WalkEntry>>, targets: set<string>, i: nat, k: nat)
    requires |runs| == |suite| && i < k <= |suite|
    ensures suite[i] in Keys(VulnAfter(cached, suite, runs, targets, k)) || Relevant(runs[i], targets) == {}
  {
    if Relevant(runs[i], targets) != {} {
      RecordedWhenRelevant(cached, suite, runs, targets, i, k);
    }
  }

  /**
   * Resuming from the checkpoint saved after any number of tests gives what
   * an uninterrupted pass gives, because every step saves the results so far.
   */
  lemma ResumeMatchesFullRun(cached: Results, suite: seq<string>, runs: seq<seq<WalkEntry>>, targets: set<string>, k: nat)
    requires |runs| == |suite| && k <= |suite|
    ensures VulnAfter(VulnAfter(cached, suite, runs, targets, k), suite, runs, targets, |suite|)
         == VulnAfter(cached, suite, runs, targets, |suite|)
  {
    ResumePrefix(cached, suite, runs, targets, k, |suite|);
  }

  /** Replaying the tests before the checkpoint changes nothing: each was recorded or covered no target. */
  lemma {:induction false} ReplayBeforeCheckpoint(cached: Results, suite: seq<string>, runs: seq<seq<WalkEntry>>, targets: set<string>, k: nat, j: nat)
    requires |runs| == |suite| && j <= k <= |suite|
    ensures VulnAfter(VulnAfter(cached, suite, runs, targets, k), suite, runs, targets, j) == VulnAfter(cached, suite, runs, targets, k)
    decreases j
  {
    if j > 0 {
      ReplayBeforeCheckpoint(cached, suite, runs, targets, k, j - 1);
      SkippedBeforeResume(cached, suite, runs, targets, j - 1, k);
    }
  }

  /** After the checkpoint the resumed pass takes the same steps as the uninterrupted one. */
  lemma {:induction false} ResumePrefix(cached: Results, suite: seq<string>, runs: seq<seq<WalkEntry>>, targets: set<string>, k: nat, j: nat)
    requires |runs| == |suite| && k <= j <= |suite|
    ensures VulnAfter(VulnAfter(cached, suite, runs, targets, k), suite, runs, targets, j) == VulnAfter(cached, suite, runs, targets, j)
    decreases j
  {
    if j == k {
      ReplayBeforeCheckpoint(cached, suite, runs, targets, k, k);
    } else {
      ResumePrefix(cached, suite, runs, targets, k, j - 1);
    }
  }

  // ---------------------------------------------------------------------------
  // The pass over the fixed commit
  // ---------------------------------------------------------------------------

  /** A set of targets, listed in the order the set is iterated. */
  predicate Enumerates(order: seq<string>, targets: set<string>) {
    (forall t :: t in targets ==> t in order)
    && (forall i :: 0 <= i < |order| ==> order[i] in targets)
    && forall i, j :: 0 <= i < j < |order| ==> order[i] != order[j]
  }

  /** The per-test columns of a coverage CSV row; project and commit columns are constant per pair. */
  datatype CoverageRow = CoverageRow(vulnTest: string, fixTest: string, source: string)

  /** The header of the coverage CSV. */
  const Header: seq<string> := ["project", "vuln_commit", "v_testname", "fix_commit", "f_testname", "sourcefile"]

  /** The CSV records of some rows of one commit pair, in order. */
  function CsvRecords(project: string, vulnCommit: string, fixCommit: string, rows: seq<CoverageRow>): (r: seq<seq<string>>)
    ensures |r| == |rows|
    ensures forall i :: 0 <= i < |rows| ==> |r[i]| == |Header| && r[i][2] == rows[i].vulnTest && r[i][4] == rows[i].fixTest && r[i][5] == rows[i].source
  {
    seq(|rows|, i requires 0 <= i < |rows| => [project, vulnCommit, rows[i].vulnTest, fixCommit, rows[i].fixTest, rows[i].source])
  }

  /** The rows of one fix-suite test over the first `j` targets. */
  function TestRows(t: string, vuln: Results, covered: set<string>, targets: seq<string>, j: nat): (r: seq<CoverageRow>)
    requires j <= |targets|
    ensures |r| <= j
  {
    if j == 0 then []
    else
      var target := targets[j - 1];
      var v := target in Get(vuln, t);
      var f := target in covered;
      TestRows(t, vuln, covered, targets, j - 1)
        + (if v || f then [CoverageRow(if v then t else "", if f then t else "", target)] else [])
  }

  /**
   * A test gives a row for a target exactly when either side covered it, with
   * the test's name on each side that covered the target and "" on the other.
   */
  lemma {:induction false} TestRowsMembers(t: string, vuln: Results, covered: set<string>, targets: seq<string>, j: nat, row: CoverageRow)
    requires j <= |targets|
    ensures row in TestRows(t, vuln, covered, targets, j) <==>
      row.source in targets[..j]
      && (row.source in Get(vuln, t) || row.source in covered)
      && row.vulnTest == (if row.source in Get(vuln, t) then t else "")
      && row.fixTest == (if row.source in covered then t else "")
    decreases j
  {
    if j > 0 {
      TestRowsMembers(t, vuln, covered, targets, j - 1, row);
      assert targets[..j] == targets[..j - 1] + [targets[j - 1]];
    }
  }

  /** The rows of the first `k` tests of the fix suite. */
  function FixRows(suite: seq<string>, runs: seq<seq<WalkEntry>>, vuln: Results, targets: seq<string>, k: nat): seq<CoverageRow>
    requires |runs| == |suite| && k <= |suite|
  {
    if k == 0 then []
    else FixRows(suite, runs, vuln, targets, k - 1) + TestRows(suite[k - 1], vuln, CoveredFiles(runs[k - 1]), targets, |targets|)
  }

  lemma InOnePart<T>(x: T, a: seq<T>, b: seq<T>)
    requires x in a + b && x !in b
    ensures x in a
  {
  }

  /** Every row of the first `k` fix tests comes from one of them: returns which. */
  lemma {:induction false} FixRowsSource(suite: seq<string>, runs: seq<seq<WalkEntry>>, vuln: Results, targets: seq<string>, k: nat, row: CoverageRow)
    returns (i: nat)
    requires |runs| == |suite| && k <= |suite|
    requires row in FixRows(suite, runs, vuln, targets, k)
    ensures i < k && row in TestRows(suite[i], vuln, CoveredFiles(runs[i]), targets, |targets|)
    decreases k
  {
    assert k != 0;
    var last := TestRows(suite[k - 1], vuln, CoveredFiles(runs[k - 1]), targets, |targets|);
    var prev := FixRows(suite, runs, vuln, targets, k - 1);
    assert FixRows(suite, runs, vuln, targets, k) == prev + last;
    if row in last {
      i := k - 1;
    } else {
      assert row in prev by { InOnePart(row, prev, last); }
      i := FixRowsSource(suite, runs, vuln, targets, k - 1, row);
    }
  }

  /** The rows of a cached vuln test over the first `j` targets: one per target it covered, with no fix-side name. */
  function VulnOnlyRows(t: string, coveredFiles: set<string>, targets: seq<string>, j: nat): seq<CoverageRow>
    requires j <= |targets|
  {
    if j == 0 then []
    else
      var target := targets[j - 1];
      VulnOnlyRows(t, coveredFiles, targets, j - 1) + (if target in coveredFiles then [CoverageRow(t, "", target)] else [])
  }

  /** The rows of the first `k` cached vuln tests that the fix suite did not run. */
  function LeftoverRows(vuln: Results, processed: set<string>, targets: seq<string>, k: nat): seq<CoverageRow>
    requires k <= |vuln|
  {
    if k == 0 then []
    else
      LeftoverRows(vuln, processed, targets, k - 1)
        + (if vuln[k - 1].0 in processed then [] else VulnOnlyRows(vuln[k - 1].0, vuln[k - 1].1, targets, |targets|))
  }

  /** A vuln test the fix suite did not run is reported as if it covered nothing at the fix commit. */
  lemma {:induction false} VulnOnlyAsUncovered(vuln: Results, i: nat, targets: seq<string>, j: nat)
    requires DistinctKeys(vuln) && i < |vuln| && j <= |targets|
    ensures VulnOnlyRows(vuln[i].0, vuln[i].1, targets, j) == TestRows(vuln[i].0, vuln, {}, targets, j)
    decreases j
  {
    GetEntry(vuln, i);
    if j > 0 {
      VulnOnlyAsUncovered(vuln, i, targets, j - 1);
    }
  }

  /** Every row of the fix pass: those of the fix suite in order, then those of the cached tests it never ran. */
  function FixPassRows(suite: seq<string>, runs: seq<seq<WalkEntry>>, vuln: Results, targets: seq<string>): seq<CoverageRow>
    requires |runs| == |suite|
  {
    FixRows(suite, runs, vuln, targets, |suite|) + LeftoverRows(vuln, (set t | t in suite), targets, |vuln|)
  }

  /**
   * The test loops of the fixed-commit pass: `runs[i]` is the walk after
   * running `suite[i]`; `targets` is the changed files in iteration order.
   */
  method RunFixTests(suite: seq<string>, runs: seq<seq<WalkEntry>>, vuln: Results, targets: seq<string>)
    returns (rows: seq<CoverageRow>)
    requires |runs| == |suite|
    ensures rows == FixPassRows(suite, runs, vuln, targets)
  {
    var processed;
    rows, processed := SuiteLoop(suite, runs, vuln, targets);
    var leftover := LeftoverLoop(vuln, processed, targets);
    rows := rows + leftover;
  }

  /** The loop over the fix suite, which also collects the names it ran. */
  method SuiteLoop(suite: seq<string>, runs: seq<seq<WalkEntry>>, vuln: Results, targets: seq<string>)
    returns (rows: seq<CoverageRow>, processed: set<string>)
    requires |runs| == |suite|
    ensures rows == FixRows(suite, runs, vuln, targets, |suite|)
    ensures processed == set t | t in suite
  {
    rows := [];
    processed := {};
    for k := 0 to |suite|
      invariant rows == FixRows(suite, runs, vuln, targets, k)
      invariant processed == set t | t in suite[..k]
    {
      var name := suite[k];
      processed := processed + {name};
      var covered := GetCoveredFiles(runs[k]);
      var testRows := TargetLoop(name, vuln, covered, targets);
      rows := rows + testRows;
      assert suite[..k + 1] == suite[..k] + [name];
    }
    assert suite[..|suite|] == suite;
  }

  /** The loop over the cached vuln tests that the fix suite did not run. */
  method LeftoverLoop(vuln: Results, processed: set<string>, targets: seq<string>) returns (rows: seq<CoverageRow>)
    ensures rows == LeftoverRows(vuln, processed, targets, |vuln|)
  {
    rows := [];
    for k := 0 to |vuln|
      invariant rows == LeftoverRows(vuln, processed, targets, k)
    {
      var more := [];
      if vuln[k].0 !in processed {
        more := VulnOnlyLoop(vuln[k].0, vuln[k].1, targets);
      }
      LeftoverStep(vuln, processed, targets, k);
      rows := rows + more;
    }
  }

  lemma LeftoverStep(vuln: Results, processed: set<string>, targets: seq<string>, k: nat)
    requires k < |vuln|
    ensures LeftoverRows(vuln, processed, targets, k + 1) == LeftoverRows(vuln, processed, targets, k)
      + (if vuln[k].0 in processed then [] else VulnOnlyRows(vuln[k].0, vuln[k].1, targets, |targets|))
  {
  }

  /** The inner loop over the targets for one fix-suite test. */
  method TargetLoop(t: string, vuln: Results, covered: set<string>, targets: seq<string>) returns (rows: seq<CoverageRow>)
    ensures rows == TestRows(t, vuln, covered, targets, |targets|)
  {
    rows := [];
    for j := 0 to |targets|
      invariant rows == TestRows(t, vuln, covered, targets, j)
    {
      var target := targets[j];
      var v := target in Get(vuln, t);
      var f := target in covered;
      if v || f {
        rows := rows + [CoverageRow(if v then t else "", if f then t else "", target)];
      }
    }
  }

  /** The inner loop over the targets for one cached vuln test the fix suite never ran. */
  method VulnOnlyLoop(t: string, coveredFiles: set<string>, targets: seq<string>) returns (rows: seq<CoverageRow>)
    ensures rows == VulnOnlyRows(t, coveredFiles, targets, |targets|)
  {
    rows := [];
    for j := 0 to |targets|
      invariant rows == VulnOnlyRows(t, coveredFiles, targets, j)
    {
      if targets[j] in coveredFiles {
        rows := rows + [CoverageRow(t, "", targets[j])];
      }
    }
  }
}
