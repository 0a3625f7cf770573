/**
 * The aggregated-coverage filter: for every (project, fix commit) row of
 * the dataset, build the fix with coverage flags (autotools and the
 * project's test target, or a CMake build when that fails), collect the
 * source names whose gcov report shows an executed line, and write one CSV
 * line per changed file whose basename is among them.
 *
 * Processes are an oracle from argv to exit status, per commit; the `.gcov`
 * files present after gcov ran and the output of `git diff-tree` are part of
 * the same per-commit oracle.
 */
module FilteringTests {
  import opened Wrappers
  import opened PyStr
  import TestRelevance

  type Argv = seq<string>

  // ---------------------------------------------------------------------------
  // Building
  // ---------------------------------------------------------------------------

  /** What a checked-out fix commit offers the script. */
  datatype Checkout = Checkout(
    repoExists: bool,
    hasBuildconf: bool,
    hasAutogen: bool,
    rc: Argv -> int,
    gcovFiles: seq<GcovFile>,
    diffTree: Option<string>)

  /** The script that generates `configure`: buildconf, else autogen.sh, else autoreconf. */
  function GenerateCmd(c: Checkout): Argv {
    if c.hasBuildconf then ["./buildconf"]
    else if c.hasAutogen then ["./autogen.sh"]
    else ["autoreconf", "-fi"]
  }

  /** Only an autoreconf failure is swallowed. */
  predicate GenerateMayFail(c: Checkout) {
    !c.hasBuildconf && !c.hasAutogen
  }

  function ConfigureCmd(project: string): Argv {
    if project == "curl" then ["./configure", "--disable-shared", "--with-openssl", "--disable-threaded-resolver"]
    else ["./configure", "--disable-shared"]
  }

  const MakeCmd: Argv := ["make", "-j4"]

  /** The test target: curl's non-flaky suite, `test` for every other project. */
  function TestTarget(project: string): string {
    if project == "curl" then "test-nonflaky" else "test"
  }

  /** `build_with_autotools` followed by `make <target>`. */
  function AutotoolsSteps(project: string, c: Checkout): (r: seq<Argv>)
    ensures |r| == 4 && r[3] == ["make", TestTarget(project)]
  {
    [GenerateCmd(c), ConfigureCmd(project), MakeCmd, ["make", TestTarget(project)]]
  }

  const GitClean: Argv := ["git", "clean", "-fdx"]
  const CMakeSteps: seq<Argv> := [["cmake", "..", "-DCMAKE_BUILD_TYPE=Debug"], ["cmake", "--build", "."]]

  /**
   * The index of the first step that raises: one that fails, except a
   * failing first step when its failure is swallowed; |steps| when none does.
   */
  function Raising(steps: seq<Argv>, rc: Argv -> int, swallowFirst: bool): (k: nat)
    ensures k <= |steps|
    ensures forall i :: 0 <= i < k ==> rc(steps[i]) == 0 || (i == 0 && swallowFirst)
    ensures k < |steps| ==> rc(steps[k]) != 0 && !(k == 0 && swallowFirst)
    decreases |steps|
  {
    if steps == [] then 0
    else if rc(steps[0]) != 0 && !swallowFirst then 0
    else 1 + Raising(steps[1..], rc, false)
  }

  /** The steps that run up to and including the one that raises. */
  function RunSteps(steps: seq<Argv>, rc: Argv -> int, swallowFirst: bool): (r: seq<Argv>) {
    var k := Raising(steps, rc, swallowFirst);
    if k < |steps| then steps[..k + 1] else steps
  }

  /**
   * Build and test a checked-out commit: the commands run, after the forced
   * checkout and clean, and whether the row survives (the autotools route or
   * the CMake fallback completed without raising).
   */
  function BuildAndTest(project: string, fix: string, c: Checkout): (r: (seq<Argv>, bool))
  {
    var prelude: seq<Argv> := [["git", "checkout", "-f", fix], GitClean];
    var auto := AutotoolsSteps(project, c);
    var k := Raising(auto, c.rc, GenerateMayFail(c));
    if k == |auto| then (prelude + auto, true)
    else (prelude + RunSteps(auto, c.rc, GenerateMayFail(c)) + [GitClean] + RunSteps(CMakeSteps, c.rc, false),
          Raising(CMakeSteps, c.rc, false) == |CMakeSteps|)
  }

  /**
   * The generator is chosen by precedence and runs right after the
   * checkout; when neither buildconf nor autogen.sh exists, autoreconf's
   * exit status makes no difference to anything the row does.
   */
  lemma GeneratorPrecedence(project: string, fix: string, c: Checkout, autoreconfRc: int)
    ensures BuildAndTest(project, fix, c).0[2] == GenerateCmd(c)
    ensures GenerateCmd(c) == ["./buildconf"] <==> c.hasBuildconf
    ensures GenerateCmd(c) == ["./autogen.sh"] <==> !c.hasBuildconf && c.hasAutogen
    ensures GenerateMayFail(c) ==>
      var c' := c.(rc := (a: Argv) => if a == ["autoreconf", "-fi"] then autoreconfRc else c.rc(a));
      BuildAndTest(project, fix, c') == BuildAndTest(project, fix, c)
  {
    GenerateRunsThird(project, fix, c);
    if GenerateMayFail(c) {
      AutoreconfRcIgnored(project, fix, c, autoreconfRc);
    }
  }

  lemma GenerateRunsThird(project: string, fix: string, c: Checkout)
    ensures BuildAndTest(project, fix, c).0[2] == GenerateCmd(c)
  {
    var auto := AutotoolsSteps(project, c);
    var prelude: seq<Argv> := [["git", "checkout", "-f", fix], GitClean];
    var k := Raising(auto, c.rc, GenerateMayFail(c));
    if k < |auto| {
      var run := RunSteps(auto, c.rc, GenerateMayFail(c));
      assert run[0] == auto[0];
      assert (prelude + run + [GitClean] + RunSteps(CMakeSteps, c.rc, false))[2] == run[0];
    } else {
      assert (prelude + auto)[2] == auto[0];
    }
  }

  /** With autoreconf as the generator, its exit status changes nothing. */
  lemma AutoreconfRcIgnored(project: string, fix: string, c: Checkout, autoreconfRc: int)
    requires GenerateMayFail(c)
    ensures var c' := c.(rc := (a: Argv) => if a == ["autoreconf", "-fi"] then autoreconfRc else c.rc(a));
      BuildAndTest(project, fix, c') == BuildAndTest(project, fix, c)
  {
    var auto := AutotoolsSteps(project, c);
    var c' := c.(rc := (a: Argv) => if a == ["autoreconf", "-fi"] then autoreconfRc else c.rc(a));
    assert auto == AutotoolsSteps(project, c');
    forall i | 1 <= i < |auto| ensures c'.rc(auto[i]) == c.rc(auto[i]) {
      assert auto[i][0] != "autoreconf";
    }
    RaisingAgrees(auto, c.rc, c'.rc);
    forall i | 0 <= i < |CMakeSteps| ensures c'.rc(CMakeSteps[i]) == c.rc(CMakeSteps[i]) {
      assert CMakeSteps[i][0] != "autoreconf";
    }
    RaisingAgreesStrict(CMakeSteps, c.rc, c'.rc);
    SameRaisingSameBuild(project, fix, c, c');
  }

  /** Two checkouts whose steps raise at the same places build alike. */
  lemma SameRaisingSameBuild(project: string, fix: string, c: Checkout, c': Checkout)
    requires c'.hasBuildconf == c.hasBuildconf && c'.hasAutogen == c.hasAutogen
    requires var auto := AutotoolsSteps(project, c);
      Raising(auto, c'.rc, GenerateMayFail(c)) == Raising(auto, c.rc, GenerateMayFail(c))
    requires Raising(CMakeSteps, c'.rc, false) == Raising(CMakeSteps, c.rc, false)
    ensures BuildAndTest(project, fix, c') == BuildAndTest(project, fix, c)
  {
    var auto := AutotoolsSteps(project, c);
    assert AutotoolsSteps(project, c') == auto;
    assert RunSteps(auto, c'.rc, GenerateMayFail(c)) == RunSteps(auto, c.rc, GenerateMayFail(c));
    assert RunSteps(CMakeSteps, c'.rc, false) == RunSteps(CMakeSteps, c.rc, false);
  }

  /** Two oracles that agree beyond a swallowed first step raise at the same step. */
  lemma RaisingAgrees(steps: seq<Argv>, rc1: Argv -> int, rc2: Argv -> int)
    requires steps != []
    requires forall i :: 1 <= i < |steps| ==> rc1(steps[i]) == rc2(steps[i])
    ensures Raising(steps, rc1, true) == Raising(steps, rc2, true)
  {
    assert forall i :: 0 <= i < |steps[1..]| ==> steps[1..][i] == steps[i + 1];
    RaisingAgreesStrict(steps[1..], rc1, rc2);
  }

  lemma {:induction false} RaisingAgreesStrict(steps: seq<Argv>, rc1: Argv -> int, rc2: Argv -> int)
    requires forall i :: 0 <= i < |steps| ==> rc1(steps[i]) == rc2(steps[i])
    ensures Raising(steps, rc1, false) == Raising(steps, rc2, false)
    decreases |steps|
  {
    if steps != [] {
      assert forall i :: 0 <= i < |steps[1..]| ==> steps[1..][i] == steps[i + 1];
      RaisingAgreesStrict(steps[1..], rc1, rc2);
    }
  }

  /**
   * The autotools route decides the row when it completes; otherwise the
   * tree is cleaned and the CMake build runs, and its success decides.
   * The test target always follows the project name.
   */
  lemma BuildRoutes(project: string, fix: string, c: Checkout)
    ensures var (ran, ok) := BuildAndTest(project, fix, c);
      var auto := AutotoolsSteps(project, c);
      var k := Raising(auto, c.rc, GenerateMayFail(c));
      (k == |auto| ==> ok && ran[|ran| - 1] == ["make", TestTarget(project)])
      && (k < |auto| ==> ran[2 + k + 1] == GitClean && ran[2 + k + 2] == CMakeSteps[0]
                         && (ok <==> c.rc(CMakeSteps[0]) == 0 && c.rc(CMakeSteps[1]) == 0))
  {
    var auto := AutotoolsSteps(project, c);
    var k := Raising(auto, c.rc, GenerateMayFail(c));
    if k < |auto| {
      var first := RunSteps(auto, c.rc, GenerateMayFail(c));
      assert |first| == k + 1;
      var j := Raising(CMakeSteps, c.rc, false);
      if c.rc(CMakeSteps[0]) == 0 {
        assert CMakeSteps[1..][0] == CMakeSteps[1];
      }
    }
  }

  // ---------------------------------------------------------------------------
  // Coverage
  // ---------------------------------------------------------------------------

  /** A `.gcov` report met by the walk: its name and its text. */
  datatype GcovFile = GcovFile(name: string, content: string)

  /** The argument gcov gets for a `.gcda` file: ".gcda" replaced by ".c". */
  function SourceGuess(gcda: string): string {
    Replace(gcda, ".gcda", ".c")
  }

  lemma SourceGuessOfStem(stem: string)
    requires !Contains(stem, ".gcda")
    ensures SourceGuess(stem + ".gcda") == stem + ".c"
  {
    TestRelevance.ReplaceGcdaSuffix(stem);
  }

  /** Position `p` is where `^` matches under MULTILINE: the start, or just after a newline. */
  predicate LineStart(s: string, p: nat)
    requires p <= |s|
  {
    p == 0 || s[p - 1] == '\n'
  }

  /**
   * `\s*[1-9]\d*:` matches at `p`: after the whitespace (which may run over
   * blank lines) comes a non-zero digit, more digits, then ':'.
   */
  predicate CountAt(s: string, p: nat)
    requires p <= |s|
  {
    var t := s[p..];
    var u := t[LeadingSpaces(t)..];
    u != [] && '1' <= u[0] <= '9' && DigitRun(u) < |u| && u[DigitRun(u)] == ':'
  }

  /** `re.search(r'^\s*[1-9]\d*:', text, re.MULTILINE)` found a match. */
  predicate HasCountedLine(s: string) {
    exists p: nat :: p <= |s| && LineStart(s, p) && CountAt(s, p)
  }

  /** A positive number is written without a leading zero. */
  lemma {:induction false} LeadingDigitNonZero(n: nat)
    requires n >= 1
    ensures '1' <= NatToString(n)[0] <= '9'
    decreases n
  {
    if n >= 10 {
      LeadingDigitNonZero(n / 10);
    }
  }

  /**
   * A gcov line with a positive execution count, `<spaces><count>:<rest>`,
   * marks the report covered wherever it stands in the report.
   */
  lemma ExecutedLineCounts(before: string, spaces: string, count: nat, rest: string)
    requires before == [] || before[|before| - 1] == '\n'
    requires forall i :: 0 <= i < |spaces| ==> IsSpace(spaces[i])
    requires count >= 1
    ensures HasCountedLine(before + spaces + NatToString(count) + ":" + rest)
  {
    var u := NatToString(count) + (":" + rest);
    var s := before + spaces + NatToString(count) + ":" + rest;
    LineAfter(before, spaces, NatToString(count), rest);
    CountThenColon(count, rest);
    CountAfterSpaces(s, |before|, spaces, u);
    CountedAt(s, |before|);
  }

  lemma LineAfter(before: string, spaces: string, digits: string, rest: string)
    requires before == [] || before[|before| - 1] == '\n'
    ensures var s := before + spaces + digits + ":" + rest;
      |before| <= |s| && s[|before|..] == spaces + (digits + (":" + rest)) && LineStart(s, |before|)
  {
    var s := before + spaces + digits + ":" + rest;
    assert s == before + (spaces + (digits + (":" + rest)));
  }

  /** A positive count and its colon: a non-zero digit, the digits, then ':'. */
  lemma CountThenColon(count: nat, rest: string)
    requires count >= 1
    ensures var u := NatToString(count) + (":" + rest);
      u != [] && '1' <= u[0] <= '9' && DigitRun(u) < |u| && u[DigitRun(u)] == ':'
  {
    var digits := NatToString(count);
    var u := digits + (":" + rest);
    LeadingDigitNonZero(count);
    DigitRunOfConcat(digits, ":" + rest);
    assert u[0] == digits[0] && u[|digits|] == ':';
  }

  lemma CountedAt(s: string, p: nat)
    requires p <= |s| && LineStart(s, p) && CountAt(s, p)
    ensures HasCountedLine(s)
  {
  }

  /** Whitespace and then a count with its colon: the pattern matches at `p`. */
  lemma CountAfterSpaces(s: string, p: nat, spaces: string, u: string)
    requires p <= |s| && s[p..] == spaces + u
    requires forall i :: 0 <= i < |spaces| ==> IsSpace(spaces[i])
    requires u != [] && '1' <= u[0] <= '9' && DigitRun(u) < |u| && u[DigitRun(u)] == ':'
    ensures CountAt(s, p)
  {
    LeadingSpacesOf(spaces, u);
    assert (spaces + u)[|spaces|..] == u;
  }

  /** A line whose count is `#####`, `-` or `0` does not match where it starts. */
  lemma UnexecutedLineDoesNotCount(before: string, spaces: string, mark: string, rest: string)
    requires forall i :: 0 <= i < |spaces| ==> IsSpace(spaces[i])
    requires mark == "#####" || mark == "-" || mark == "0"
    ensures !CountAt(before + spaces + mark + ":" + rest, |before|)
  {
    var s := before + spaces + mark + ":" + rest;
    var u := mark + ":" + rest;
    assert s[|before|..] == spaces + u;
    LeadingSpacesOf(spaces, u);
    assert (spaces + u)[|spaces|..] == u;
  }

  /** The name a report stands for: its file name with every ".gcov" removed. */
  function CoveredName(gcov: string): string {
    Replace(gcov, ".gcov", "")
  }

  /** In `stem + ".gcov"` the suffix is the only occurrence of ".gcov" when the stem has none. */
  lemma {:induction false} CoveredNameOfStem(stem: string)
    requires !Contains(stem, ".gcov")
    ensures CoveredName(stem + ".gcov") == stem
    decreases |stem|
  {
    var s := stem + ".gcov";
    if stem == [] {
      assert s[..5] == ".gcov" && s[5..] == [];
      assert Replace(s, ".gcov", "") == "" + Replace(s[5..], ".gcov", "");
    } else {
      if |stem| < 5 {
        assert s[..5][|stem|] == '.';
      } else {
        assert s[..5] == stem[..5];
      }
      assert s[1..] == stem[1..] + ".gcov";
      CoveredNameOfStem(stem[1..]);
      assert [stem[0]] + stem[1..] == stem;
    }
  }

  /** Whether a walked file is a `.gcov` report with an executed line. */
  predicate Counts(f: GcovFile) {
    EndsWith(f.name, ".gcov") && HasCountedLine(f.content)
  }

  /** The names `collect_coverage` returns for the reports met by the walk. */
  function CoveredNames(files: seq<GcovFile>): set<string>
    decreases |files|
  {
    if files == [] then {}
    else
      var f := files[|files| - 1];
      CoveredNames(files[..|files| - 1]) + (if Counts(f) then {CoveredName(f.name)} else {})
  }

  /** A name is covered exactly when some report with an executed line stands for it. */
  lemma {:induction false} CoveredNamesMembers(files: seq<GcovFile>, n: string)
    ensures n in CoveredNames(files) <==> exists i :: 0 <= i < |files| && Counts(files[i]) && CoveredName(files[i].name) == n
    decreases |files|
  {
    if files != [] {
      var init := files[..|files| - 1];
      CoveredNamesMembers(init, n);
      assert files == init + [files[|files| - 1]];
    }
  }

  /** The parsing walk of `collect_coverage`, adding to the set of covered names. */
  method CollectCoverage(files: seq<GcovFile>) returns (covered: set<string>)
    ensures covered == CoveredNames(files)
  {
    covered := {};
    for i := 0 to |files|
      invariant covered == CoveredNames(files[..i])
    {
      assert files[..i + 1][..i] == files[..i];
      var f := files[i];
      if EndsWith(f.name, ".gcov") && HasCountedLine(f.content) {
        covered := covered + {CoveredName(f.name)};
      }
    }
    assert files[..|files|] == files;
  }

  // ---------------------------------------------------------------------------
  // Matching and the rows
  // ---------------------------------------------------------------------------

  /** `set(diff_files).intersection(covered)` over the basenames of the changed paths. */
  function Matches(diffTree: string, covered: set<string>): set<string> {
    (set line | line in SplitLines(diffTree) :: Basename(line)) * covered
  }

  /** The CSV line written for one match. */
  function MatchLine(project: string, fix: string, m: string): string {
    project + "," + fix + ",aggregated_tests," + m
  }

  /** Different matches of one row give different lines. */
  lemma MatchLineInjective(project: string, fix: string, m1: string, m2: string)
    requires MatchLine(project, fix, m1) == MatchLine(project, fix, m2)
    ensures m1 == m2
  {
    var p := project + "," + fix + ",aggregated_tests,";
    assert MatchLine(project, fix, m1) == p + m1 && MatchLine(project, fix, m2) == p + m2;
    assert m1 == (p + m1)[|p|..];
  }

  /** How one dataset row ends. */
  datatype RowOutcome = RepoMissing | Failed | Matched(matches: set<string>)

  /**
   * One dataset row: skipped when the project is missing; failed when both
   * build routes raise or `git diff-tree` fails; otherwise its matches.
   */
  function RowResult(project: string, fix: string, c: Checkout): RowOutcome {
    if !c.repoExists then RepoMissing
    else if !BuildAndTest(project, fix, c).1 then Failed
    else if c.diffTree.None? then Failed
    else Matched(Matches(c.diffTree.value, CoveredNames(c.gcovFiles)))
  }

  /**
   * A row matches only when its repository exists, a build route completed
   * and the diff was read; its matches are the covered names that are the
   * basename of some changed path.
   */
  lemma RowResultSpec(project: string, fix: string, c: Checkout, m: string)
    ensures RowResult(project, fix, c).Matched? <==> c.repoExists && BuildAndTest(project, fix, c).1 && c.diffTree.Some?
    ensures RowResult(project, fix, c).Matched? ==>
      (m in RowResult(project, fix, c).matches <==>
         m in CoveredNames(c.gcovFiles) && exists line :: line in SplitLines(c.diffTree.value) && Basename(line) == m)
  {
  }

  /** The lines one row adds. */
  function RowLines(project: string, fix: string, r: RowOutcome): set<string> {
    if r.Matched? then set m | m in r.matches :: MatchLine(project, fix, m) else {}
  }

  /** The number of lines one row adds. */
  function RowLineCount(r: RowOutcome): nat {
    if r.Matched? then |r.matches| else 0
  }

  /**
   * The inner loop of `main`: one line per match, in the set's iteration
   * order, which the script leaves unspecified.
   */
  method WriteMatches(project: string, fix: string, matches: set<string>) returns (lines: seq<string>)
    ensures |lines| == |matches|
    ensures (set l | l in lines) == set m | m in matches :: MatchLine(project, fix, m)
  {
    lines := [];
    var left := matches;
    while left != {}
      invariant left <= matches
      invariant |lines| + |left| == |matches|
      invariant (set l | l in lines) == set m | m in matches - left :: MatchLine(project, fix, m)
      decreases |left|
    {
      var m :| m in left;
      assert matches - (left - {m}) == (matches - left) + {m};
      assert (set l | l in lines + [MatchLine(project, fix, m)]) == (set l | l in lines) + {MatchLine(project, fix, m)};
      lines := lines + [MatchLine(project, fix, m)];
      left := left - {m};
    }
  }

  /** A dataset row: project and fix commit. */
  datatype DatasetRow = DatasetRow(project: string, fixCommit: string)

  const Header := "project,fix_commit,testfile,source_file"

  /** The lines the dataset rows add, row by row. */
  function AllLines(rows: seq<DatasetRow>, checkoutOf: DatasetRow -> Checkout): set<string>
    decreases |rows|
  {
    if rows == [] then {}
    else
      var row := rows[|rows| - 1];
      AllLines(rows[..|rows| - 1], checkoutOf) + RowLines(row.project, row.fixCommit, RowResult(row.project, row.fixCommit, checkoutOf(row)))
  }

  /** The number of lines the dataset rows add. */
  function AllLineCount(rows: seq<DatasetRow>, checkoutOf: DatasetRow -> Checkout): nat
    decreases |rows|
  {
    if rows == [] then 0
    else
      var row := rows[|rows| - 1];
      AllLineCount(rows[..|rows| - 1], checkoutOf) + RowLineCount(RowResult(row.project, row.fixCommit, checkoutOf(row)))
  }

  /** The lines and the count after one more row. */
  lemma AllLinesStep(rows: seq<DatasetRow>, i: nat, checkoutOf: DatasetRow -> Checkout)
    requires i < |rows|
    ensures var r := RowResult(rows[i].project, rows[i].fixCommit, checkoutOf(rows[i]));
      AllLines(rows[..i + 1], checkoutOf) == AllLines(rows[..i], checkoutOf) + RowLines(rows[i].project, rows[i].fixCommit, r)
      && AllLineCount(rows[..i + 1], checkoutOf) == AllLineCount(rows[..i], checkoutOf) + RowLineCount(r)
  {
    assert rows[..i + 1][..i] == rows[..i];
  }

  /** The elements of a sequence of lines. */
  function Elements(lines: seq<string>): set<string> {
    set l | l in lines
  }

  /** One row's outcome as `main` computes it, with the coverage walk done by its loop. */
  method ProcessRow(row: DatasetRow, c: Checkout) returns (r: RowOutcome)
    ensures r == RowResult(row.project, row.fixCommit, c)
  {
    if !c.repoExists {
      return RepoMissing;
    }
    var (_, built) := BuildAndTest(row.project, row.fixCommit, c);
    if !built {
      return Failed;
    }
    var covered := CollectCoverage(c.gcovFiles);
    if c.diffTree.None? {
      return Failed;
    }
    r := Matched(Matches(c.diffTree.value, covered));
  }

  /** One iteration of `main`'s row loop: the row's outcome and its lines appended. */
  method AppendRow(row: DatasetRow, c: Checkout, lines: seq<string>) returns (r: RowOutcome, lines': seq<string>)
    ensures r == RowResult(row.project, row.fixCommit, c)
    ensures Elements(lines') == Elements(lines) + RowLines(row.project, row.fixCommit, r)
    ensures |lines'| == |lines| + RowLineCount(r)
  {
    r := ProcessRow(row, c);
    lines' := lines;
    if r.Matched? {
      var added := WriteMatches(row.project, row.fixCommit, r.matches);
      assert Elements(lines + added) == Elements(lines) + Elements(added);
      lines' := lines + added;
    }
  }

  /**
   * `main`: the header when the CSV is new, then every row's match lines;
   * a failing row never stops the loop.
   */
  method FilterTests(rows: seq<DatasetRow>, checkoutOf: DatasetRow -> Checkout, csvExists: bool)
    returns (outcomes: seq<RowOutcome>, header: seq<string>, lines: seq<string>)
    ensures |outcomes| == |rows|
    ensures forall i :: 0 <= i < |rows| ==> outcomes[i] == RowResult(rows[i].project, rows[i].fixCommit, checkoutOf(rows[i]))
    ensures header == if csvExists then [] else [Header]
    ensures Elements(lines) == AllLines(rows, checkoutOf)
    ensures |lines| == AllLineCount(rows, checkoutOf)
  {
    header := if csvExists then [] else [Header];
    outcomes, lines := [], [];
    for i := 0 to |rows|
      invariant |outcomes| == i
      invariant forall j :: 0 <= j < i ==> outcomes[j] == RowResult(rows[j].project, rows[j].fixCommit, checkoutOf(rows[j]))
      invariant Elements(lines) == AllLines(rows[..i], checkoutOf)
      invariant |lines| == AllLineCount(rows[..i], checkoutOf)
    {
      AllLinesStep(rows, i, checkoutOf);
      var r;
      r, lines := AppendRow(rows[i], checkoutOf(rows[i]), lines);
      outcomes := outcomes + [r];
    }
    assert rows[..|rows|] == rows;
  }
}
