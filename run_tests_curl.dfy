/**
 * The curl test runner: build curl, list its test cases with
 * `./runtests.pl -l`, run each case on its own, classify its output into a
 * status, write one CSV row per case and count the rows per status.
 *
 * Processes are an oracle from the command line to its exit status and
 * combined output; the working directory of each command is fixed by the
 * script, so the command text identifies the run.
 */
module RunTestsCurl {
  import opened Wrappers
  import opened PyStr

  /** A finished shell command: its exit status and its combined stdout/stderr. */
  datatype Proc = Proc(rc: int, out: string)

  /** `run(cmd, allow_fail)`: the output, or the RuntimeError carrying it. */
  function Run(p: Proc, allowFail: bool): (r: Result<string, string>)
    ensures r.Ok? <==> p.rc == 0 || allowFail
    ensures r.Ok? ==> r.value == p.out
    ensures r.Err? ==> r.error == p.out
  {
    if p.rc != 0 && !allowFail then Err(p.out) else Ok(p.out)
  }

  const Buildconf := "./buildconf"
  const Configure := "./configure --enable-debug --with-openssl"
  const Make := "make -j$(nproc)"
  const ListTests := "./runtests.pl -l"
  const BinaryMissing := "src/curl was not built"

  /** `build_curl`: three commands that must succeed, then the binary must exist. */
  function BuildCurl(exec: string -> Proc, binExists: bool): (r: Result<(), string>)
    ensures r.Ok? <==> exec(Buildconf).rc == 0 && exec(Configure).rc == 0 && exec(Make).rc == 0 && binExists
    ensures exec(Buildconf).rc != 0 ==> r == Err(exec(Buildconf).out)
    ensures exec(Buildconf).rc == 0 && exec(Configure).rc == 0 && exec(Make).rc == 0 && !binExists
      ==> r == Err(BinaryMissing)
  {
    match Run(exec(Buildconf), false)
    case Err(e) => Err(e)
    case Ok(_) =>
      match Run(exec(Configure), false)
      case Err(e) => Err(e)
      case Ok(_) =>
        match Run(exec(Make), false)
        case Err(e) => Err(e)
        case Ok(_) => if !binExists then Err(BinaryMissing) else Ok(())
  }

  // ---------------------------------------------------------------------------
  // Discovering the tests
  // ---------------------------------------------------------------------------

  /** `re.match(r"^(\d+)\s", line)`: the leading digits when a whitespace character follows them. */
  function TestId(line: string): (r: Option<string>)
    ensures r.Some? ==>
      IsDigitString(r.value) && |r.value| < |line| && line[..|r.value|] == r.value && IsSpace(line[|r.value|])
  {
    var k := DigitRun(line);
    if 0 < k < |line| && IsSpace(line[k]) then Some(line[..k]) else None
  }

  /** A listing line `<digits><whitespace>...` yields exactly its digits. */
  lemma TestIdOf(id: string, rest: string)
    requires IsDigitString(id) && rest != [] && IsSpace(rest[0])
    ensures TestId(id + rest) == Some(id)
  {
    DigitRunOfConcat(id, rest);
    assert (id + rest)[..|id|] == id;
  }

  /** The ids of the listing lines that match, in listing order. */
  function TestIds(lines: seq<string>): (r: seq<string>)
    ensures |r| <= |lines|
    ensures forall i :: 0 <= i < |r| ==> IsDigitString(r[i])
    decreases |lines|
  {
    if lines == [] then []
    else
      var init := TestIds(lines[..|lines| - 1]);
      match TestId(lines[|lines| - 1])
      case Some(id) => init + [id]
      case None => init
  }

  /** The ids of two listings one after the other. */
  lemma {:induction false} TestIdsConcat(a: seq<string>, b: seq<string>)
    ensures TestIds(a + b) == TestIds(a) + TestIds(b)
    decreases |b|
  {
    if b == [] {
      assert a + b == a;
    } else {
      var init := b[..|b| - 1];
      assert (a + b)[..|a + b| - 1] == a + init;
      TestIdsConcat(a, init);
    }
  }

  /** A listing built from ids followed by whitespace gives the ids back. */
  lemma {:induction false} TestIdsOfListing(ids: seq<string>, rests: seq<string>)
    requires |rests| == |ids|
    requires forall i :: 0 <= i < |ids| ==> IsDigitString(ids[i]) && rests[i] != [] && IsSpace(rests[i][0])
    ensures TestIds(seq(|ids|, i requires 0 <= i < |ids| => ids[i] + rests[i])) == ids
    decreases |ids|
  {
    if ids != [] {
      var n := |ids| - 1;
      var lines := seq(|ids|, i requires 0 <= i < |ids| => ids[i] + rests[i]);
      TestIdsOfListing(ids[..n], rests[..n]);
      assert lines[..n] == seq(n, i requires 0 <= i < n => ids[..n][i] + rests[..n][i]);
      TestIdOf(ids[n], rests[n]);
      assert ids[..n] + [ids[n]] == ids;
    }
  }

  /** The loop of `extract_all_tests` over the listing's lines. */
  method ParseTestList(listing: string) returns (tests: seq<string>)
    ensures tests == TestIds(SplitLines(listing))
  {
    var lines := SplitLines(listing);
    tests := [];
    for i := 0 to |lines|
      invariant tests == TestIds(lines[..i])
    {
      assert lines[..i + 1][..i] == lines[..i];
      match TestId(lines[i]) {
        case Some(id) => tests := tests + [id];
        case None =>
      }
    }
    assert lines[..|lines|] == lines;
  }

  /** The text `extract_all_tests` writes to all_tests.txt. */
  function AllTestsText(tests: seq<string>): string {
    Join(tests, "\n")
  }

  /** all_tests.txt holds the ids one per line: splitting it at newlines gives them back. */
  lemma AllTestsTextRoundTrip(listing: string)
    requires TestIds(SplitLines(listing)) != []
    ensures Split(AllTestsText(TestIds(SplitLines(listing))), '\n') == TestIds(SplitLines(listing))
  {
    var ids := TestIds(SplitLines(listing));
    SplitJoin(ids, '\n');
  }

  /**
   * `extract_all_tests`: the listing command must succeed; the result is the
   * ids and the text written to all_tests.txt.
   */
  method ExtractAllTests(listing: Proc) returns (r: Result<(seq<string>, string), string>)
    ensures listing.rc != 0 <==> r.Err?
    ensures r.Err? ==> r.error == listing.out
    ensures r.Ok? ==> r.value.0 == TestIds(SplitLines(listing.out)) && r.value.1 == AllTestsText(r.value.0)
  {
    match Run(listing, false) {
      case Err(e) =>
        r := Err(e);
      case Ok(out) =>
        var tests := ParseTestList(out);
        r := Ok((tests, AllTestsText(tests)));
    }
  }

  // ---------------------------------------------------------------------------
  // Running one test
  // ---------------------------------------------------------------------------

  datatype Status = Pass | Fail | Skipped | Killed | Unknown {
    /** The text written into the CSV's status column. */
    function Text(): string {
      match this
      case Pass => "PASS"
      case Fail => "FAIL"
      case Skipped => "SKIPPED"
      case Killed => "KILLED"
      case Unknown => "UNKNOWN"
    }

    /** Position in the precedence of the markers: a lower rank wins. */
    function Rank(): nat {
      match this
      case Pass => 0
      case Fail => 1
      case Skipped => 2
      case Killed => 3
      case Unknown => 4
    }
  }

  /** Distinct statuses are written as distinct texts, so counting texts counts statuses. */
  lemma TextInjective(s: Status, t: Status)
    requires s.Text() == t.Text()
    ensures s == t
  {
  }

  /** The status of a test's output, from the markers it contains, first match wins. */
  function Classify(out: string): Status {
    if Contains(out, "OK") then Pass
    else if Contains(out, "FAILED") || Contains(out, "TESTFAIL") then Fail
    else if Contains(out, "SKIPPED") then Skipped
    else if Contains(out, "Killed") then Killed
    else Unknown
  }

  /** The markers of a status of at least the given rank. */
  predicate HasMarkerOfRank(out: string, rank: nat) {
    (rank >= 0 && Contains(out, "OK"))
    || (rank >= 1 && (Contains(out, "FAILED") || Contains(out, "TESTFAIL")))
    || (rank >= 2 && Contains(out, "SKIPPED"))
    || (rank >= 3 && Contains(out, "Killed"))
  }

  /**
   * The status ranks each output by the first marker it contains: a
   * marker of some rank caps the status at that rank, the status's own
   * marker is present, and an output without any marker is UNKNOWN.
   */
  lemma ClassifySpec(out: string, rank: nat)
    ensures HasMarkerOfRank(out, rank) ==> Classify(out).Rank() <= rank
    ensures Classify(out) != Unknown ==> HasMarkerOfRank(out, Classify(out).Rank())
    ensures Classify(out) == Unknown <==> !HasMarkerOfRank(out, 3)
    ensures Contains(out, "OK") ==> Classify(out) == Pass
  {
  }

  /**
   * More output never lowers a test's standing: the status of a
   * concatenation ranks at least as high as the status of either part.
   */
  lemma ClassifyConcat(a: string, b: string)
    ensures Classify(a + b).Rank() <= Classify(a).Rank()
    ensures Classify(a + b).Rank() <= Classify(b).Rank()
  {
    var r := Classify(a).Rank();
    if r < 4 {
      ClassifySpec(a, r);
      MarkersPersist(a, b, r);
      ClassifySpec(a + b, r);
    }
    var q := Classify(b).Rank();
    if q < 4 {
      ClassifySpec(b, q);
      MarkersPersist(a, b, q);
      ClassifySpec(a + b, q);
    }
  }

  /** A marker in either part is a marker in the concatenation. */
  lemma MarkersPersist(a: string, b: string, rank: nat)
    requires HasMarkerOfRank(a, rank) || HasMarkerOfRank(b, rank)
    ensures HasMarkerOfRank(a + b, rank)
  {
    var m := ["OK", "FAILED", "TESTFAIL", "SKIPPED", "Killed"];
    forall k | 0 <= k < |m| && (Contains(a, m[k]) || Contains(b, m[k])) ensures Contains(a + b, m[k]) {
      ContainsAppend(a, b, m[k]);
    }
    assert m[0] == "OK" && m[1] == "FAILED" && m[2] == "TESTFAIL" && m[3] == "SKIPPED" && m[4] == "Killed";
  }

  /** The command that runs one test case. */
  function TestCmd(id: string): string {
    "./runtests.pl " + id
  }

  /** One CSV row: id, status and the stripped output. */
  datatype Row = Row(id: string, status: Status, output: string)

  /**
   * `run_single_test`: run with failures allowed, so the exit status plays
   * no part; the status comes from the output, which is stored stripped.
   */
  function SingleTest(exec: string -> Proc, id: string): (r: Row)
    ensures r.id == id && r.status == Classify(exec(TestCmd(id)).out)
    ensures |r.output| <= |exec(TestCmd(id)).out|
    ensures r.output == [] || (!IsSpace(r.output[0]) && !IsSpace(r.output[|r.output| - 1]))
  {
    var out := Run(exec(TestCmd(id)), true).value;
    Row(id, Classify(out), Strip(out))
  }

  /** Two processes with the same output give the same row, whatever their exit status. */
  lemma SingleTestIgnoresExitStatus(exec1: string -> Proc, exec2: string -> Proc, id: string)
    requires exec1(TestCmd(id)).out == exec2(TestCmd(id)).out
    ensures SingleTest(exec1, id) == SingleTest(exec2, id)
  {
  }

  /** The row loop of `main`: one row per test, in order. */
  method RunTests(exec: string -> Proc, tests: seq<string>) returns (rows: seq<Row>)
    ensures |rows| == |tests|
    ensures forall i :: 0 <= i < |tests| ==> rows[i] == SingleTest(exec, tests[i])
  {
    rows := [];
    for i := 0 to |tests|
      invariant |rows| == i
      invariant forall j :: 0 <= j < i ==> rows[j] == SingleTest(exec, tests[j])
    {
      var row := SingleTest(exec, tests[i]);
      rows := rows + [row];
    }
  }

  // ---------------------------------------------------------------------------
  // The summary
  // ---------------------------------------------------------------------------

  /** The number of rows with the given status. */
  function CountOf(rows: seq<Row>, s: Status): (n: nat)
    ensures n <= |rows|
    decreases |rows|
  {
    if rows == [] then 0
    else CountOf(rows[..|rows| - 1], s) + (if rows[|rows| - 1].status == s then 1 else 0)
  }

  /** The per-status counts add up to the number of rows. */
  lemma {:induction false} CountsSumToTotal(rows: seq<Row>)
    ensures CountOf(rows, Pass) + CountOf(rows, Fail) + CountOf(rows, Skipped)
      + CountOf(rows, Killed) + CountOf(rows, Unknown) == |rows|
    decreases |rows|
  {
    if rows != [] {
      CountsSumToTotal(rows[..|rows| - 1]);
    }
  }

  /** The status texts a count can be keyed by. */
  const StatusTexts: set<string> := {"PASS", "FAIL", "SKIPPED", "KILLED", "UNKNOWN"}

  /**
   * The counting loop of `main`: a status is a key exactly when some row
   * has it, and its count is the number of such rows.
   */
  method Tally(rows: seq<Row>) returns (counts: map<string, nat>)
    ensures counts.Keys <= StatusTexts
    ensures forall s: Status :: s.Text() in counts <==> CountOf(rows, s) > 0
    ensures forall s: Status :: s.Text() in counts ==> counts[s.Text()] == CountOf(rows, s)
  {
    counts := map[];
    for i := 0 to |rows|
      invariant counts.Keys <= StatusTexts
      invariant forall s: Status :: s.Text() in counts <==> CountOf(rows[..i], s) > 0
      invariant forall s: Status :: s.Text() in counts ==> counts[s.Text()] == CountOf(rows[..i], s)
    {
      assert rows[..i + 1][..i] == rows[..i];
      var k := rows[i].status.Text();
      var c := if k in counts then counts[k] else 0;
      counts := counts[k := c + 1];
      forall s: Status ensures s.Text() == k <==> s == rows[i].status {
        if s.Text() == k { TextInjective(s, rows[i].status); }
      }
    }
    assert rows[..|rows|] == rows;
  }

  /** What a complete run leaves: the test list, the all_tests.txt text, the rows and the counts. */
  datatype Report = Report(tests: seq<string>, allTests: string, rows: seq<Row>, total: nat, counts: map<string, nat>)

  /**
   * `main`: build, discover, run every test, summarise. A failing build or
   * listing ends the run with its RuntimeError; a test case never does.
   */
  method RunAll(exec: string -> Proc, binExists: bool) returns (r: Result<Report, string>)
    ensures r.Ok? <==> BuildCurl(exec, binExists).Ok? && exec(ListTests).rc == 0
    ensures r.Ok? ==> r.value.tests == TestIds(SplitLines(exec(ListTests).out))
    ensures r.Ok? ==> r.value.total == |r.value.rows| == |r.value.tests|
    ensures r.Ok? ==> forall i :: 0 <= i < |r.value.tests| ==> r.value.rows[i] == SingleTest(exec, r.value.tests[i])
    ensures r.Ok? ==> r.value.counts.Keys <= StatusTexts
    ensures r.Ok? ==> forall s: Status :: s.Text() in r.value.counts <==> CountOf(r.value.rows, s) > 0
    ensures r.Ok? ==> forall s: Status :: s.Text() in r.value.counts ==> r.value.counts[s.Text()] == CountOf(r.value.rows, s)
  {
    var built := BuildCurl(exec, binExists);
    if built.Err? {
      return Err(built.error);
    }
    var listed := ExtractAllTests(exec(ListTests));
    if listed.Err? {
      return Err(listed.error);
    }
    var (tests, allTests) := listed.value;
    var rows := RunTests(exec, tests);
    var counts := Tally(rows);
    r := Ok(Report(tests, allTests, rows, |rows|, counts));
  }
}
