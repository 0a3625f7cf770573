/**
 * The test-case verifier for vulnerability/fix commit pairs: for each
 * project of the dataset snapshot it checks out the vulnerable and the fixed
 * commit, builds each, runs its test suite, reads the test names and
 * statuses out of the runner's output and writes them side by side, one CSV
 * row per test index.
 *
 * Processes are an oracle from the command text to its exit status, stdout,
 * stderr and running time; each commit has its own oracle, since its
 * commands run in its own checkout. Whether a checkout builds is a parameter.
 */
module AutoTcVerifier {
  import opened Wrappers
  import opened PyStr

  /** One test read from a runner's output: its name and "PASSED" or "FAILED". */
  datatype TestCase = TestCase(name: string, status: string)

  const Passed := "PASSED"
  const Failed := "FAILED"

  predicate WellFormed(tests: seq<TestCase>) {
    forall i :: 0 <= i < |tests| ==> tests[i].status == Passed || tests[i].status == Failed
  }

  // ---------------------------------------------------------------------------
  // CTest / GTest lines: `Test\s+#\d+:\s+(\S+)\s+\.+\s+(Passed|Failed)`,
  // case-insensitive, searched anywhere in the output. Every quantifier in
  // the pattern is followed by a character it cannot consume, so the greedy
  // match is the only one.
  // ---------------------------------------------------------------------------

  /** `\s+` at the start of `s`: the text after a non-empty whitespace run. */
  function AfterSpaces(s: string): (r: Option<string>)
    ensures r.Some? ==> |r.value| < |s| && (r.value == [] || !IsSpace(r.value[0]))
  {
    var w := LeadingSpaces(s);
    if w == 0 then None else Some(s[w..])
  }

  /** The length of the run of dots at the start of `s`. */
  function DotRun(s: string): (k: nat)
    ensures k <= |s| && (forall i :: 0 <= i < k ==> s[i] == '.') && (k < |s| ==> s[k] != '.')
    decreases |s|
  {
    if s != [] && s[0] == '.' then 1 + DotRun(s[1..]) else 0
  }

  /** `Test\s+#\d+:` in any case at the start of `s`: the text after the colon. */
  function CTestHeader(s: string): (r: Option<string>)
    ensures r.Some? ==> |r.value| < |s|
  {
    if !CaselessPrefix(s, "test") then None
    else
      match AfterSpacedWord(s[4..], "#")
      case None => None
      case Some(a) =>
        var d := DigitRun(a);
        if 0 < d < |a| && a[d] == ':' then Some(a[d + 1..]) else None
  }

  /** `\s+(\S+)`: the test name and the text after it. */
  function CTestName(s: string): (r: Option<(string, string)>)
    ensures r.Some? ==> IsWord(r.value.0) && |r.value.1| < |s|
    ensures r.Some? ==> r.value.1 == [] || IsSpace(r.value.1[0])
  {
    match AfterSpaces(s)
    case None => None
    case Some(t) =>
      var n := NonSpaceRun(t);
      if n == 0 then None else Some((t[..n], t[n..]))
  }

  /** The matched status word upper-cased is "PASSED" or "FAILED". */
  lemma UpperStatus(u: string)
    requires CaselessPrefix(u, "passed") || CaselessPrefix(u, "failed")
    ensures CaselessPrefix(u, "passed") ==> Upper(u[..6]) == Passed
    ensures !CaselessPrefix(u, "passed") ==> Upper(u[..6]) == Failed
  {
    var kw := if CaselessPrefix(u, "passed") then "passed" else "failed";
    var up := if CaselessPrefix(u, "passed") then Passed else Failed;
    forall i | 0 <= i < 6 ensures UpperChar(u[i]) == up[i] {
      assert LowerChar(u[i]) == kw[i];
    }
  }

  /** `\s+\.+\s+(Passed|Failed)` in any case: the status word upper-cased and the text after it. */
  function CTestStatus(s: string): (r: Option<(string, string)>)
    ensures r.Some? ==> (r.value.0 == Passed || r.value.0 == Failed) && |r.value.1| < |s|
  {
    match AfterSpaces(s)
    case None => None
    case Some(t) =>
      var dots := DotRun(t);
      if dots == 0 then None
      else
        match AfterSpaces(t[dots..])
        case None => None
        case Some(u) =>
          if CaselessPrefix(u, "passed") || CaselessPrefix(u, "failed") then
            UpperStatus(u);
            Some((Upper(u[..6]), u[6..]))
          else None
  }

  /** The CTest pattern matched at the start of `s`: the test and the text after the match. */
  function MatchCTest(s: string): (r: Option<(TestCase, string)>)
    ensures r.Some? ==> |r.value.1| < |s| && IsWord(r.value.0.name)
    ensures r.Some? ==> r.value.0.status == Passed || r.value.0.status == Failed
  {
    match CTestHeader(s)
    case None => None
    case Some(a) =>
      match CTestName(a)
      case None => None
      case Some((name, b)) =>
        match CTestStatus(b)
        case None => None
        case Some((status, rest)) => Some((TestCase(name, status), rest))
  }

  /** `finditer`: the matches from left to right, each search resuming where the last match ended. */
  function CTestMatches(s: string): (r: seq<TestCase>)
    decreases |s|
  {
    if s == [] then []
    else
      match MatchCTest(s)
      case Some((tc, rest)) => [tc] + CTestMatches(rest)
      case None => CTestMatches(s[1..])
  }

  /** Every CTest match names a whitespace-free test and has status PASSED or FAILED. */
  lemma {:induction false} CTestMatchesWellFormed(s: string)
    ensures forall i :: 0 <= i < |CTestMatches(s)| ==> CTestShaped(CTestMatches(s)[i])
    decreases |s|
  {
    if s != [] {
      var m := MatchCTest(s);
      if m.Some? {
        var rest := m.value.1;
        CTestMatchesWellFormed(rest);
        var r := CTestMatches(s);
        assert r == [m.value.0] + CTestMatches(rest);
        forall i | 0 <= i < |r| ensures CTestShaped(r[i]) {
          if i > 0 {
            assert r[i] == CTestMatches(rest)[i - 1];
          }
        }
      } else {
        CTestMatchesWellFormed(s[1..]);
      }
    }
  }

  /** What a CTest match always looks like. */
  predicate CTestShaped(t: TestCase) {
    IsWord(t.name) && (t.status == Passed || t.status == Failed)
  }

  // ---------------------------------------------------------------------------
  // Automake lines: `^(PASS|FAIL|XFAIL|XPASS|SKIP|ERROR):\s+(.+)$` in
  // multi-line mode. `\s+` may run across line breaks; `.` stops at '\n'.
  // ---------------------------------------------------------------------------

  const AutomakeStatuses: seq<string> := ["PASS", "FAIL", "XFAIL", "XPASS", "SKIP", "ERROR"]

  /** The first keyword of `kws` that `s` starts with, followed by a colon. */
  function KeywordAt(s: string, kws: seq<string>): (r: Option<string>)
    ensures r.Some? ==> r.value in kws && |r.value| < |s| && s[..|r.value|] == r.value && s[|r.value|] == ':'
    ensures r.None? ==> forall k :: k in kws && |k| < |s| && s[..|k|] == k ==> s[|k|] != ':'
    decreases |kws|
  {
    if kws == [] then None
    else if |kws[0]| < |s| && s[..|kws[0]|] == kws[0] && s[|kws[0]|] == ':' then Some(kws[0])
    else KeywordAt(s, kws[1..])
  }

  /** The length of the text before the first line break. */
  function LineLength(s: string): (k: nat)
    ensures k <= |s| && (forall i :: 0 <= i < k ==> s[i] != '\n') && (k < |s| ==> s[k] == '\n')
    decreases |s|
  {
    if s != [] && s[0] != '\n' then 1 + LineLength(s[1..]) else 0
  }

  /**
   * When `\s+` has taken all of `s` and `.+` has nothing left, the matcher
   * gives characters back one at a time: the last position in [1, top] that
   * `.` can match.
   */
  function Backoff(s: string, top: nat): (r: Option<nat>)
    requires top < |s|
    ensures r.Some? ==> 1 <= r.value <= top && s[r.value] != '\n'
    ensures r.Some? ==> forall j :: r.value < j <= top ==> s[j] == '\n'
    ensures r.None? ==> forall j :: 1 <= j <= top ==> s[j] == '\n'
    decreases top
  {
    if top == 0 then None
    else if s[top] != '\n' then Some(top)
    else Backoff(s, top - 1)
  }

  /** `\s+(.+)$` after the colon: the captured text and the text after the match. */
  function AutomakeBody(s: string): (r: Option<(string, string)>)
    ensures r.Some? ==> r.value.0 != [] && forall i :: 0 <= i < |r.value.0| ==> r.value.0[i] != '\n'
    ensures r.Some? ==> |r.value.1| < |s| && (r.value.1 == [] || r.value.1[0] == '\n')
  {
    var w := LeadingSpaces(s);
    if w == 0 then None
    else if w < |s| then
      var k := LineLength(s[w..]);
      Some((s[w..][..k], s[w..][k..]))
    else
      match Backoff(s, w - 1)
      case None => None
      case Some(j) =>
        var k := LineLength(s[j..]);
        Some((s[j..][..k], s[j..][k..]))
  }

  /** `"PASS" in status`: PASS and XPASS become PASSED, every other status FAILED. */
  function Normalise(kw: string): string {
    if Contains(kw, "PASS") then Passed else Failed
  }

  /** The Automake pattern at a line start: the test, with its name trimmed, and the text after the match. */
  function MatchAutomake(s: string): (r: Option<(TestCase, string)>)
    ensures r.Some? ==> |r.value.1| < |s| && (r.value.1 == [] || r.value.1[0] == '\n')
  {
    match KeywordAt(s, AutomakeStatuses)
    case None => None
    case Some(kw) =>
      match AutomakeBody(s[|kw| + 1..])
      case None => None
      case Some((body, rest)) => Some((TestCase(Strip(body), Normalise(kw)), rest))
  }

  /** `finditer` in multi-line mode: `^` holds at the start and after every '\n'. */
  function AutomakeMatches(s: string, lineStart: bool): (r: seq<TestCase>)
    decreases |s|
  {
    if s == [] then []
    else if lineStart && MatchAutomake(s).Some? then
      var (tc, rest) := MatchAutomake(s).value;
      [tc] + AutomakeMatches(rest, false)
    else AutomakeMatches(s[1..], s[0] == '\n')
  }

  /** Each of the six Automake statuses normalises as its name says. */
  lemma NormaliseStatuses()
    ensures Normalise("PASS") == Passed && Normalise("XPASS") == Passed
    ensures Normalise("FAIL") == Failed && Normalise("XFAIL") == Failed
    ensures Normalise("SKIP") == Failed && Normalise("ERROR") == Failed
  {
    assert StartsWith("PASS", "PASS");
    assert StartsWith("XPASS"[1..], "PASS");
    NoPass("FAIL");
    NoPass("XFAIL");
    NoPass("SKIP");
    NoPass("ERROR");
  }

  /** A text with no 'P' where "PASS" could begin does not contain it. */
  lemma {:induction false} NoPass(s: string)
    requires forall i :: 0 <= i && i + 4 <= |s| ==> s[i] != 'P'
    ensures !Contains(s, "PASS")
    decreases |s|
  {
    if |s| < 4 {
      ContainsTooLong(s, "PASS");
    } else {
      assert s[0] != "PASS"[0];
      forall i | 0 <= i && i + 4 <= |s[1..]| ensures s[1..][i] != 'P' {
        assert s[1..][i] == s[i + 1];
      }
      NoPass(s[1..]);
    }
  }

  /** Every Automake status normalises to PASSED or FAILED. */
  lemma {:induction false} AutomakeMatchesWellFormed(s: string, lineStart: bool)
    ensures WellFormed(AutomakeMatches(s, lineStart))
    decreases |s|
  {
    if s != [] {
      if lineStart && MatchAutomake(s).Some? {
        AutomakeMatchesWellFormed(MatchAutomake(s).value.1, false);
      } else {
        AutomakeMatchesWellFormed(s[1..], s[0] == '\n');
      }
    }
  }

  // ---------------------------------------------------------------------------
  // parse_test_output
  // ---------------------------------------------------------------------------

  /** CTest matches when there are any, otherwise the Automake matches. */
  function ParsedTests(output: string): (r: seq<TestCase>)
  {
    var ctest := CTestMatches(output);
    if ctest != [] then ctest else AutomakeMatches(output, true)
  }

  /** Whatever the output, every parsed status is PASSED or FAILED. */
  lemma ParsedTestsWellFormed(output: string)
    ensures WellFormed(ParsedTests(output))
  {
    CTestMatchesWellFormed(output);
    AutomakeMatchesWellFormed(output, true);
  }

  /** One position of the CTest search: the match found there, if any, and where the search resumes. */
  method CTestStep(rest: string) returns (found: seq<TestCase>, after: string)
    requires rest != []
    ensures |after| < |rest| && CTestMatches(rest) == found + CTestMatches(after)
  {
    var m := MatchCTest(rest);
    if m.Some? {
      found, after := [m.value.0], m.value.1;
    } else {
      found, after := [], rest[1..];
    }
  }

  /** One position of the Automake search, which matches only at a line start. */
  method AutomakeStep(rest: string, lineStart: bool) returns (found: seq<TestCase>, after: string, nextStart: bool)
    requires rest != []
    ensures |after| < |rest| && AutomakeMatches(rest, lineStart) == found + AutomakeMatches(after, nextStart)
  {
    var m := MatchAutomake(rest);
    if lineStart && m.Some? {
      found, after, nextStart := [m.value.0], m.value.1, false;
    } else {
      found, after, nextStart := [], rest[1..], rest[0] == '\n';
    }
  }

  /** The two `finditer` loops of `parse_test_output`. */
  method ParseTestOutput(output: string) returns (tests: seq<TestCase>)
    ensures tests == ParsedTests(output)
  {
    tests := [];
    var rest := output;
    while rest != []
      invariant tests + CTestMatches(rest) == CTestMatches(output)
      decreases |rest|
    {
      var found;
      found, rest := CTestStep(rest);
      tests := tests + found;
    }
    assert tests == CTestMatches(output);
    if tests == [] {
      var lineStart := true;
      rest := output;
      while rest != []
        invariant tests + AutomakeMatches(rest, lineStart) == AutomakeMatches(output, true)
        decreases |rest|
      {
        var found;
        found, rest, lineStart := AutomakeStep(rest, lineStart);
        tests := tests + found;
      }
    }
  }

  // ---------------------------------------------------------------------------
  // Reports that parse back to their tests
  // ---------------------------------------------------------------------------

  /** A non-empty run of whitespace. */
  predicate Spaces(ws: string) {
    ws != [] && forall i :: 0 <= i < |ws| ==> IsSpace(ws[i])
  }

  /** A non-empty run of dots. */
  predicate Dots(d: string) {
    d != [] && forall i :: 0 <= i < |d| ==> d[i] == '.'
  }

  lemma AfterSpacesOf(ws: string, x: string)
    requires Spaces(ws) && x != [] && !IsSpace(x[0])
    ensures AfterSpaces(ws + x) == Some(x)
  {
    LeadingSpacesOf(ws, x);
    assert (ws + x)[|ws|..] == x;
  }

  lemma {:induction false} DotRunOf(d: string, x: string)
    requires forall i :: 0 <= i < |d| ==> d[i] == '.'
    requires x == [] || x[0] != '.'
    ensures DotRun(d + x) == |d|
    decreases |d|
  {
    if d != [] {
      assert (d + x)[1..] == d[1..] + x;
      DotRunOf(d[1..], x);
    }
  }

  lemma {:induction false} NonSpaceRunOf(w: string, rest: string)
    requires forall i :: 0 <= i < |w| ==> !IsSpace(w[i])
    requires rest == [] || IsSpace(rest[0])
    ensures NonSpaceRun(w + rest) == |w|
    decreases |w|
  {
    if w != [] {
      assert (w + rest)[1..] == w[1..] + rest;
      NonSpaceRunOf(w[1..], rest);
    }
  }

  /** `Test\s+#\d+:` reads any spelling of the word, any spacing and any number. */
  lemma CTestHeaderOf(test: string, ws: string, num: string, rest: string)
    requires CaselessEq(test, "test") && Spaces(ws) && IsDigitString(num)
    ensures CTestHeader(test + (ws + ("#" + (num + (":" + rest))))) == Some(rest)
  {
    var a := num + (":" + rest);
    var t := ws + ("#" + a);
    KeywordThen(test, "test", t);
    HashAfterSpaces(ws, a);
    DigitsThenColon(num, rest);
    CTestHeaderParts(test + t, a, rest);
  }

  /** A keyword written in any case, then more text. */
  lemma KeywordThen(word: string, kw: string, t: string)
    requires CaselessEq(word, kw)
    ensures CaselessPrefix(word + t, kw) && (word + t)[|kw|..] == t
  {
    assert (word + t)[..|kw|] == word;
  }

  /** `\d+:` at the start of a text, then the rest. */
  lemma DigitsThenColon(num: string, rest: string)
    requires IsDigitString(num)
    ensures var a := num + (":" + rest);
      0 < DigitRun(a) == |num| < |a| && a[|num|] == ':' && a[|num| + 1..] == rest
  {
    DigitRunOfConcat(num, ":" + rest);
    var a := num + (":" + rest);
    assert a[|num|] == ':' && a[|num| + 1..] == rest;
  }

  lemma HashAfterSpaces(ws: string, a: string)
    requires Spaces(ws)
    ensures AfterSpacedWord(ws + ("#" + a), "#") == Some(a)
  {
    var t := ws + ("#" + a);
    AfterSpacesOf(ws, "#" + a);
    assert t[LeadingSpaces(t)..] == "#" + a;
    assert CaselessPrefix("#" + a, "#");
    assert ("#" + a)[1..] == a;
  }

  /** The header pattern from its pieces: the keyword, the `#`, the digits and the colon. */
  lemma CTestHeaderParts(s: string, a: string, rest: string)
    requires CaselessPrefix(s, "test") && AfterSpacedWord(s[4..], "#") == Some(a)
    requires 0 < DigitRun(a) < |a| && a[DigitRun(a)] == ':' && a[DigitRun(a) + 1..] == rest
    ensures CTestHeader(s) == Some(rest)
  {
  }

  /** `\s+(\S+)` reads a whitespace-free name after any spacing. */
  lemma CTestNameOf(ws: string, name: string, rest: string)
    requires Spaces(ws) && IsWord(name) && rest != [] && IsSpace(rest[0])
    ensures CTestName(ws + (name + rest)) == Some((name, rest))
  {
    AfterSpacesOf(ws, name + rest);
    NonSpaceRunOf(name, rest);
    assert (name + rest)[..|name|] == name && (name + rest)[|name|..] == rest;
  }

  /** `\s+\.+\s+(Passed|Failed)` reads a status word in any case after any spacing and dots. */
  lemma CTestStatusOf(ws1: string, d: string, ws2: string, word: string, rest: string)
    requires Spaces(ws1) && Dots(d) && Spaces(ws2)
    requires CaselessEq(word, "passed") || CaselessEq(word, "failed")
    ensures CTestStatus(ws1 + (d + (ws2 + (word + rest)))) == Some((Upper(word), rest))
  {
    var u := word + rest;
    var t := d + (ws2 + u);
    AfterSpacesOf(ws1, t);
    assert !IsSpace(ws2[0]) ==> false;
    DotRunOf(d, ws2 + u);
    assert t[|d|..] == ws2 + u;
    assert LowerChar(word[0]) == 'p' || LowerChar(word[0]) == 'f';
    AfterSpacesOf(ws2, u);
    assert u[..6] == word && u[6..] == rest;
  }

  /** A whole CTest result line, spelled and spaced in any way the pattern allows. */
  lemma MatchCTestOf(test: string, ws1: string, num: string, ws2: string, name: string,
                     ws3: string, d: string, ws4: string, word: string, rest: string)
    requires CaselessEq(test, "test") && Spaces(ws1) && IsDigitString(num)
    requires Spaces(ws2) && IsWord(name) && Spaces(ws3) && Dots(d) && Spaces(ws4)
    requires CaselessEq(word, "passed") || CaselessEq(word, "failed")
    ensures var status := ws3 + (d + (ws4 + (word + rest)));
      var line := test + (ws1 + ("#" + (num + (":" + (ws2 + (name + status))))));
      MatchCTest(line) == Some((TestCase(name, Upper(word)), rest))
  {
    var status := ws3 + (d + (ws4 + (word + rest)));
    var afterColon := ws2 + (name + status);
    var line := test + (ws1 + ("#" + (num + (":" + afterColon))));
    CTestHeaderOf(test, ws1, num, afterColon);
    CTestNameOf(ws2, name, status);
    CTestStatusOf(ws3, d, ws4, word, rest);
    MatchCTestParts(line, afterColon, name, status, Upper(word), rest);
  }

  /** The three parts of the CTest pattern compose into a match. */
  lemma MatchCTestParts(line: string, afterColon: string, name: string, status: string, word: string, rest: string)
    requires CTestHeader(line) == Some(afterColon)
    requires CTestName(afterColon) == Some((name, status))
    requires CTestStatus(status) == Some((word, rest))
    ensures MatchCTest(line) == Some((TestCase(name, word), rest))
  {
  }

  /** The word a runner prints for a status. */
  function StatusWord(status: string): string {
    if status == Passed then "Passed" else "Failed"
  }

  /**
   * `Test #<n>: <name> ... <Passed|Failed>` and its line break, then `more`;
   * the nesting follows the pattern's parts.
   */
  function CTestLine(n: nat, t: TestCase, more: string): string {
    "Test" + (" " + ("#" + (NatToString(n) + (":" + (" " + (t.name
      + (" " + ("..." + (" " + (StatusWord(t.status) + ("\n" + more)))))))))))
  }

  /** A CTest report numbering its tests from `n`, followed by `more`. */
  function CTestReport(tests: seq<TestCase>, n: nat, more: string): string
    decreases |tests|
  {
    if tests == [] then more else CTestLine(n, tests[0], CTestReport(tests[1..], n + 1, more))
  }

  lemma CTestLineReads(n: nat, t: TestCase, more: string)
    requires CTestShaped(t)
    ensures MatchCTest(CTestLine(n, t, more)) == Some((t, "\n" + more))
  {
    var word := StatusWord(t.status);
    assert CaselessEq("Test", "test");
    assert Spaces(" ") && Dots("...");
    assert CaselessEq(word, "passed") || CaselessEq(word, "failed");
    assert Upper(word) == t.status;
    MatchCTestOf("Test", " ", NatToString(n), " ", t.name, " ", "...", " ", word, "\n" + more);
  }

  lemma CTestLineStep(n: nat, t: TestCase, more: string)
    requires CTestShaped(t)
    ensures CTestMatches(CTestLine(n, t, more)) == [t] + CTestMatches(more)
  {
    CTestLineReads(n, t, more);
    NewlineNotCTest(more);
  }

  /** A line break never starts a CTest match. */
  lemma NewlineNotCTest(more: string)
    ensures CTestMatches("\n" + more) == CTestMatches(more)
  {
    var s := "\n" + more;
    assert !CaselessPrefix(s, "test") by {
      assert LowerChar(s[0]) != 't';
    }
    assert MatchCTest(s) == None;
    assert s[1..] == more;
  }

  /** A CTest report followed by any text: its tests come first, in order, with their statuses. */
  lemma {:induction false} CTestReportRoundTrip(tests: seq<TestCase>, n: nat, more: string)
    requires forall i :: 0 <= i < |tests| ==> CTestShaped(tests[i])
    ensures CTestMatches(CTestReport(tests, n, more)) == tests + CTestMatches(more)
    decreases |tests|
  {
    if tests != [] {
      var next := CTestReport(tests[1..], n + 1, more);
      var tail := CTestMatches(more);
      CTestLineStep(n, tests[0], next);
      CTestReportRoundTrip(tests[1..], n + 1, more);
      calc {
        CTestMatches(CTestReport(tests, n, more));
        CTestMatches(CTestLine(n, tests[0], next));
        [tests[0]] + (tests[1..] + tail);
        { ConsTail(tests, tail); }
        tests + tail;
      }
    }
  }

  lemma ConsTail(tests: seq<TestCase>, tail: seq<TestCase>)
    requires tests != []
    ensures [tests[0]] + (tests[1..] + tail) == tests + tail
  {
    assert [tests[0]] + tests[1..] == tests;
  }

  /** After a non-empty CTest report, whatever follows is searched only for CTest lines. */
  lemma CTestTakesPrecedence(tests: seq<TestCase>, n: nat, more: string)
    requires tests != []
    requires forall i :: 0 <= i < |tests| ==> CTestShaped(tests[i])
    ensures ParsedTests(CTestReport(tests, n, more)) == tests + CTestMatches(more)
  {
    CTestReportRoundTrip(tests, n, more);
  }

  /** `PASS: <name>` or `FAIL: <name>` and its line break, then `more`. */
  function AutomakeLine(t: TestCase, more: string): string {
    (if t.status == Passed then "PASS" else "FAIL") + (":" + (" " + (t.name + ("\n" + more))))
  }

  /** An Automake log of the tests, followed by `more`. */
  function AutomakeReport(tests: seq<TestCase>, more: string): string
    decreases |tests|
  {
    if tests == [] then more else AutomakeLine(tests[0], AutomakeReport(tests[1..], more))
  }

  /** A name the Automake pattern reads back unchanged: on one line, no whitespace at either end. */
  predicate PlainName(name: string) {
    name != [] && !IsSpace(name[0]) && !IsSpace(name[|name| - 1])
    && forall i :: 0 <= i < |name| ==> name[i] != '\n'
  }

  lemma {:induction false} LineLengthOf(line: string, rest: string)
    requires forall i :: 0 <= i < |line| ==> line[i] != '\n'
    requires rest == [] || rest[0] == '\n'
    ensures LineLength(line + rest) == |line|
    decreases |line|
  {
    if line != [] {
      assert (line + rest)[1..] == line[1..] + rest;
      LineLengthOf(line[1..], rest);
    }
  }

  /** `\s+(.+)$` reads a one-line name after any spacing. */
  lemma AutomakeBodyOf(ws: string, name: string, rest: string)
    requires Spaces(ws) && PlainName(name) && (rest == [] || rest[0] == '\n')
    ensures AutomakeBody(ws + (name + rest)) == Some((name, rest))
  {
    LeadingSpacesOf(ws, name + rest);
    assert (ws + (name + rest))[|ws|..] == name + rest;
    LineLengthOf(name, rest);
    assert (name + rest)[..|name|] == name && (name + rest)[|name|..] == rest;
  }

  lemma AutomakeLineReads(t: TestCase, more: string)
    requires PlainName(t.name) && (t.status == Passed || t.status == Failed)
    ensures MatchAutomake(AutomakeLine(t, more)) == Some((t, "\n" + more))
  {
    var kw := if t.status == Passed then "PASS" else "FAIL";
    var body := " " + (t.name + ("\n" + more));
    var s := AutomakeLine(t, more);
    assert s == kw + (":" + body);
    assert s[..4] == kw && s[4] == ':' && s[5..] == body;
    if t.status != Passed {
      assert s[..4] != "PASS";
    }
    assert KeywordAt(s, AutomakeStatuses) == Some(kw);
    assert Spaces(" ");
    AutomakeBodyOf(" ", t.name, "\n" + more);
    StripUnchanged(t.name);
    NormaliseStatuses();
  }

  lemma AutomakeLineStep(t: TestCase, more: string)
    requires PlainName(t.name) && (t.status == Passed || t.status == Failed)
    ensures AutomakeMatches(AutomakeLine(t, more), true) == [t] + AutomakeMatches(more, true)
  {
    AutomakeLineReads(t, more);
    NewlineStartsLine(more);
  }

  /** Past a line break the Automake search is at a line start again. */
  lemma NewlineStartsLine(more: string)
    ensures AutomakeMatches("\n" + more, false) == AutomakeMatches(more, true)
  {
    var s := "\n" + more;
    assert s[0] == '\n' && s[1..] == more;
  }

  /** An Automake log followed by any text: its tests come first, in order, with their statuses. */
  lemma {:induction false} AutomakeReportRoundTrip(tests: seq<TestCase>, more: string)
    requires forall i :: 0 <= i < |tests| ==> PlainName(tests[i].name)
    requires WellFormed(tests)
    ensures AutomakeMatches(AutomakeReport(tests, more), true) == tests + AutomakeMatches(more, true)
    decreases |tests|
  {
    if tests != [] {
      var next := AutomakeReport(tests[1..], more);
      var tail := AutomakeMatches(more, true);
      AutomakeLineStep(tests[0], next);
      AutomakeReportRoundTrip(tests[1..], more);
      calc {
        AutomakeMatches(AutomakeReport(tests, more), true);
        AutomakeMatches(AutomakeLine(tests[0], next), true);
        [tests[0]] + (tests[1..] + tail);
        { ConsTail(tests, tail); }
        tests + tail;
      }
    }
  }

  // ---------------------------------------------------------------------------
  // run_tests: ctest, then make check, then make test
  // ---------------------------------------------------------------------------

  /** A finished command: exit status, stdout, stderr, and how long it ran in seconds. */
  datatype Proc = Proc(rc: int, out: string, err: string, seconds: nat)

  const CommandTimeout := 600
  const TestTimeout := 300
  const TimedOutText := "Command timed out"

  /** `run_cmd`: a command over its time limit reports status -1, no output and the timeout message. */
  function RunCmd(p: Proc, timeout: nat): (int, string, string) {
    if p.seconds > timeout then (-1, "", TimedOutText) else (p.rc, p.out, p.err)
  }

  const CTestCommand := "ctest -V"
  const TestProjectBanner := "Test project"
  const NoRule := "No rule to make target"
  const MakeTargets: seq<string> := ["check", "test"]

  function MakeCommand(target: string): string {
    "make " + target + " -k"
  }

  /** The tests ctest reports: its output is parsed when it exits 0 or prints the banner. */
  function CTestTests(exec: string -> Proc): seq<TestCase> {
    var (c, o, _) := RunCmd(exec(CTestCommand), TestTimeout);
    if c == 0 || Contains(o, TestProjectBanner) then ParsedTests(o) else []
  }

  /** The parse of one make target's output, or nothing when make has no such rule. */
  function MakeAttempt(exec: string -> Proc, target: string): seq<TestCase> {
    var (_, o, e) := RunCmd(exec(MakeCommand(target)), TestTimeout);
    if Contains(e, NoRule) then [] else ParsedTests(o)
  }

  /** The first non-empty parse among the make targets, in order. */
  function MakeTests(exec: string -> Proc, targets: seq<string>): seq<TestCase>
    decreases |targets|
  {
    if targets == [] then []
    else if MakeAttempt(exec, targets[0]) != [] then MakeAttempt(exec, targets[0])
    else MakeTests(exec, targets[1..])
  }

  /** `run_tests`: ctest's tests, or else those of the first make target that reports any. */
  function TestsFound(exec: string -> Proc): seq<TestCase> {
    var ctest := CTestTests(exec);
    if ctest != [] then ctest else MakeTests(exec, MakeTargets)
  }

  /** The `for target in [...]` loop: stop at the first target whose output parses to something. */
  method TryMakeTargets(exec: string -> Proc, targets: seq<string>) returns (tests: seq<TestCase>)
    ensures tests == MakeTests(exec, targets)
  {
    for i := 0 to |targets|
      invariant MakeTests(exec, targets[i..]) == MakeTests(exec, targets)
    {
      assert targets[i..][1..] == targets[i + 1..];
      var (_, o, e) := RunCmd(exec(MakeCommand(targets[i])), TestTimeout);
      if !Contains(e, NoRule) {
        var parsed := ParseTestOutput(o);
        if parsed != [] {
          return parsed;
        }
      }
    }
    tests := [];
  }

  method RunTests(exec: string -> Proc) returns (tests: seq<TestCase>)
    ensures tests == TestsFound(exec)
  {
    tests := [];
    var (c, o, _) := RunCmd(exec(CTestCommand), TestTimeout);
    if c == 0 || Contains(o, TestProjectBanner) {
      tests := ParseTestOutput(o);
    }
    if tests == [] {
      tests := TryMakeTargets(exec, MakeTargets);
    }
  }

  /** The tests found are empty or the parse of one of the three runs, ctest first. */
  lemma TestsFoundSource(exec: string -> Proc)
    ensures var found := TestsFound(exec);
      found == []
      || found == ParsedTests(RunCmd(exec(CTestCommand), TestTimeout).1)
      || found == ParsedTests(RunCmd(exec(MakeCommand("check")), TestTimeout).1)
      || found == ParsedTests(RunCmd(exec(MakeCommand("test")), TestTimeout).1)
  {
    assert MakeTargets[1..][1..] == [];
  }

  /** Once `make check` reports tests, `make test` has no say. */
  lemma MakeTestNotConsulted(exec1: string -> Proc, exec2: string -> Proc)
    requires exec1(CTestCommand) == exec2(CTestCommand)
    requires exec1(MakeCommand("check")) == exec2(MakeCommand("check"))
    requires MakeAttempt(exec1, "check") != []
    ensures TestsFound(exec1) == TestsFound(exec2)
  {
  }

  /** A target whose stderr says there is no such rule is skipped whatever it printed. */
  lemma NoRuleSkipped(exec: string -> Proc, target: string)
    requires Contains(RunCmd(exec(MakeCommand(target)), TestTimeout).2, NoRule)
    ensures MakeTests(exec, [target]) == []
  {
  }

  /** When ctest reports tests, no make target is consulted. */
  lemma CTestFirst(exec1: string -> Proc, exec2: string -> Proc)
    requires exec1(CTestCommand) == exec2(CTestCommand)
    requires CTestTests(exec1) != []
    ensures TestsFound(exec1) == TestsFound(exec2) == CTestTests(exec1)
  {
  }

  // ---------------------------------------------------------------------------
  // process_commit_stage
  // ---------------------------------------------------------------------------

  const CheckoutFailed := "Checkout Failed"
  const BuildFailed := "Build Failed"
  const StageSucceeded := "Success"

  function CheckoutCommand(hash: string): string {
    "git checkout " + hash
  }

  /** The number of PASSED tests (a generator expression over the list). */
  function CountPassed(tests: seq<TestCase>): (n: nat)
    ensures n <= |tests|
    decreases |tests|
  {
    if tests == [] then 0
    else CountPassed(tests[..|tests| - 1]) + (if tests[|tests| - 1].status == Passed then 1 else 0)
  }

  /** All tests passed exactly when the count of PASSED is the length of the list. */
  lemma {:induction false} CountPassedAll(tests: seq<TestCase>)
    ensures CountPassed(tests) == |tests| <==> forall i :: 0 <= i < |tests| ==> tests[i].status == Passed
    ensures CountPassed(tests) == 0 <==> forall i :: 0 <= i < |tests| ==> tests[i].status != Passed
    decreases |tests|
  {
    if tests != [] {
      var init := tests[..|tests| - 1];
      CountPassedAll(init);
      assert forall i :: 0 <= i < |init| ==> init[i] == tests[i];
    }
  }

  datatype StageResult = StageResult(built: bool, total: nat, passed: nat, tests: seq<TestCase>, message: string)

  /** Checkout, build, test: the outcome of one commit. */
  function Stage(hash: string, exec: string -> Proc, builds: bool): StageResult {
    if RunCmd(exec(CheckoutCommand(hash)), CommandTimeout).0 != 0 then StageResult(false, 0, 0, [], CheckoutFailed)
    else if !builds then StageResult(false, 0, 0, [], BuildFailed)
    else
      var tests := TestsFound(exec);
      StageResult(true, |tests|, CountPassed(tests), tests, StageSucceeded)
  }

  /** The counts a stage reports: zero on failure, otherwise passed <= total == number of tests. */
  lemma StageCounts(hash: string, exec: string -> Proc, builds: bool)
    ensures var r := Stage(hash, exec, builds);
      && (r.built <==> RunCmd(exec(CheckoutCommand(hash)), CommandTimeout).0 == 0 && builds)
      && (!r.built ==> r.total == 0 && r.passed == 0 && r.tests == [])
      && (!r.built ==> (r.message == CheckoutFailed <==> RunCmd(exec(CheckoutCommand(hash)), CommandTimeout).0 != 0))
      && (r.built ==> r.message == StageSucceeded && r.total == |r.tests| && r.passed <= r.total)
      && (r.built ==> r.tests == TestsFound(exec) && WellFormed(r.tests))
  {
    var r := Stage(hash, exec, builds);
    TestsFoundWellFormed(exec);
  }

  lemma TestsFoundWellFormed(exec: string -> Proc)
    ensures WellFormed(TestsFound(exec))
  {
    ParsedTestsWellFormed(RunCmd(exec(CTestCommand), TestTimeout).1);
    ParsedTestsWellFormed(RunCmd(exec(MakeCommand("check")), TestTimeout).1);
    ParsedTestsWellFormed(RunCmd(exec(MakeCommand("test")), TestTimeout).1);
    TestsFoundSource(exec);
  }

  /** `process_commit_stage`; the `git reset`/`git clean` before the checkout only change the working tree. */
  method ProcessCommitStage(hash: string, exec: string -> Proc, builds: bool) returns (r: StageResult)
    ensures r == Stage(hash, exec, builds)
  {
    var (code, _, _) := RunCmd(exec(CheckoutCommand(hash)), CommandTimeout);
    if code != 0 {
      return StageResult(false, 0, 0, [], CheckoutFailed);
    }
    if !builds {
      return StageResult(false, 0, 0, [], BuildFailed);
    }
    var tests := RunTests(exec);
    var passed: nat := 0;
    for i := 0 to |tests|
      invariant passed == CountPassed(tests[..i])
    {
      assert tests[..i + 1][..i] == tests[..i];
      if tests[i].status == Passed {
        passed := passed + 1;
      }
    }
    assert tests[..|tests|] == tests;
    r := StageResult(true, |tests|, passed, tests, StageSucceeded);
  }

  // ---------------------------------------------------------------------------
  // CSV rows
  // ---------------------------------------------------------------------------

  const FieldNames: seq<string> := [
    "project",
    "vuln_commit", "vuln_total_tc", "vuln_passed_tc", "vuln_tn", "vuln_sf",
    "fix_commit", "fix_total_tc", "fix_passed_tc", "fix_tn", "fix_sf"
  ]

  datatype CsvRow = CsvRow(
    project: string,
    vulnCommit: string, vulnTotal: nat, vulnPassed: nat, vulnTn: string, vulnSf: string,
    fixCommit: string, fixTotal: nat, fixPassed: nat, fixTn: string, fixSf: string)

  const PendingCoverage := "Pending_Coverage_Analysis"
  const SeeDetailedRows := "See detailed rows"

  /** The single row written when either commit failed to check out or build. */
  function FailureRow(project: string, vulnHash: string, fixHash: string, v: StageResult, f: StageResult): CsvRow {
    CsvRow(project,
      vulnHash, 0, 0, if !v.built then v.message else SeeDetailedRows, "",
      fixHash, 0, 0, if !f.built then f.message else SeeDetailedRows, "")
  }

  function Max(a: nat, b: nat): nat { if a >= b then a else b }

  /** `max(len(v_tests), len(f_tests), 1)`. */
  function RowCount(v: StageResult, f: StageResult): nat {
    Max(Max(|v.tests|, |f.tests|), 1)
  }

  /** Row i pairs the i-th test of each side; a side without one gets empty cells. */
  function AlignedRow(project: string, vulnHash: string, fixHash: string, v: StageResult, f: StageResult, i: nat): CsvRow {
    CsvRow(project,
      vulnHash, v.total, v.passed,
      if i < |v.tests| then v.tests[i].name else "",
      if i < |v.tests| then PendingCoverage else "",
      fixHash, f.total, f.passed,
      if i < |f.tests| then f.tests[i].name else "",
      if i < |f.tests| then PendingCoverage else "")
  }

  /** The rows one project contributes. */
  function ProjectRows(project: string, vulnHash: string, fixHash: string, v: StageResult, f: StageResult): seq<CsvRow> {
    if !v.built || !f.built then [FailureRow(project, vulnHash, fixHash, v, f)]
    else seq(RowCount(v, f), i requires 0 <= i => AlignedRow(project, vulnHash, fixHash, v, f, i))
  }

  /** The `writerow` calls for one project. */
  method WriteProjectRows(project: string, vulnHash: string, fixHash: string, v: StageResult, f: StageResult)
    returns (rows: seq<CsvRow>)
    ensures rows == ProjectRows(project, vulnHash, fixHash, v, f)
  {
    if !v.built || !f.built {
      return [FailureRow(project, vulnHash, fixHash, v, f)];
    }
    var maxRows := Max(Max(|v.tests|, |f.tests|), 1);
    rows := [];
    for i := 0 to maxRows
      invariant |rows| == i
      invariant forall j :: 0 <= j < i ==> rows[j] == AlignedRow(project, vulnHash, fixHash, v, f, j)
    {
      rows := rows + [AlignedRow(project, vulnHash, fixHash, v, f, i)];
    }
  }

  /** Every row of a project that built carries its commits and counts; row i holds the i-th tests. */
  lemma AlignedRowsSpec(project: string, vulnHash: string, fixHash: string, v: StageResult, f: StageResult)
    requires v.built && f.built
    ensures var rows := ProjectRows(project, vulnHash, fixHash, v, f);
      && |rows| >= 1 && |rows| >= |v.tests| && |rows| >= |f.tests|
      && (|rows| == |v.tests| || |rows| == |f.tests| || |rows| == 1)
      && (forall i :: 0 <= i < |rows| ==>
            rows[i].project == project && rows[i].vulnCommit == vulnHash && rows[i].vulnTotal == v.total && rows[i].vulnPassed == v.passed
            && rows[i].fixCommit == fixHash && rows[i].fixTotal == f.total && rows[i].fixPassed == f.passed)
      && (forall i :: 0 <= i < |v.tests| ==> rows[i].vulnTn == v.tests[i].name && rows[i].vulnSf == PendingCoverage)
      && (forall i :: |v.tests| <= i < |rows| ==> rows[i].vulnTn == "" && rows[i].vulnSf == "")
      && (forall i :: 0 <= i < |f.tests| ==> rows[i].fixTn == f.tests[i].name && rows[i].fixSf == PendingCoverage)
      && (forall i :: |f.tests| <= i < |rows| ==> rows[i].fixTn == "" && rows[i].fixSf == "")
  {
  }

  /** A failed side gets its message, a side that built gets a pointer to the detailed rows. */
  lemma FailureRowSpec(project: string, vulnHash: string, fixHash: string, v: StageResult, f: StageResult)
    requires !v.built || !f.built
    ensures var rows := ProjectRows(project, vulnHash, fixHash, v, f);
      && |rows| == 1
      && rows[0].vulnTotal == 0 && rows[0].vulnPassed == 0 && rows[0].fixTotal == 0 && rows[0].fixPassed == 0
      && rows[0].vulnSf == "" && rows[0].fixSf == ""
      && (rows[0].vulnTn == SeeDetailedRows <==> v.built || v.message == SeeDetailedRows)
      && (!v.built ==> rows[0].vulnTn == v.message)
      && (!f.built ==> rows[0].fixTn == f.message)
  {
  }

  // ---------------------------------------------------------------------------
  // main
  // ---------------------------------------------------------------------------

  /** One line of the dataset snapshot. */
  datatype SnapshotRow = SnapshotRow(project: string, vulnCommit: string, fixCommit: string)

  /**
   * What the world answers: whether a project's clone exists, each commit's
   * command oracle, and whether each commit builds.
   */
  datatype World = World(
    repoExists: string -> bool,
    exec: (string, string) -> (string -> Proc),
    builds: (string, string) -> bool)

  function StageOf(w: World, project: string, hash: string): StageResult {
    Stage(hash, w.exec(project, hash), w.builds(project, hash))
  }

  /** The rows one snapshot line contributes; a project without a clone contributes none. */
  function EntryRows(w: World, e: SnapshotRow): seq<CsvRow> {
    if !w.repoExists(e.project) then []
    else ProjectRows(e.project, e.vulnCommit, e.fixCommit,
      StageOf(w, e.project, e.vulnCommit), StageOf(w, e.project, e.fixCommit))
  }

  /** All data rows, in snapshot order. */
  function Rows(w: World, entries: seq<SnapshotRow>): seq<CsvRow>
    decreases |entries|
  {
    if entries == [] then []
    else Rows(w, entries[..|entries| - 1]) + EntryRows(w, entries[|entries| - 1])
  }

  /** One snapshot line: two stages, then its rows. */
  method ProcessEntry(w: World, e: SnapshotRow) returns (rows: seq<CsvRow>)
    ensures rows == EntryRows(w, e)
  {
    if !w.repoExists(e.project) {
      return [];
    }
    var v := ProcessCommitStage(e.vulnCommit, w.exec(e.project, e.vulnCommit), w.builds(e.project, e.vulnCommit));
    var f := ProcessCommitStage(e.fixCommit, w.exec(e.project, e.fixCommit), w.builds(e.project, e.fixCommit));
    rows := WriteProjectRows(e.project, e.vulnCommit, e.fixCommit, v, f);
  }

  /** `main`: exit status 1 without a snapshot, otherwise the rows written under the header. */
  method Verify(snapshotExists: bool, w: World, entries: seq<SnapshotRow>) returns (r: Result<seq<CsvRow>, int>)
    ensures !snapshotExists ==> r == Err(1)
    ensures snapshotExists ==> r == Ok(Rows(w, entries))
  {
    if !snapshotExists {
      return Err(1);
    }
    var rows := [];
    for i := 0 to |entries|
      invariant rows == Rows(w, entries[..i])
    {
      assert entries[..i + 1][..i] == entries[..i];
      var more := ProcessEntry(w, entries[i]);
      rows := rows + more;
    }
    assert entries[..|entries|] == entries;
    return Ok(rows);
  }

  /** Every row comes from a snapshot line whose clone exists, and carries that line's project and commits. */
  lemma {:induction false} RowsFromSnapshot(w: World, entries: seq<SnapshotRow>)
    ensures forall r :: r in Rows(w, entries) ==> exists e :: e in entries && FromEntry(w, r, e)
    decreases |entries|
  {
    if entries != [] {
      var init := entries[..|entries| - 1];
      var e := entries[|entries| - 1];
      RowsFromSnapshot(w, init);
      forall r | r in Rows(w, entries) ensures exists e' :: e' in entries && FromEntry(w, r, e') {
        if r in Rows(w, init) {
          var e' :| e' in init && FromEntry(w, r, e');
          assert e' in entries;
        } else {
          assert r in EntryRows(w, e);
          assert FromEntry(w, r, e);
        }
      }
    }
  }

  predicate FromEntry(w: World, r: CsvRow, e: SnapshotRow) {
    w.repoExists(e.project) && r.project == e.project && r.vulnCommit == e.vulnCommit && r.fixCommit == e.fixCommit
  }

  /** The number of snapshot lines whose clone exists. */
  function Present(w: World, entries: seq<SnapshotRow>): nat
    decreases |entries|
  {
    if entries == [] then 0
    else Present(w, entries[..|entries| - 1]) + (if w.repoExists(entries[|entries| - 1].project) then 1 else 0)
  }

  /** Every project with a clone writes at least one row. */
  lemma {:induction false} AtLeastOneRowEach(w: World, entries: seq<SnapshotRow>)
    ensures |Rows(w, entries)| >= Present(w, entries)
    decreases |entries|
  {
    if entries != [] {
      AtLeastOneRowEach(w, entries[..|entries| - 1]);
    }
  }
}
