/**
 * perf_sampling_curl.py: build curl, run its test suite once under
 * `perf stat` for RAPL energy and elapsed time, once under `perf record` for
 * function samples, and turn both outputs into CSV rows.  Shell commands are
 * an oracle from command text to its exit status, output and duration; file
 * existence and the clock are inputs.
 */
module PerfSamplingCurl {
  import opened Wrappers
  import opened PyStr

  const Project: string := "curl"

  /** The best-effort build, in order. */
  const BuildCommands: seq<string> := [
    "./buildconf",
    "./configure --enable-debug --with-openssl",
    "make -j$(nproc)",
    "make -C tests servers"
  ]

  const TestCommand: string := "make test"
  const PerfFreqHz: nat := 99

  /** No timeout for the measured test runs. */
  const TestTimeout: Option<nat> := None

  const CandidateEnergyEvents: seq<string> := [
    "power/energy-pkg/",
    "power/energy-cores/",
    "power/energy-ram/",
    "power/energy-psys/"
  ]

  // ---------------------------------------------------------------------------
  // Running commands
  // ---------------------------------------------------------------------------

  /** What `bash -lc <cmd>` does when run to completion: exit status, combined output, duration. */
  datatype Proc = Proc(rc: int, out: string, seconds: nat)

  const TimeoutCode: int := 124
  const TimeoutText: string := "[ERROR] Timeout expired\n"

  predicate TimedOut(p: Proc, timeout: Option<nat>) {
    timeout.Some? && p.seconds > timeout.value
  }

  /** `run_cmd_stream`: the exit status, or 124 when the timeout expires (the output goes to the log). */
  function Stream(p: Proc, timeout: Option<nat>): int {
    if TimedOut(p, timeout) then TimeoutCode else p.rc
  }

  /** `run_cmd_capture`: exit status and output, success or not; a fixed message on timeout. */
  function Capture(p: Proc, timeout: Option<nat>): (int, string) {
    if TimedOut(p, timeout) then (TimeoutCode, TimeoutText) else (p.rc, p.out)
  }

  /**
   * Both runners report an expired timeout as exit code 124 and otherwise
   * pass the command's own status through; with no timeout, as for the
   * measured test runs, a command is never cut short.
   */
  lemma TimeoutExitCode(p: Proc, timeout: Option<nat>)
    ensures TimedOut(p, timeout) ==> Stream(p, timeout) == 124 && Capture(p, timeout) == (124, TimeoutText)
    ensures !TimedOut(p, timeout) ==> Stream(p, timeout) == p.rc && Capture(p, timeout) == (p.rc, p.out)
    ensures Stream(p, TestTimeout) == p.rc && Capture(p, TestTimeout) == (p.rc, p.out)
  {
  }

  /** `have_tool`: `command -v` finds the tool. */
  predicate HaveTool(exec: string -> Proc, tool: string) {
    exec("command -v " + ShlexQuote(tool) + " >/dev/null 2>&1").rc == 0
  }

  // ---------------------------------------------------------------------------
  // Energy events
  // ---------------------------------------------------------------------------

  /** `list_supported_perf_events`: the `perf list` output, or nothing when it fails. */
  function PerfListText(exec: string -> Proc): string {
    var (rc, out) := Capture(exec("perf list"), Some(30));
    if rc == 0 then out else ""
  }

  /** The candidates named somewhere in the `perf list` text, in candidate order. */
  function Supported(candidates: seq<string>, text: string): seq<string>
    decreases |candidates|
  {
    if candidates == [] then []
    else
      var last := candidates[|candidates| - 1];
      Supported(candidates[..|candidates| - 1], text) + (if Contains(text, last) then [last] else [])
  }

  /** `filter_supported_energy_events`: the supported candidates, falling back to all of them. */
  function EnergyEvents(candidates: seq<string>, text: string): seq<string> {
    if Strip(text) == [] then candidates
    else
      var supported := Supported(candidates, text);
      if supported != [] then supported else candidates
  }

  lemma {:induction false} SupportedMembers(candidates: seq<string>, text: string)
    ensures forall ev :: ev in Supported(candidates, text) <==> ev in candidates && Contains(text, ev)
    decreases |candidates|
  {
    if candidates != [] {
      var init := candidates[..|candidates| - 1];
      SupportedMembers(init, text);
      assert candidates == init + [candidates[|candidates| - 1]];
    }
  }

  /**
   * The events requested: all candidates when `perf list` printed nothing or
   * named none of them, otherwise exactly the candidates it names.
   */
  lemma EnergyEventsSpec(candidates: seq<string>, text: string)
    ensures var r := EnergyEvents(candidates, text);
      && (candidates != [] ==> r != [])
      && (forall ev :: ev in r ==> ev in candidates)
      && (Strip(text) == [] ==> r == candidates)
      && ((forall ev :: ev in candidates ==> !Contains(text, ev)) ==> r == candidates)
      && (Strip(text) != [] && (exists ev :: ev in candidates && Contains(text, ev)) ==>
            forall ev :: ev in r <==> ev in candidates && Contains(text, ev))
  {
    SupportedMembers(candidates, text);
    var supported := Supported(candidates, text);
    if supported != [] {
      assert supported[0] in supported;
    }
  }

  /** Every character of a candidate event is one `shlex.quote` leaves bare. */
  lemma CandidatesAreSafe()
    ensures forall ev, i :: ev in CandidateEnergyEvents && 0 <= i < |ev| ==> ShlexSafe(ev[i])
  {
    forall ev, i | ev in CandidateEnergyEvents && 0 <= i < |ev|
      ensures ShlexSafe(ev[i])
    {
      assert ev == "power/energy-pkg/" || ev == "power/energy-cores/" || ev == "power/energy-ram/" || ev == "power/energy-psys/";
    }
  }

  lemma {:induction false} JoinSafe(events: seq<string>)
    requires forall ev, i :: ev in events && 0 <= i < |ev| ==> ShlexSafe(ev[i])
    ensures forall i :: 0 <= i < |Join(events, ",")| ==> ShlexSafe(Join(events, ",")[i])
    decreases |events|
  {
    if |events| > 1 {
      JoinSafe(events[1..]);
      var j := Join(events, ",");
      var rest := Join(events[1..], ",");
      assert j == events[0] + "," + rest;
      forall i | 0 <= i < |j| ensures ShlexSafe(j[i]) {
        if i < |events[0]| {
          assert j[i] == events[0][i];
        } else if i == |events[0]| {
          assert j[i] == ',';
        } else {
          assert j[i] == rest[i - |events[0]| - 1];
        }
      }
    } else if |events| == 1 {
      assert events[0] in events;
    }
  }

  /** Any non-empty choice of candidate events reaches `perf stat -e` unquoted. */
  lemma EventsNeedNoQuoting(events: seq<string>)
    requires events != [] && forall ev :: ev in events ==> ev in CandidateEnergyEvents
    ensures ShlexQuote(Join(events, ",")) == Join(events, ",")
  {
    CandidatesAreSafe();
    JoinSafe(events);
    assert events[0] in CandidateEnergyEvents;
    assert |Join(events, ",")| > 0 by {
      JoinNonEmpty(events);
    }
  }

  lemma JoinNonEmpty(events: seq<string>)
    requires events != [] && events[0] != []
    ensures |Join(events, ",")| >= |events[0]|
  {
  }

  // ---------------------------------------------------------------------------
  // perf stat output
  // ---------------------------------------------------------------------------

  /** `[\d\.,]` (ASCII digits). */
  predicate IsNumberChar(c: char) { IsDigit(c) || c == '.' || c == ',' }

  /** `[a-z]` under IGNORECASE (ASCII letters). */
  predicate IsLetter(c: char) { 'a' <= c <= 'z' || 'A' <= c <= 'Z' }

  /** Length of the leading `[\d\.,]` run. */
  function NumberRun(s: string): (k: nat)
    ensures k <= |s| && (forall i :: 0 <= i < k ==> IsNumberChar(s[i])) && (k < |s| ==> !IsNumberChar(s[k]))
    decreases |s|
  {
    if s == [] || !IsNumberChar(s[0]) then 0 else 1 + NumberRun(s[1..])
  }

  /** Length of the leading letter run. */
  function LetterRun(s: string): (k: nat)
    ensures k <= |s| && (forall i :: 0 <= i < k ==> IsLetter(s[i])) && (k < |s| ==> !IsLetter(s[k]))
    decreases |s|
  {
    if s == [] || !IsLetter(s[0]) then 0 else 1 + LetterRun(s[1..])
  }

  /** `\s*(?:#.*)?\s*$`: only whitespace, or whitespace and then a comment. */
  predicate CommentTail(s: string) {
    var t := s[LeadingSpaces(s)..];
    t == [] || t[0] == '#'
  }

  /**
   * The energy pattern `^\s*([\d\.,]+)\s+Joules\s+power/energy-([a-z]+)\/…`
   * on a stripped line: the number text and the domain.
   */
  function MatchEnergy(line: string): (r: Option<(string, string)>)
    ensures r.Some? ==> r.value.0 != [] && (forall i :: 0 <= i < |r.value.0| ==> IsNumberChar(r.value.0[i]))
    ensures r.Some? ==> r.value.1 != [] && (forall i :: 0 <= i < |r.value.1| ==> IsLetter(r.value.1[i]))
  {
    NumberThenDomain(line[LeadingSpaces(line)..])
  }

  /** The energy pattern after the leading whitespace. */
  function NumberThenDomain(s: string): (r: Option<(string, string)>)
    ensures r.Some? ==> r.value.0 != [] && (forall i :: 0 <= i < |r.value.0| ==> IsNumberChar(r.value.0[i]))
    ensures r.Some? ==> r.value.1 != [] && (forall i :: 0 <= i < |r.value.1| ==> IsLetter(r.value.1[i]))
  {
    var k := NumberRun(s);
    if k == 0 then None
    else
      var num := s[..k];
      assert forall i :: 0 <= i < |num| ==> IsNumberChar(num[i]);
      var domain := EnergyDomain(s[k..]);
      if domain.None? then None else Some((num, domain.value))
  }

  /** `\s+Joules\s+power/energy-([a-z]+)\/\s*(?:#.*)?\s*$` after the number: the domain. */
  function EnergyDomain(rest: string): (r: Option<string>)
    ensures r.Some? ==> r.value != [] && (forall i :: 0 <= i < |r.value| ==> IsLetter(r.value[i]))
  {
    match AfterSpacedWord(rest, "joules")
    case None => None
    case Some(s3) =>
      match AfterSpacedWord(s3, "power/energy-")
      case None => None
      case Some(s5) =>
        var d := LetterRun(s5);
        if d == 0 || d == |s5| || s5[d] != '/' || !CommentTail(s5[d + 1..]) then None
        else Some(s5[..d])
  }

  /** The time pattern `^\s*([\d\.,]+)\s+seconds\s+time\s+elapsed\s*$`: the number text. */
  function MatchTime(line: string): (r: Option<string>)
    ensures r.Some? ==> r.value != [] && forall i :: 0 <= i < |r.value| ==> IsNumberChar(r.value[i])
  {
    NumberThenTime(line[LeadingSpaces(line)..])
  }

  /** The time pattern after the leading whitespace. */
  function NumberThenTime(s: string): (r: Option<string>)
    ensures r.Some? ==> r.value != [] && forall i :: 0 <= i < |r.value| ==> IsNumberChar(r.value[i])
  {
    var k := NumberRun(s);
    if k == 0 then None
    else
      var num := s[..k];
      assert forall i :: 0 <= i < |num| ==> IsNumberChar(num[i]);
      if ElapsedTail(s[k..]) then Some(num) else None
  }

  /** `\s+seconds\s+time\s+elapsed\s*$` after the number, ignoring case. */
  predicate ElapsedTail(rest: string) {
    match AfterSpacedWord(rest, "seconds")
    case None => false
    case Some(s3) =>
      match AfterSpacedWord(s3, "time")
      case None => false
      case Some(s4) =>
        match AfterSpacedWord(s4, "elapsed")
        case None => false
        case Some(s5) => LeadingSpaces(s5) == |s5|
  }

  /** A metric a line reports: its key and its number as written. */
  datatype Reading = Reading(key: string, raw: string)

  const TimeKey: string := "time-elapsed-s"

  function EnergyKey(domain: string): string {
    "energy-" + domain + "-j"
  }

  /** A lower-case ASCII domain name such as `pkg`. */
  predicate IsDomain(d: string) {
    d != [] && forall i :: 0 <= i < |d| ==> 'a' <= d[i] <= 'z'
  }

  /** The keys the parser can produce. */
  predicate IsMetricKey(k: string) {
    k == TimeKey || (|k| > 9 && k[..7] == "energy-" && k[|k| - 2..] == "-j" && IsDomain(k[7..|k| - 2]))
  }

  lemma EnergyKeyIsMetric(domain: string)
    requires domain != [] && forall i :: 0 <= i < |domain| ==> IsLetter(domain[i])
    ensures IsMetricKey(EnergyKey(Lower(domain)))
  {
    var d := Lower(domain);
    var k := EnergyKey(d);
    assert k[..7] == "energy-" && k[|k| - 2..] == "-j" && k[7..|k| - 2] == d;
  }

  /** One line of `perf stat` output, stripped, against the energy pattern and then the time pattern. */
  function ReadingOf(line: string): (r: Option<Reading>)
    ensures r.Some? ==> IsMetricKey(r.value.key) && r.value.raw != []
  {
    var l := Strip(line);
    match MatchEnergy(l)
    case Some((raw, domain)) =>
      EnergyKeyIsMetric(domain);
      Some(Reading(EnergyKey(Lower(domain)), raw))
    case None =>
      match MatchTime(l)
      case Some(raw) => Some(Reading(TimeKey, raw))
      case None => None
  }

  /** `float(raw.replace(",", ""))`; `None` stands for the ValueError. */
  function NumberValue(raw: string): Option<real> {
    ParseFloat(Replace(raw, ",", ""))
  }

  const FloatError: string := "ValueError: could not convert string to float"

  /**
   * `parse_perf_stat_energy` over the first lines: every reading stored
   * under its key, later ones overwriting earlier ones; a number `float`
   * rejects (such as `1.2.3`) raises.
   */
  function StatMetrics(lines: seq<string>): Result<map<string, real>, string>
    decreases |lines|
  {
    if lines == [] then Ok(map[])
    else
      match StatMetrics(lines[..|lines| - 1])
      case Err(e) => Err(e)
      case Ok(m) => StatUpdate(m, lines[|lines| - 1])
  }

  /** One line's effect on the metrics read so far. */
  function StatUpdate(m: map<string, real>, line: string): Result<map<string, real>, string> {
    match ReadingOf(line)
    case None => Ok(m)
    case Some(rd) =>
      match NumberValue(rd.raw)
      case None => Err(FloatError)
      case Some(v) => Ok(m[rd.key := v])
  }

  /** `parse_perf_stat_energy`. */
  method ParsePerfStatEnergy(statOutput: string) returns (r: Result<map<string, real>, string>)
    ensures r == StatMetrics(SplitLines(statOutput))
  {
    r := StatLines(SplitLines(statOutput));
  }

  /** The loop of `parse_perf_stat_energy`, over the output's lines. */
  method StatLines(lines: seq<string>) returns (r: Result<map<string, real>, string>)
    ensures r == StatMetrics(lines)
  {
    var results: map<string, real> := map[];
    var i := 0;
    while i < |lines|
      invariant 0 <= i <= |lines|
      invariant StatMetrics(lines[..i]) == Ok(results)
    {
      var next := StatLine(lines, i, results);
      if next.Err? {
        FailurePersists(lines, i + 1);
        return Err(FloatError);
      }
      results := next.value;
      i := i + 1;
    }
    assert lines[..i] == lines;
    r := Ok(results);
  }

  /** One pass of the loop of `parse_perf_stat_energy`: line `i` read against the metrics so far. */
  method StatLine(lines: seq<string>, i: nat, results: map<string, real>) returns (r: Result<map<string, real>, string>)
    requires i < |lines| && StatMetrics(lines[..i]) == Ok(results)
    ensures r == StatMetrics(lines[..i + 1])
  {
    StatStep(lines, i);
    var rd := ReadingOf(lines[i]);
    if rd.None? {
      return Ok(results);
    }
    var v := NumberValue(rd.value.raw);
    if v.None? {
      return Err(FloatError);
    }
    r := Ok(results[rd.value.key := v.value]);
  }

  lemma StatStep(lines: seq<string>, i: nat)
    requires i < |lines|
    ensures StatMetrics(lines[..i + 1]) == match StatMetrics(lines[..i])
      case Err(e) => Err(e)
      case Ok(m) => StatUpdate(m, lines[i])
  {
    assert lines[..i + 1][..i] == lines[..i];
  }

  /** Once a prefix raises, the whole output does. */
  lemma {:induction false} FailurePersists(lines: seq<string>, n: nat)
    requires n <= |lines| && StatMetrics(lines[..n]).Err?
    ensures StatMetrics(lines) == Err(FloatError)
    decreases |lines| - n
  {
    if n == |lines| {
      assert lines[..n] == lines;
      ErrIsFloatError(lines);
    } else {
      assert lines[..n + 1][..n] == lines[..n];
      FailurePersists(lines, n + 1);
    }
  }

  lemma {:induction false} ErrIsFloatError(lines: seq<string>)
    ensures StatMetrics(lines).Err? ==> StatMetrics(lines) == Err(FloatError)
    decreases |lines|
  {
    if lines != [] {
      ErrIsFloatError(lines[..|lines| - 1]);
    }
  }

  /** Every key the parser stores is `time-elapsed-s` or `energy-<domain>-j` with a lower-case domain. */
  lemma {:induction false} StatKeys(lines: seq<string>)
    ensures StatMetrics(lines).Ok? ==> forall k :: k in StatMetrics(lines).value ==> IsMetricKey(k)
    decreases |lines|
  {
    if lines != [] {
      StatKeys(lines[..|lines| - 1]);
    }
  }

  /**
   * A key is present exactly when some line reports it, and then it holds
   * the value of the last line that does.
   */
  lemma {:induction false} LastReadingWins(lines: seq<string>, i: nat)
    requires i < |lines| && ReadingOf(lines[i]).Some?
    requires forall j :: i < j < |lines| ==> ReadingOf(lines[j]).None? || ReadingOf(lines[j]).value.key != ReadingOf(lines[i]).value.key
    requires StatMetrics(lines).Ok?
    ensures var rd := ReadingOf(lines[i]).value;
      NumberValue(rd.raw).Some? && rd.key in StatMetrics(lines).value
      && StatMetrics(lines).value[rd.key] == NumberValue(rd.raw).value
    decreases |lines|
  {
    var init := lines[..|lines| - 1];
    assert StatMetrics(init).Ok?;
    if i < |lines| - 1 {
      forall j | i < j < |init| ensures ReadingOf(init[j]).None? || ReadingOf(init[j]).value.key != ReadingOf(init[i]).value.key {
        assert init[j] == lines[j];
      }
      LastReadingWins(init, i);
    }
  }

  /** A key no line reports is absent. */
  lemma {:induction false} UnreportedKeyAbsent(lines: seq<string>, k: string)
    requires forall j :: 0 <= j < |lines| ==> ReadingOf(lines[j]).None? || ReadingOf(lines[j]).value.key != k
    requires StatMetrics(lines).Ok?
    ensures k !in StatMetrics(lines).value
    decreases |lines|
  {
    if lines != [] {
      var init := lines[..|lines| - 1];
      forall j | 0 <= j < |init| ensures ReadingOf(init[j]).None? || ReadingOf(init[j]).value.key != k {
        assert init[j] == lines[j];
      }
      UnreportedKeyAbsent(init, k);
    }
  }

  lemma {:induction false} NumberRunOf(num: string, rest: string)
    requires forall i :: 0 <= i < |num| ==> IsNumberChar(num[i])
    requires rest == [] || !IsNumberChar(rest[0])
    ensures NumberRun(num + rest) == |num|
    decreases |num|
  {
    if num != [] {
      assert (num + rest)[1..] == num[1..] + rest;
      NumberRunOf(num[1..], rest);
    }
  }

  lemma {:induction false} LetterRunOf(word: string, rest: string)
    requires forall i :: 0 <= i < |word| ==> IsLetter(word[i])
    requires rest == [] || !IsLetter(rest[0])
    ensures LetterRun(word + rest) == |word|
    decreases |word|
  {
    if word != [] {
      assert (word + rest)[1..] == word[1..] + rest;
      LetterRunOf(word[1..], rest);
    }
  }

  /** One space and then the keyword, in any case, is consumed by `AfterSpacedWord`. */
  lemma AfterOneSpace(word: string, kw: string, rest: string)
    requires CaselessEq(word, kw) && kw != [] && 'a' <= kw[0] <= 'z'
    ensures AfterSpacedWord(" " + word + rest, kw) == Some(rest)
  {
    assert LowerChar(word[0]) == kw[0];
    var s := " " + word + rest;
    LeadingSpacesOf(" ", word + rest);
    assert s == " " + (word + rest);
    assert s[1..] == word + rest;
    forall i | 0 <= i < |kw| ensures LowerChar((word + rest)[i]) == kw[i] {
      assert (word + rest)[i] == word[i];
    }
    assert (word + rest)[|kw|..] == rest;
  }

  /** A number is its own value once the commas are gone. */
  lemma NumberValueOfNat(n: nat)
    ensures NumberValue(NatToString(n)) == Some(n as real)
  {
    var num := NatToString(n);
    forall i | 0 <= i < |num| ensures num[i] != ',' {
      assert IsDigit(num[i]);
    }
    ReplaceAbsentChar(num, ',', "");
    assert "," == [','];
    ParseFloatOfNat(n);
  }

  /** A number followed by text that does not continue it: the stripped line splits there. */
  lemma NumberThen(num: string, tail: string)
    requires IsDigitString(num) && tail != [] && tail[0] == ' ' && !IsSpace(tail[|tail| - 1])
    ensures var line := num + tail;
      Strip(line) == line && LeadingSpaces(line) == 0 && NumberRun(line) == |num|
      && line[..|num|] == num && line[|num|..] == tail
  {
    var line := num + tail;
    assert IsDigit(line[0]) && line[|line| - 1] == tail[|tail| - 1];
    StripUnchanged(line);
    forall i | 0 <= i < |num| ensures IsNumberChar(num[i]) {
      assert IsDigit(num[i]);
    }
    NumberRunOf(num, tail);
    assert line[..|num|] == num && line[|num|..] == tail;
  }

  lemma EnergyTailReads(joules: string, pe: string, domain: string)
    requires CaselessEq(joules, "joules") && CaselessEq(pe, "power/energy-")
    requires domain != [] && forall i :: 0 <= i < |domain| ==> IsLetter(domain[i])
    ensures EnergyDomain(" " + joules + " " + pe + domain + "/") == Some(domain)
  {
    var s5 := domain + "/";
    var s3 := " " + pe + s5;
    AfterOneSpace(joules, "joules", s3);
    assert " " + joules + " " + pe + domain + "/" == " " + joules + s3;
    AfterOneSpace(pe, "power/energy-", s5);
    LetterRunOf(domain, "/");
    assert s5[..|domain|] == domain && s5[|domain| + 1..] == [];
  }

  /** The number, then an energy tail: the energy pattern matches. */
  lemma MatchEnergyOf(num: string, tail: string, domain: string)
    requires IsDigitString(num) && tail != [] && tail[0] == ' ' && !IsSpace(tail[|tail| - 1])
    requires EnergyDomain(tail) == Some(domain)
    ensures MatchEnergy(num + tail) == Some((num, domain))
  {
    NumberThen(num, tail);
    assert (num + tail)[0..] == num + tail;
  }

  lemma ReadingOfEnergy(line: string, raw: string, domain: string)
    requires Strip(line) == line && MatchEnergy(line) == Some((raw, domain))
    ensures ReadingOf(line) == Some(Reading(EnergyKey(Lower(domain)), raw))
  {
  }

  /**
   * A line as `perf stat` prints it for an energy event, with the unit and
   * the event name in any case, is read under `energy-<domain>-j` with the
   * domain in lower case.
   */
  lemma EnergyLineReads(n: nat, joules: string, pe: string, domain: string)
    requires CaselessEq(joules, "joules") && CaselessEq(pe, "power/energy-") && domain != []
    requires forall i :: 0 <= i < |domain| ==> IsLetter(domain[i])
    ensures var tail := " " + joules + " " + pe + domain + "/";
      ReadingOf(NatToString(n) + tail) == Some(Reading(EnergyKey(Lower(domain)), NatToString(n)))
      && NumberValue(NatToString(n)) == Some(n as real)
  {
    var num := NatToString(n);
    var tail := " " + joules + " " + pe + domain + "/";
    assert tail[|tail| - 1] == '/';
    NumberThen(num, tail);
    EnergyTailReads(joules, pe, domain);
    MatchEnergyOf(num, tail, domain);
    ReadingOfEnergy(num + tail, num, domain);
    NumberValueOfNat(n);
  }

  lemma TimeTailReads(sec: string, time: string, elapsed: string)
    requires CaselessEq(sec, "seconds") && CaselessEq(time, "time") && CaselessEq(elapsed, "elapsed")
    ensures var tail := " " + sec + " " + time + " " + elapsed;
      && AfterSpacedWord(tail, "joules").None?
      && AfterSpacedWord(tail, "seconds") == Some(" " + time + " " + elapsed)
  {
    var rest := " " + time + " " + elapsed;
    assert " " + sec + " " + time + " " + elapsed == " " + sec + rest;
    AfterOneSpace(sec, "seconds", rest);
    OtherWordAfterSpace(sec, "joules", rest);
  }

  /** A word whose first letter differs from the keyword's does not match it. */
  lemma OtherWordAfterSpace(word: string, kw: string, rest: string)
    requires word != [] && !IsSpace(word[0]) && kw != [] && LowerChar(word[0]) != kw[0]
    ensures AfterSpacedWord(" " + word + rest, kw).None?
  {
    var s := " " + word + rest;
    assert s == " " + (word + rest);
    LeadingSpacesOf(" ", word + rest);
    assert s[1..][0] == word[0];
  }

  lemma TimeElapsedReads(time: string, elapsed: string)
    requires CaselessEq(time, "time") && CaselessEq(elapsed, "elapsed")
    ensures var rest := " " + time + " " + elapsed;
      && AfterSpacedWord(rest, "time") == Some(" " + elapsed)
      && AfterSpacedWord(" " + elapsed, "elapsed") == Some([])
  {
    AfterOneSpace(time, "time", " " + elapsed);
    assert " " + time + " " + elapsed == " " + time + (" " + elapsed);
    AfterOneSpace(elapsed, "elapsed", []);
    assert " " + elapsed + [] == " " + elapsed;
  }

  lemma MatchTimeOf(num: string, tail: string, sec: string, time: string, elapsed: string)
    requires IsDigitString(num) && tail == " " + sec + " " + time + " " + elapsed
    requires CaselessEq(sec, "seconds") && CaselessEq(time, "time") && CaselessEq(elapsed, "elapsed")
    ensures MatchEnergy(num + tail).None?
    ensures MatchTime(num + tail) == Some(num)
  {
    assert tail[|tail| - 1] == elapsed[|elapsed| - 1];
    assert LowerChar(elapsed[|elapsed| - 1]) == 'd';
    NumberThen(num, tail);
    var line := num + tail;
    assert line[0..] == line;
    TimeTailReads(sec, time, elapsed);
    TimeElapsedReads(time, elapsed);
    NumberThenNoDomain(line, |num|);
    NumberThenTimeOf(line, |num|, " " + time + " " + elapsed, " " + elapsed);
  }

  lemma NumberThenNoDomain(s: string, k: nat)
    requires 0 < k <= |s| && NumberRun(s) == k && AfterSpacedWord(s[k..], "joules").None?
    ensures NumberThenDomain(s).None?
  {
  }

  lemma NumberThenTimeOf(s: string, k: nat, s3: string, s4: string)
    requires 0 < k <= |s| && NumberRun(s) == k
    requires AfterSpacedWord(s[k..], "seconds") == Some(s3) && AfterSpacedWord(s3, "time") == Some(s4)
    requires AfterSpacedWord(s4, "elapsed") == Some([])
    ensures NumberThenTime(s) == Some(s[..k])
  {
    ElapsedTailOf(s[k..], s3, s4);
  }

  lemma ElapsedTailOf(rest: string, s3: string, s4: string)
    requires AfterSpacedWord(rest, "seconds") == Some(s3) && AfterSpacedWord(s3, "time") == Some(s4)
    requires AfterSpacedWord(s4, "elapsed") == Some([])
    ensures ElapsedTail(rest)
  {
  }

  lemma ReadingOfTime(line: string, raw: string)
    requires Strip(line) == line && MatchEnergy(line).None? && MatchTime(line) == Some(raw)
    ensures ReadingOf(line) == Some(Reading(TimeKey, raw))
  {
  }

  /** The elapsed-time line of `perf stat`, its words in any case, is read under `time-elapsed-s`. */
  lemma TimeLineReads(n: nat, sec: string, time: string, elapsed: string)
    requires CaselessEq(sec, "seconds") && CaselessEq(time, "time") && CaselessEq(elapsed, "elapsed")
    ensures var tail := " " + sec + " " + time + " " + elapsed;
      ReadingOf(NatToString(n) + tail) == Some(Reading(TimeKey, NatToString(n)))
      && NumberValue(NatToString(n)) == Some(n as real)
  {
    var num := NatToString(n);
    var tail := " " + sec + " " + time + " " + elapsed;
    assert tail[|tail| - 1] == elapsed[|elapsed| - 1];
    assert LowerChar(elapsed[|elapsed| - 1]) == 'd';
    NumberThen(num, tail);
    MatchTimeOf(num, tail, sec, time, elapsed);
    ReadingOfTime(num + tail, num);
    NumberValueOfNat(n);
  }

  // ---------------------------------------------------------------------------
  // perf report output
  // ---------------------------------------------------------------------------

  /** Length of the trailing run of non-whitespace characters. */
  function TrailingNonSpace(s: string): (k: nat)
    ensures k <= |s| && (forall i :: |s| - k <= i < |s| ==> !IsSpace(s[i])) && (k < |s| ==> IsSpace(s[|s| - k - 1]))
    decreases |s|
  {
    if s == [] || IsSpace(s[|s| - 1]) then 0 else 1 + TrailingNonSpace(s[..|s| - 1])
  }

  /** `\d+\.\d+` as a whole text: the percentage column. */
  predicate IsPercentText(p: string) {
    var k := DotIndex(p);
    0 < k < |p| - 1 && AllDigits(p[..k]) && AllDigits(p[k + 1..])
  }

  lemma {:induction false} DotIndexOf(x: string, rest: string)
    requires AllDigits(x)
    ensures DotIndex(x + "." + rest) == |x|
    decreases |x|
  {
    if x != [] {
      assert (x + "." + rest)[1..] == x[1..] + "." + rest;
      DotIndexOf(x[1..], rest);
    }
  }

  lemma PercentTextOf(x: string, y: string)
    requires IsDigitString(x) && IsDigitString(y)
    ensures IsPercentText(x + "." + y)
  {
    var p := x + "." + y;
    DotIndexOf(x, y);
    assert p[..|x|] == x && p[|x| + 1..] == y;
  }

  /**
   * `\s+(.*?)\s+(\S+)\s*$` after the `%`: the symbol, as short as the lazy
   * group allows, and the last word.  With a single word after the
   * percentage the symbol is empty, provided at least two whitespace
   * characters precede the word.
   */
  function SymbolAndDso(rest: string): (r: Option<(string, string)>)
    ensures r.Some? ==> r.value.0 == [] || (!IsSpace(r.value.0[0]) && !IsSpace(r.value.0[|r.value.0| - 1]))
    ensures r.Some? ==> IsWord(r.value.1)
  {
    LastWordSplit(rest[..|rest| - TrailingSpaces(rest)])
  }

  /** `(\S+)$` on the text without its trailing whitespace: the symbol before the last word, and the word. */
  function LastWordSplit(u: string): (r: Option<(string, string)>)
    ensures r.Some? ==> r.value.0 == [] || (!IsSpace(r.value.0[0]) && !IsSpace(r.value.0[|r.value.0| - 1]))
    ensures r.Some? ==> IsWord(r.value.1)
  {
    var d := TrailingNonSpace(u);
    if d == 0 then None
    else
      SymbolBeforeTrimmed(u[..|u| - d], u[|u| - d..]);
      SymbolBefore(u[..|u| - d], u[|u| - d..])
  }

  /** `\s+(.*?)\s+` before the last word: the stripped symbol, empty when only whitespace comes first. */
  function SymbolBefore(before: string, dso: string): (r: Option<(string, string)>)
    ensures r.Some? ==> r.value.1 == dso
  {
    var w := LeadingSpaces(before);
    if w == 0 then None
    else if w == |before| then (if w >= 2 then Some(([], dso)) else None)
    else Some((before[w..|before| - TrailingSpaces(before)], dso))
  }

  /** The symbol `SymbolBefore` finds starts and ends with a non-space character. */
  lemma SymbolBeforeTrimmed(before: string, dso: string)
    ensures var r := SymbolBefore(before, dso);
      r.Some? ==> r.value.0 == [] || (!IsSpace(r.value.0[0]) && !IsSpace(r.value.0[|r.value.0| - 1]))
  {
    var w := LeadingSpaces(before);
    if 0 < w < |before| {
      var e := TrailingSpaces(before);
      assert !IsSpace(before[w]);
    }
  }

  /** Where `\d+\.\d+%` at the start of `t` puts its `%`; 0 when `t` does not start so. */
  function PercentEnd(t: string): (k: nat)
    ensures k > 0 ==> k < |t| && t[k] == '%' && IsPercentText(t[..k])
  {
    var a := DigitRun(t);
    if a == 0 || a == |t| || t[a] != '.' then 0
    else
      var b := DigitRun(t[a + 1..]);
      if b == 0 || a + 1 + b == |t| || t[a + 1 + b] != '%' then 0
      else
        assert t[a + 1..][..b] == t[a + 1..a + 1 + b];
        PercentTextOf(t[..a], t[a + 1..a + 1 + b]);
        assert t[..a + 1 + b] == t[..a] + "." + t[a + 1..a + 1 + b];
        a + 1 + b
  }

  /** The sample pattern `^\s*(\d+\.\d+)%\s+(.*?)\s+(\S+)\s*$`: percentage text, symbol and dso. */
  function MatchSample(line: string): (r: Option<(string, string, string)>)
    ensures r.Some? ==> IsPercentText(r.value.0)
    ensures r.Some? ==> r.value.1 == [] || (!IsSpace(r.value.1[0]) && !IsSpace(r.value.1[|r.value.1| - 1]))
    ensures r.Some? ==> IsWord(r.value.2)
  {
    MatchSampleText(line[LeadingSpaces(line)..])
  }

  /** The sample pattern after the leading whitespace. */
  function MatchSampleText(t: string): (r: Option<(string, string, string)>)
    ensures r.Some? ==> IsPercentText(r.value.0)
    ensures r.Some? ==> r.value.1 == [] || (!IsSpace(r.value.1[0]) && !IsSpace(r.value.1[|r.value.1| - 1]))
    ensures r.Some? ==> IsWord(r.value.2)
  {
    var k := PercentEnd(t);
    if k == 0 then None
    else
      match SymbolAndDso(t[k + 1..])
      case None => None
      case Some((symbol, dso)) => Some((t[..k], symbol, dso))
  }

  /** A percentage column always converts: the `ValueError` branch is never taken. */
  lemma PercentParses(p: string)
    requires IsPercentText(p)
    ensures ParseFloat(p).Some? && ParseFloat(p).value >= 0.0
  {
    PercentIsDecimal(p);
    ParseFloatUnsigned(p);
  }

  lemma PercentIsDecimal(p: string)
    requires IsPercentText(p)
    ensures p != [] && IsDecimal(p) && IsDigit(p[0]) && IsDigit(p[|p| - 1])
  {
    var k := DotIndex(p);
    assert IsDigit(p[..k][0]) && IsDigit(p[k + 1..][|p| - k - 2]);
  }

  /** `samples_rank` is 1-based; `percent` and `symbol` as parsed. */
  datatype SampleRow = SampleRow(project: string, percent: real, symbol: string, dso: string, rank: nat)

  /** Header and summary lines: a symbol starting with children, overhead or samples, in any case. */
  predicate IsNoise(symbol: string) {
    var l := Lower(symbol);
    StartsWith(l, "children") || StartsWith(l, "overhead") || StartsWith(l, "samples")
  }

  /** One line of the report: percentage, stripped symbol and dso of a sample line that is not noise. */
  function SampleOf(line: string): (r: Option<(real, string, string)>)
    ensures r.Some? ==> r.value.0 >= 0.0 && !IsNoise(r.value.1) && IsWord(r.value.2)
  {
    match MatchSample(line)
    case None => None
    case Some((pct, symbol, dso)) =>
      if IsNoise(symbol) then None
      else
        PercentParses(pct);
        EdgesStripUnchanged(symbol);
        EdgesStripUnchanged(dso);
        Some((ParseFloat(pct).value, Strip(symbol), Strip(dso)))
  }

  lemma EdgesStripUnchanged(s: string)
    requires s == [] || (!IsSpace(s[0]) && !IsSpace(s[|s| - 1]))
    ensures Strip(s) == s
  {
    if s != [] {
      StripUnchanged(s);
    }
  }

  /**
   * `parse_perf_report_samples` over the first lines: one row per sample
   * line, ranked 1, 2, 3, ... in report order.
   */
  function Samples(lines: seq<string>, project: string): (rows: seq<SampleRow>)
    ensures |rows| <= |lines|
    ensures forall i :: 0 <= i < |rows| ==> rows[i].rank == i + 1 && rows[i].project == project
    decreases |lines|
  {
    if lines == [] then []
    else
      var rows := Samples(lines[..|lines| - 1], project);
      match SampleOf(lines[|lines| - 1])
      case None => rows
      case Some((pct, symbol, dso)) =>
        RankedAppend(rows, SampleRow(project, pct, symbol, dso, |rows| + 1));
        rows + [SampleRow(project, pct, symbol, dso, |rows| + 1)]
  }

  /** Rows ranked 1, 2, 3, ... for one project stay so when the next rank is appended. */
  lemma RankedAppend(rows: seq<SampleRow>, row: SampleRow)
    requires forall i :: 0 <= i < |rows| ==> rows[i].rank == i + 1 && rows[i].project == row.project
    requires row.rank == |rows| + 1
    ensures var all := rows + [row];
      forall i :: 0 <= i < |all| ==> all[i].rank == i + 1 && all[i].project == row.project
  {
  }

  /** A row as a sample line yields it: not noise, a one-word dso, a non-negative percentage. */
  predicate CleanRow(row: SampleRow) {
    !IsNoise(row.symbol) && IsWord(row.dso) && row.percent >= 0.0
  }

  /** No row comes from a header or summary line, and every dso is one word. */
  lemma {:induction false} SamplesClean(lines: seq<string>, project: string)
    ensures forall i :: 0 <= i < |Samples(lines, project)| ==> CleanRow(Samples(lines, project)[i])
    decreases |lines|
  {
    if lines != [] {
      var init := lines[..|lines| - 1];
      SamplesClean(init, project);
      var m := SampleOf(lines[|lines| - 1]);
      CleanAppend(Samples(init, project), m, project);
    }
  }

  lemma CleanAppend(prev: seq<SampleRow>, m: Option<(real, string, string)>, project: string)
    requires forall i :: 0 <= i < |prev| ==> CleanRow(prev[i])
    requires m.Some? ==> m.value.0 >= 0.0 && !IsNoise(m.value.1) && IsWord(m.value.2)
    ensures var rows := prev + (if m.Some? then [SampleRow(project, m.value.0, m.value.1, m.value.2, |prev| + 1)] else []);
      forall i :: 0 <= i < |rows| ==> CleanRow(rows[i])
  {
  }

  lemma SamplesStep(lines: seq<string>, i: nat, project: string)
    requires i < |lines|
    ensures var rows := Samples(lines[..i], project);
      Samples(lines[..i + 1], project)
      == rows + (match SampleOf(lines[i])
                 case None => []
                 case Some((pct, symbol, dso)) => [SampleRow(project, pct, symbol, dso, |rows| + 1)])
  {
    assert lines[..i + 1][..i] == lines[..i];
  }

  /** `parse_perf_report_samples`. */
  method ParsePerfReportSamples(reportText: string, project: string) returns (rows: seq<SampleRow>)
    ensures rows == Samples(SplitLines(reportText), project)
  {
    rows := SampleLines(SplitLines(reportText), project);
  }

  /** The loop of `parse_perf_report_samples`, over the report's lines. */
  method SampleLines(lines: seq<string>, project: string) returns (rows: seq<SampleRow>)
    ensures rows == Samples(lines, project)
  {
    rows := [];
    var rank := 0;
    var i := 0;
    while i < |lines|
      invariant 0 <= i <= |lines|
      invariant rows == Samples(lines[..i], project)
      invariant rank == |rows|
    {
      rows, rank := AddSample(lines, i, project, rows, rank);
      i := i + 1;
    }
    assert lines[..i] == lines;
  }

  /** One iteration: a sample line adds the next-ranked row, anything else nothing. */
  method AddSample(lines: seq<string>, i: nat, project: string, rows: seq<SampleRow>, rank: nat)
    returns (rows2: seq<SampleRow>, rank2: nat)
    requires i < |lines| && rows == Samples(lines[..i], project) && rank == |rows|
    ensures rows2 == Samples(lines[..i + 1], project) && rank2 == |rows2|
  {
    SamplesStep(lines, i, project);
    rows2, rank2 := rows, rank;
    var m := SampleOf(lines[i]);
    if m.Some? {
      rank2 := rank + 1;
      rows2 := rows + [SampleRow(project, m.value.0, m.value.1, m.value.2, rank2)];
    }
  }

  /** Blank text: the whitespace characters of `s`. */
  predicate IsBlank(s: string) {
    forall i :: 0 <= i < |s| ==> IsSpace(s[i])
  }

  /**
   * A typical report line, `<ws>12.34%<ws>symbol<ws>dso`, yields its
   * percentage, its whole symbol (which may itself contain spaces, as in
   * `[.] main`) and its dso.
   */
  lemma SampleLineReads(ws1: string, p: string, q: string, ws2: string, symbol: string, ws3: string, dso: string)
    requires IsBlank(ws1) && IsBlank(ws2) && IsBlank(ws3) && ws2 != [] && ws3 != []
    requires IsDigitString(p) && IsDigitString(q) && IsWord(dso)
    requires symbol != [] && !IsSpace(symbol[0]) && !IsSpace(symbol[|symbol| - 1])
    ensures var rest := ws2 + symbol + ws3 + dso;
      MatchSample(ws1 + (p + "." + q + "%" + rest)) == Some((p + "." + q, symbol, dso))
  {
    var rest := ws2 + symbol + ws3 + dso;
    var t := p + "." + q + "%" + rest;
    SampleTextReads(p, q, rest, symbol, dso) by {
      SymbolAndDsoReads(ws2, symbol, ws3, dso);
    }
    MatchSampleAfterBlank(ws1, t);
  }

  lemma MatchSampleAfterBlank(ws: string, t: string)
    requires IsBlank(ws) && t != [] && IsDigit(t[0])
    ensures MatchSample(ws + t) == MatchSampleText(t)
  {
    LeadingSpacesOf(ws, t);
    assert (ws + t)[|ws|..] == t;
  }

  lemma SampleTextReads(p: string, q: string, rest: string, symbol: string, dso: string)
    requires IsDigitString(p) && IsDigitString(q) && SymbolAndDso(rest) == Some((symbol, dso))
    ensures MatchSampleText(p + "." + q + "%" + rest) == Some((p + "." + q, symbol, dso))
  {
    PercentEndOf(p, q, rest);
  }

  lemma PercentEndOf(p: string, q: string, rest: string)
    requires IsDigitString(p) && IsDigitString(q)
    ensures var t := p + "." + q + "%" + rest;
      PercentEnd(t) == |p| + 1 + |q| && t[..|p| + 1 + |q|] == p + "." + q && t[|p| + 2 + |q|..] == rest
  {
    var u := q + ("%" + rest);
    DigitsThenMark(p, '.', u);
    DigitsThenMark(q, '%', rest);
    PercentEndParts(p + (['.'] + u), |p|, |q|);
    PercentPieces(p, q, rest);
  }

  /** A digit string followed by a non-digit mark: the run stops at the mark. */
  lemma DigitsThenMark(num: string, c: char, rest: string)
    requires IsDigitString(num) && !IsDigit(c)
    ensures var a := num + ([c] + rest);
      0 < DigitRun(a) == |num| < |a| && a[|num|] == c && a[|num| + 1..] == rest
  {
    DigitRunOfConcat(num, [c] + rest);
    var a := num + ([c] + rest);
    assert a[|num|] == c && a[|num| + 1..] == rest;
  }

  lemma PercentEndParts(t: string, a: nat, b: nat)
    requires 0 < DigitRun(t) == a < |t| && t[a] == '.'
    requires 0 < DigitRun(t[a + 1..]) == b && a + 1 + b < |t| && t[a + 1..][b] == '%'
    ensures PercentEnd(t) == a + 1 + b
  {
  }

  lemma PercentPieces(p: string, q: string, rest: string)
    ensures var t := p + "." + q + "%" + rest;
      t == p + (['.'] + (q + ("%" + rest))) && t[..|p| + 1 + |q|] == p + "." + q && t[|p| + 2 + |q|..] == rest
  {
    var t := p + "." + q + "%" + rest;
    assert t[..|p| + 1 + |q|] == p + "." + q;
    assert t[|p| + 2 + |q|..] == rest;
  }

  lemma SymbolAndDsoReads(ws2: string, symbol: string, ws3: string, dso: string)
    requires IsBlank(ws2) && IsBlank(ws3) && ws2 != [] && ws3 != [] && IsWord(dso)
    requires symbol != [] && !IsSpace(symbol[0]) && !IsSpace(symbol[|symbol| - 1])
    ensures SymbolAndDso(ws2 + symbol + ws3 + dso) == Some((symbol, dso))
  {
    var before := ws2 + symbol + ws3;
    SymbolBetweenBlanks(ws2, symbol, ws3);
    SymbolBeforeOf(before, |ws2|, |ws3|, dso);
    LastWordAfterBlank(before, dso);
    assert before + dso == ws2 + symbol + ws3 + dso;
  }

  lemma SymbolBeforeOf(before: string, w: nat, e: nat, dso: string)
    requires LeadingSpaces(before) == w && TrailingSpaces(before) == e && 0 < w < |before| && e <= |before| - w
    ensures SymbolBefore(before, dso) == Some((before[w..|before| - e], dso))
  {
    SymbolOfBefore(before, w, e, dso);
  }

  lemma SymbolOfBefore(before: string, w: nat, e: nat, dso: string)
    requires LeadingSpaces(before) == w && TrailingSpaces(before) == e && 0 < w < |before| && e <= |before| - w
    ensures SymbolBefore(before, dso).Some? && SymbolBefore(before, dso).value.0 == before[w..|before| - e]
  {
  }

  /** A word after a blank is the last word, and what precedes it is all that `SymbolBefore` sees. */
  lemma LastWordAfterBlank(before: string, dso: string)
    requires IsWord(dso) && before != [] && IsSpace(before[|before| - 1])
    ensures SymbolAndDso(before + dso) == SymbolBefore(before, dso)
  {
    DsoAfterBlank(before, dso);
    var rest := before + dso;
    assert LastWordSplit(rest) == SymbolBefore(before, dso);
  }

  /** The part before the dso: leading blanks, the symbol, trailing blanks. */
  lemma SymbolBetweenBlanks(ws2: string, symbol: string, ws3: string)
    requires IsBlank(ws2) && IsBlank(ws3) && ws2 != [] && ws3 != []
    requires symbol != [] && !IsSpace(symbol[0]) && !IsSpace(symbol[|symbol| - 1])
    ensures var before := ws2 + symbol + ws3;
      LeadingSpaces(before) == |ws2| && TrailingSpaces(before) == |ws3| && |ws2| < |before|
      && before[|ws2|..|before| - |ws3|] == symbol && IsSpace(before[|before| - 1])
  {
    var front := ws2 + symbol;
    var before := front + ws3;
    assert before == ws2 + (symbol + ws3);
    LeadingSpacesOf(ws2, symbol + ws3);
    assert front[|front| - 1] == symbol[|symbol| - 1];
    TrailingSpacesOf(front, ws3);
    assert before[|ws2|..|before| - |ws3|] == symbol;
    assert before[|before| - 1] == ws3[|ws3| - 1];
  }

  /** The dso is the last word, preceded by whatever ends in a blank. */
  lemma DsoAfterBlank(before: string, dso: string)
    requires IsWord(dso) && before != [] && IsSpace(before[|before| - 1])
    ensures var rest := before + dso;
      TrailingSpaces(rest) == 0 && TrailingNonSpace(rest) == |dso|
      && rest[..|rest| - |dso|] == before && rest[|rest| - |dso|..] == dso && rest[..|rest|] == rest
  {
    var rest := before + dso;
    assert rest[|rest| - 1] == dso[|dso| - 1];
    TrailingNonSpaceOf(before, dso);
  }

  lemma {:induction false} TrailingNonSpaceOf(x: string, w: string)
    requires IsWord(w) && x != [] && IsSpace(x[|x| - 1])
    ensures TrailingNonSpace(x + w) == |w|
    decreases |w|
  {
    if |w| == 1 {
      assert (x + w)[..|x + w| - 1] == x;
    } else {
      assert (x + w)[..|x + w| - 1] == x + w[..|w| - 1];
      TrailingNonSpaceOf(x, w[..|w| - 1]);
    }
  }

  /** A lone word after the percentage has an empty symbol when two or more blanks precede it, and no match with one. */
  lemma LoneDso(ws: string, dso: string)
    requires IsBlank(ws) && IsWord(dso) && ws != []
    ensures SymbolAndDso(ws + dso) == (if |ws| >= 2 then Some(([], dso)) else None)
  {
    assert IsSpace(ws[|ws| - 1]);
    LastWordAfterBlank(ws, dso);
    AllBlank(ws);
  }

  lemma {:induction false} AllBlank(ws: string)
    requires IsBlank(ws)
    ensures LeadingSpaces(ws) == |ws|
    decreases |ws|
  {
    if ws != [] {
      AllBlank(ws[1..]);
    }
  }

  // ---------------------------------------------------------------------------
  // main
  // ---------------------------------------------------------------------------

  /** What the script finds on disk, gets from the shell and reads from the clock. */
  datatype Env = Env(
    scriptDir: string,
    projExists: bool,
    buildconfExists: bool,
    exec: string -> Proc,
    perfDataWritten: bool,
    ts: string)

  function ResultsRoot(env: Env): string {
    PathJoin(env.scriptDir, "vfec_results")
  }

  function LogName(ts: string): string {
    Project + "_" + ts + ".log"
  }

  function PerfDataPath(env: Env): string {
    PathJoin(PathJoin(ResultsRoot(env), "perfdata"), Project + "_" + env.ts + ".data")
  }

  /** The build commands the build phase runs: `./buildconf` only when the project has one. */
  function BuildPlan(cmds: seq<string>, hasBuildconf: bool): seq<string>
    decreases |cmds|
  {
    if cmds == [] then []
    else
      var last := cmds[|cmds| - 1];
      BuildPlan(cmds[..|cmds| - 1], hasBuildconf)
      + (if Strip(last) == "./buildconf" && !hasBuildconf then [] else [last])
  }

  lemma StripBuildCommand(i: nat)
    requires i < |BuildCommands|
    ensures Strip(BuildCommands[i]) == BuildCommands[i]
  {
    var c := BuildCommands[i];
    assert !IsSpace(c[0]) && !IsSpace(c[|c| - 1]);
    StripUnchanged(c);
  }

  /** Only `./buildconf` is ever skipped, and only when it is missing. */
  lemma BuildPlanOfCommands(hasBuildconf: bool)
    ensures BuildPlan(BuildCommands, hasBuildconf) == if hasBuildconf then BuildCommands else BuildCommands[1..]
  {
    var c := BuildCommands;
    StripBuildCommand(0);
    StripBuildCommand(1);
    StripBuildCommand(2);
    StripBuildCommand(3);
    assert |c[1]| != 11 && |c[2]| != 11 && |c[3]| != 11;
    PlanOfFour(c, hasBuildconf);
  }

  lemma PlanOfFour(c: seq<string>, hasBuildconf: bool)
    requires |c| == 4 && Strip(c[0]) == "./buildconf"
    requires Strip(c[1]) != "./buildconf" && Strip(c[2]) != "./buildconf" && Strip(c[3]) != "./buildconf"
    ensures BuildPlan(c, hasBuildconf) == if hasBuildconf then c else c[1..]
  {
    var h := hasBuildconf;
    assert c[..0] == [] && c[..4] == c;
    PlanStep(c, 0, h);
    var p1 := BuildPlan(c[..1], h);
    assert p1 == if h then [c[0]] else [];
    PlanStep(c, 1, h);
    PlanStep(c, 2, h);
    PlanStep(c, 3, h);
    FourParts(c, p1, h, BuildPlan(c, h));
  }

  /** The plan of four commands of which only the first may be skipped. */
  lemma FourParts<T>(c: seq<T>, first: seq<T>, keep: bool, plan: seq<T>)
    requires |c| == 4 && first == (if keep then [c[0]] else [])
    requires plan == first + [c[1]] + [c[2]] + [c[3]]
    ensures plan == if keep then c else c[1..]
  {
  }

  /** One more command: the plan grows by that command unless it is a skipped `./buildconf`. */
  lemma PlanStep(cmds: seq<string>, i: nat, hasBuildconf: bool)
    requires i < |cmds|
    ensures BuildPlan(cmds[..i + 1], hasBuildconf)
      == BuildPlan(cmds[..i], hasBuildconf) + (if Strip(cmds[i]) == "./buildconf" && !hasBuildconf then [] else [cmds[i]])
  {
    assert cmds[..i + 1][..i] == cmds[..i];
  }

  /**
   * The build phase: every planned command runs whatever the earlier ones
   * returned; a failure is only a warning in the log.
   */
  method BuildLoop(cmds: seq<string>, env: Env) returns (ran: seq<string>)
    ensures ran == BuildPlan(cmds, env.buildconfExists)
  {
    ran := [];
    var i := 0;
    while i < |cmds|
      invariant 0 <= i <= |cmds|
      invariant ran == BuildPlan(cmds[..i], env.buildconfExists)
    {
      var cmd := cmds[i];
      PlanStep(cmds, i, env.buildconfExists);
      if !(Strip(cmd) == "./buildconf" && !env.buildconfExists) {
        var rc := Stream(env.exec(cmd), None);
        ran := ran + [cmd];
      }
      i := i + 1;
    }
    assert cmds[..i] == cmds;
  }

  /** The build commands that run, given whether the project has `./buildconf`. */
  function BuildSteps(hasBuildconf: bool): seq<string> {
    if hasBuildconf then BuildCommands else BuildCommands[1..]
  }

  /** The build phase over `BUILD_COMMANDS`. */
  method BuildPhase(env: Env) returns (ran: seq<string>)
    ensures ran == BuildSteps(env.buildconfExists)
  {
    ran := BuildLoop(BuildCommands, env);
    BuildPlanOfCommands(env.buildconfExists);
  }

  function StatCommand(events: string): string {
    "perf stat -e " + ShlexQuote(events) + " -- " + TestCommand
  }

  function RecordCommand(path: string): string {
    "perf record -F " + NatToString(PerfFreqHz) + " -g -o " + ShlexQuote(path) + " -- " + TestCommand
  }

  function ReportCommand(path: string): string {
    "perf report --stdio --no-children --percent-limit 0 --sort symbol,dso -i " + ShlexQuote(path)
  }

  /** `test_status`. */
  function StatusText(rc: int): string {
    if rc == 0 then "OK" else "FAILED"
  }

  /** `energy_metrics.get(key, "")`, with `None` for the empty cell. */
  function Get(m: map<string, real>, k: string): Option<real> {
    if k in m then Some(m[k]) else None
  }

  /** Some energy reading or the elapsed time was parsed. */
  predicate ParsedAny(m: map<string, real>) {
    (exists k :: k in m && StartsWith(k, "energy-")) || TimeKey in m
  }

  /** The single row of the energy CSV. */
  datatype EnergyRow = EnergyRow(
    project: string, timestamp: string, eventsRequested: string,
    testExitCode: int, testStatus: string,
    timeElapsed: Option<real>, pkg: Option<real>, cores: Option<real>, ram: Option<real>, psys: Option<real>,
    logFile: string)

  function EnergyRowOf(ts: string, events: string, rc: int, m: map<string, real>): EnergyRow {
    EnergyRow(Project, ts, events, rc, StatusText(rc),
      Get(m, TimeKey), Get(m, EnergyKey("pkg")), Get(m, EnergyKey("cores")), Get(m, EnergyKey("ram")), Get(m, EnergyKey("psys")),
      LogName(ts))
  }

  /** The energy row is marked "OK" exactly when the tests exited 0; a metric cell is empty exactly when it was not parsed. */
  lemma EnergyRowStatus(ts: string, events: string, rc: int, m: map<string, real>)
    ensures var row := EnergyRowOf(ts, events, rc, m);
      (row.testStatus == "OK" <==> rc == 0) && row.testExitCode == rc
      && (row.timeElapsed.Some? <==> TimeKey in m) && (row.pkg.Some? <==> "energy-pkg-j" in m)
      && (row.pkg.Some? ==> row.pkg.value == m["energy-pkg-j"])
  {
    assert EnergyKey("pkg") == "energy-pkg-j";
    assert StatusText(1) != "OK" by { assert "FAILED"[0] != "OK"[0]; }
  }

  /** The exit code, the energy row if one was written, the `perf record` status and the sample rows. */
  datatype Outcome = Outcome(code: int, energy: Option<EnergyRow>, recordExit: Option<int>, samples: seq<SampleRow>)

  predicate Ready(env: Env) {
    env.projExists && HaveTool(env.exec, "perf") && HaveTool(env.exec, "make")
  }

  /** The comma-joined events requested from `perf stat`. */
  function EventsText(env: Env): string {
    Join(EnergyEvents(CandidateEnergyEvents, PerfListText(env.exec)), ",")
  }

  function StatRun(env: Env): (int, string) {
    Capture(env.exec(StatCommand(EventsText(env))), TestTimeout)
  }

  function StatOf(env: Env): Result<map<string, real>, string> {
    StatMetrics(SplitLines(StatRun(env).1))
  }

  function RecordRc(env: Env): int {
    Stream(env.exec(RecordCommand(PerfDataPath(env))), TestTimeout)
  }

  function ReportRun(env: Env): (int, string) {
    Capture(env.exec(ReportCommand(PerfDataPath(env))), Some(60))
  }

  /** The run reaches the energy CSV: `perf stat` parsed, and either the tests passed or something was read. */
  predicate EnergySaved(env: Env) {
    Ready(env) && StatOf(env).Ok? && (StatRun(env).0 == 0 || ParsedAny(StatOf(env).value))
  }

  /**
   * `main`, returning its exit code with what it wrote; `Err` is the
   * uncaught `ValueError` of an unreadable `perf stat` number.
   */
  method RunPerfSampling(env: Env) returns (r: Result<Outcome, string>)
    ensures !env.projExists ==> r == Ok(Outcome(2, None, None, []))
    ensures env.projExists && !Ready(env) ==> r == Ok(Outcome(3, None, None, []))
    ensures r.Err? <==> Ready(env) && StatOf(env).Err?
    ensures r.Ok? ==> r.value.code in {0, 2, 3, 4, 5, 6}
    ensures r.Ok? && r.value.code == 4 <==> Ready(env) && StatOf(env).Ok? && StatRun(env).0 != 0 && !ParsedAny(StatOf(env).value)
    ensures r.Ok? && r.value.energy.Some? <==> EnergySaved(env)
    ensures EnergySaved(env) ==> r.value.energy == Some(EnergyRowOf(env.ts, EventsText(env), StatRun(env).0, StatOf(env).value))
    ensures EnergySaved(env) ==> r.value.recordExit == Some(RecordRc(env))
    ensures r.Ok? && r.value.code == 5 <==> EnergySaved(env) && !env.perfDataWritten
    ensures r.Ok? && r.value.code == 6 <==> EnergySaved(env) && env.perfDataWritten && ReportRun(env).0 != 0
    ensures r.Ok? && r.value.code == 0 <==> EnergySaved(env) && env.perfDataWritten && ReportRun(env).0 == 0
    ensures r.Ok? && r.value.code == 0 ==> r.value.samples == Samples(SplitLines(ReportRun(env).1), Project)
  {
    if !env.projExists {
      return Ok(Outcome(2, None, None, []));
    }
    if !HaveTool(env.exec, "perf") || !HaveTool(env.exec, "make") {
      return Ok(Outcome(3, None, None, []));
    }
    var events := Join(EnergyEvents(CandidateEnergyEvents, PerfListText(env.exec)), ",");
    var built := BuildPhase(env);

    var (rc, statOut) := Capture(env.exec(StatCommand(events)), TestTimeout);
    var metrics := ParsePerfStatEnergy(statOut);
    if metrics.Err? {
      return Err(metrics.error);
    }
    var m := metrics.value;
    if rc != 0 && !ParsedAny(m) {
      return Ok(Outcome(4, None, None, []));
    }
    var energy := EnergyRowOf(env.ts, events, rc, m);
    var o, sampled := SamplingPhase(env, energy);
    r := Ok(o);
  }

  /** `perf record` and then `perf report`, once the energy CSV is written. */
  method SamplingPhase(env: Env, energy: EnergyRow) returns (o: Outcome, ran: seq<string>)
    ensures o.energy == Some(energy) && o.recordExit == Some(RecordRc(env))
    ensures o.code == 5 <==> !env.perfDataWritten
    ensures o.code == 6 <==> env.perfDataWritten && ReportRun(env).0 != 0
    ensures o.code == 0 <==> env.perfDataWritten && ReportRun(env).0 == 0
    ensures o.code == 0 ==> o.samples == Samples(SplitLines(ReportRun(env).1), Project)
    ensures ran == [RecordCommand(PerfDataPath(env))] + (if env.perfDataWritten then [ReportCommand(PerfDataPath(env))] else [])
  {
    var recordCmd := RecordCommand(PerfDataPath(env));
    var recordRc := Stream(env.exec(recordCmd), TestTimeout);
    ran := [recordCmd];
    if !env.perfDataWritten {
      return Outcome(5, Some(energy), Some(recordRc), []), ran;
    }

    var reportCmd := ReportCommand(PerfDataPath(env));
    var (reportRc, reportText) := Capture(env.exec(reportCmd), Some(60));
    ran := ran + [reportCmd];
    if reportRc != 0 {
      return Outcome(6, Some(energy), Some(recordRc), []), ran;
    }
    var rows := ParsePerfReportSamples(reportText, Project);
    o := Outcome(0, Some(energy), Some(recordRc), rows);
  }
}
