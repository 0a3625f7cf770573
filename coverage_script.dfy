/**
 * The curl workload harness: one run of the workload under `perf stat -x,`
 * (counter rows summed over hybrid-core PMUs), the RAPL package-energy delta
 * with its 32-bit wrap-around, the fixed number of repetitions, and the
 * sample filters applied before the per-metric statistics.
 *
 * The perf exit code, its stderr text, the two RAPL readings and the elapsed
 * wall-clock time of a run are parameters (an `Observation`).
 */
module CoverageScript {
  import opened Wrappers
  import opened PyStr

  /** Workload repetitions per commit. */
  const NumRuns: nat := 50

  /** The RAPL energy counter is 32 bits wide. */
  const RaplWrap: int := 0x1_0000_0000

  // ---------------------------------------------------------------------------
  // One `perf stat -x,` row
  // ---------------------------------------------------------------------------

  /** The comma-separated fields of a row, each stripped. */
  function Fields(line: string): (r: seq<string>)
    ensures |r| == |Split(line, ',')|
    ensures forall i :: 0 <= i < |r| ==> r[i] == Strip(Split(line, ',')[i])
  {
    var pieces := Split(line, ',');
    seq(|pieces|, i requires 0 <= i < |pieces| => Strip(pieces[i]))
  }

  /** The counter value: separators ',' and '.' are deleted before `int()`. */
  function CounterValue(valueStr: string): Option<int> {
    ParseInt(Replace(Replace(valueStr, ",", ""), ".", ""))
  }

  /** The event name without PMU prefix: stripped, one trailing '/' dropped, last '/'-segment. */
  function BaseEvent(event: string): (r: string)
    ensures '/' !in r
  {
    var e := Strip(event);
    var e' := if EndsWith(e, "/") then e[..|e| - 1] else e;
    var pieces := Split(e', '/');
    pieces[|pieces| - 1]
  }

  /** A counted row: its value and its base event name. */
  datatype Sample = Sample(value: int, baseEvent: string)

  /** A row is skipped when it has fewer than three fields, is not counted, or its value is not an integer. */
  function ParseRow(line: string): Option<Sample> {
    var parts := Fields(line);
    if |parts| < 3 then None
    else if StartsWith(parts[0], "<not counted>") then None
    else
      match CounterValue(parts[0])
      case None => None
      case Some(v) => Some(Sample(v, BaseEvent(parts[2])))
  }

  // ---------------------------------------------------------------------------
  // The counter totals
  // ---------------------------------------------------------------------------

  /** Running totals and whether any row of each kind was counted. */
  datatype Counters = Counters(cycles: int, instructions: int, foundCycles: bool, foundInstructions: bool)

  const NoCounters := Counters(0, 0, false, false)

  /** One counted row added to the totals: a base event may feed both. */
  function AddSample(c: Counters, s: Sample): Counters {
    var isCycles := Contains(s.baseEvent, "cycles");
    var isInstructions := Contains(s.baseEvent, "instructions");
    Counters(if isCycles then c.cycles + s.value else c.cycles,
             if isInstructions then c.instructions + s.value else c.instructions,
             c.foundCycles || isCycles, c.foundInstructions || isInstructions)
  }

  /** One row of output added to the totals. */
  function Count(c: Counters, line: string): Counters {
    match ParseRow(line)
    case None => c
    case Some(s) => AddSample(c, s)
  }

  /** The totals after all the given rows. */
  function Tally(lines: seq<string>): Counters
    decreases |lines|
  {
    if lines == [] then NoCounters else Count(Tally(lines[..|lines| - 1]), lines[|lines| - 1])
  }

  /** Totals of two row blocks side by side. */
  function Combine(a: Counters, b: Counters): Counters {
    Counters(a.cycles + b.cycles, a.instructions + b.instructions,
             a.foundCycles || b.foundCycles, a.foundInstructions || b.foundInstructions)
  }

  lemma CountCombine(a: Counters, b: Counters, line: string)
    ensures Count(Combine(a, b), line) == Combine(a, Count(b, line))
  {
    var row := ParseRow(line);
    if row.Some? {
      AddCombine(a, b, row.value);
    }
  }

  lemma AddCombine(a: Counters, b: Counters, s: Sample)
    ensures AddSample(Combine(a, b), s) == Combine(a, AddSample(b, s))
  {
  }

  /** Rows are summed, never overwritten: the totals of a concatenation add up. */
  lemma {:induction false} TallyAppend(a: seq<string>, b: seq<string>)
    ensures Tally(a + b) == Combine(Tally(a), Tally(b))
    decreases |b|
  {
    if b == [] {
      assert a + b == a;
    } else {
      var b' := b[..|b| - 1];
      assert (a + b)[..|a + b| - 1] == a + b';
      assert (a + b)[|a + b| - 1] == b[|b| - 1];
      TallyAppend(a, b');
      CountCombine(Tally(a), Tally(b'), b[|b| - 1]);
    }
  }

  // ---------------------------------------------------------------------------
  // What a row looks like
  // ---------------------------------------------------------------------------

  /** Deleting '.' joins the digit groups: "1.234" counts as 1234. */
  lemma DottedValue(a: string, b: string)
    requires IsDigitString(a) && IsDigitString(b)
    ensures CounterValue(a + "." + b) == Some(DigitsValue(a + b))
  {
    var s := a + "." + b;
    assert ',' !in s;
    ReplaceAbsentChar(s, ',', "");
    DeleteDot(a, b);
    ParseDigits(a + b);
  }

  lemma DeleteDot(a: string, b: string)
    requires IsDigitString(a) && IsDigitString(b)
    ensures Replace(a + "." + b, ".", "") == a + b
  {
    assert '.' !in a && '.' !in b;
    ReplaceAbsentChar(a, '.', "");
    ReplaceAbsentChar(b, '.', "");
    assert a + "." + b == a + ("." + b);
    ReplaceCharConcat(a, "." + b, '.', "");
    ReplaceCharConcat(".", b, '.', "");
    assert Replace(".", ".", "") == [] by {
      assert "."[..1] == "." && "."[1..] == [];
    }
  }

  /** A PMU-qualified event reduces to its name: "cpu_atom/cycles/" gives "cycles". */
  lemma BaseEventOfPmu(pmu: string, name: string)
    requires '/' !in name
    requires pmu == [] || !IsSpace(pmu[0])
    ensures BaseEvent(pmu + "/" + name + "/") == name
  {
    var s := pmu + "/" + name + "/";
    StripUnchanged(s);
    assert EndsWith(s, "/");
    assert s[..|s| - 1] == pmu + "/" + name;
    LastPieceIsBasename(pmu + "/" + name);
    BasenameOfJoin(pmu, name);
  }

  /** A plain event name is its own base event. */
  lemma BaseEventOfName(name: string)
    requires name != [] && '/' !in name && !IsSpace(name[0]) && !IsSpace(name[|name| - 1])
    ensures BaseEvent(name) == name
  {
    StripUnchanged(name);
    assert !EndsWith(name, "/") by {
      assert name[|name| - 1] in name;
      assert name[|name| - |"/"| + 0] != "/"[0];
    }
    SplitNoSep(name, '/');
  }

  /** The pieces of a row `value,unit,event[,...]`. */
  lemma SplitRow(n: string, unit: string, event: string, rest: string)
    requires ',' !in n && ',' !in unit && ',' !in event
    requires rest == [] || rest[0] == ','
    ensures var pieces := Split(n + "," + unit + "," + event + rest, ',');
            |pieces| >= 3 && pieces[0] == n && pieces[2] == event
  {
    var tail := if rest == [] then [] else Split(rest[1..], ',');
    if rest == [] {
      SplitNoSep(event, ',');
      assert event + rest == event;
    } else {
      assert event + rest == event + [','] + rest[1..];
      SplitField(event, rest[1..]);
    }
    assert Split(event + rest, ',') == [event] + tail;
    SplitField(unit, event + rest);
    SplitField(n, unit + [','] + (event + rest));
    assert n + "," + unit + "," + event + rest == n + [','] + (unit + [','] + (event + rest));
  }

  /** A field without commas, then a comma: the field is the first piece. */
  lemma SplitField(field: string, more: string)
    requires ',' !in field
    ensures Split(field + [','] + more, ',') == [field] + Split(more, ',')
  {
    SplitConcat(field, more, ',');
    SplitNoSep(field, ',');
  }

  /** A natural number's digits are counted as that number. */
  lemma NatCounterValue(v: nat)
    ensures CounterValue(NatToString(v)) == Some(v)
  {
    var n := NatToString(v);
    assert ',' !in n && '.' !in n;
    ReplaceAbsentChar(n, ',', "");
    ReplaceAbsentChar(n, '.', "");
    ParseDigits(n);
    DigitsOfNat(v);
  }

  /** A well-formed row `value,unit,event[,...]` is counted with its value and base event. */
  lemma RowOf(v: nat, unit: string, event: string, rest: string)
    requires ',' !in unit && ',' !in event
    requires rest == [] || rest[0] == ','
    ensures ParseRow(NatToString(v) + "," + unit + "," + event + rest) == Some(Sample(v, BaseEvent(event)))
  {
    var n := NatToString(v);
    var line := n + "," + unit + "," + event + rest;
    assert ',' !in n;
    SplitRow(n, unit, event, rest);
    var parts := Fields(line);
    assert IsDigit(n[0]) && IsDigit(n[|n| - 1]);
    StripUnchanged(n);
    assert parts[0] == n && parts[2] == Strip(event);
    assert !StartsWith(n, "<not counted>") by { assert n[0] != "<not counted>"[0]; }
    NatCounterValue(v);
    BaseEventOfStripped(event);
  }

  /** Stripping before taking the base event changes nothing. */
  lemma BaseEventOfStripped(event: string)
    ensures BaseEvent(Strip(event)) == BaseEvent(event)
  {
    var e := Strip(event);
    if e != [] {
      StripUnchanged(e);
    } else {
      assert Strip(e) == [] by { assert LeadingSpaces(e) == 0; }
    }
  }

  /** A row of one PMU's event, e.g. `v,,cpu_atom/cycles/`. */
  lemma PmuRow(v: nat, pmu: string, name: string)
    requires ',' !in pmu && ',' !in name && '/' !in name
    requires pmu == [] || !IsSpace(pmu[0])
    ensures ParseRow(NatToString(v) + ",," + pmu + "/" + name + "/") == Some(Sample(v, name))
  {
    var event := pmu + "/" + name + "/";
    assert NatToString(v) + ",," + pmu + "/" + name + "/" == NatToString(v) + "," + "" + "," + event + "";
    RowOf(v, "", event, "");
    BaseEventOfPmu(pmu, name);
  }

  /** The totals of two rows: the second is added to the totals of the first. */
  lemma TallyOfTwo(r1: string, r2: string)
    ensures Tally([r1, r2]) == Count(Count(NoCounters, r1), r2)
  {
    TallyStep([], r1);
    assert [] + [r1] == [r1];
    TallyStep([r1], r2);
    assert [r1] + [r2] == [r1, r2];
  }

  lemma CountOfSample(c: Counters, line: string, s: Sample)
    requires ParseRow(line) == Some(s)
    ensures Count(c, line) == AddSample(c, s)
  {
  }

  lemma TallyStep(lines: seq<string>, line: string)
    ensures Tally(lines + [line]) == Count(Tally(lines), line)
  {
    assert (lines + [line])[..|lines|] == lines;
  }


  /**
   * Hybrid-core rows for the same event, `v1,,cpu_core/cycles/` and
   * `v2,,cpu_atom/cycles/`, are summed into one total.
   */
  lemma HybridCyclesSum(v1: nat, v2: nat, pmu1: string, pmu2: string, name: string)
    requires ',' !in pmu1 && ',' !in pmu2 && ',' !in name && '/' !in name
    requires (pmu1 == [] || !IsSpace(pmu1[0])) && (pmu2 == [] || !IsSpace(pmu2[0]))
    requires Contains(name, "cycles")
    ensures var rows := [NatToString(v1) + ",," + pmu1 + "/" + name + "/", NatToString(v2) + ",," + pmu2 + "/" + name + "/"];
            Tally(rows).cycles == v1 + v2 && Tally(rows).foundCycles
  {
    var r1 := NatToString(v1) + ",," + pmu1 + "/" + name + "/";
    var r2 := NatToString(v2) + ",," + pmu2 + "/" + name + "/";
    TallyOfTwo(r1, r2);
    PmuRow(v1, pmu1, name);
    CountOfSample(NoCounters, r1, Sample(v1, name));
    PmuRow(v2, pmu2, name);
    CountOfSample(AddSample(NoCounters, Sample(v1, name)), r2, Sample(v2, name));
  }

  // ---------------------------------------------------------------------------
  // One run
  // ---------------------------------------------------------------------------

  /** What the environment gives one run: perf's exit code and stderr, two RAPL readings, the elapsed time. */
  datatype Observation = Observation(
    perfReturnCode: int, perfStderr: string,
    energyStart: Option<int>, energyEnd: Option<int>, timeSec: real)

  /** A run's record; `ipc` is `None` where the source stores NaN. */
  datatype Measurement = Measurement(
    timeSec: real, energyJ: Option<real>, cycles: int, instructions: int, ipc: Option<real>)

  const PerfFailed := "perf stat failed"
  const CountersMissing := "Failed to parse perf counters"
  /** The TypeError of formatting a missing energy with `:.6f` in the run's log line. */
  const EnergyUnformattable := "unsupported format string passed to NoneType.__format__"

  /** End minus start, plus 2^32 when negative: the counter's advance when it wrapped at most once. */
  function RaplDelta(eStart: int, eEnd: int): (d: int)
    ensures 0 <= eStart < RaplWrap && 0 <= eEnd < RaplWrap ==> 0 <= d < RaplWrap && (eStart + d) % RaplWrap == eEnd
    ensures eStart <= eEnd ==> d == eEnd - eStart
  {
    var delta := eEnd - eStart;
    if delta < 0 then delta + RaplWrap else delta
  }

  /** Energy in joules, or `None` when either reading is missing. */
  function Energy(eStart: Option<int>, eEnd: Option<int>): (r: Option<real>)
    ensures r.Some? <==> eStart.Some? && eEnd.Some?
    ensures r.Some? ==> r.value * 1000000.0 == RaplDelta(eStart.value, eEnd.value) as real
    ensures r.Some? && 0 <= eStart.value < RaplWrap && 0 <= eEnd.value < RaplWrap ==> r.value >= 0.0
  {
    if eStart.Some? && eEnd.Some? then
      var delta := RaplDelta(eStart.value, eEnd.value) as real;
      assert delta / 1000000.0 * 1000000.0 == delta;
      Some(delta / 1000000.0)
    else None
  }

  /** Instructions per cycle, NaN (`None`) without cycles. */
  function Ipc(instructions: int, cycles: int): (r: Option<real>)
    ensures r.None? <==> cycles <= 0
    ensures r.Some? ==> r.value * cycles as real == instructions as real
  {
    if cycles > 0 then Some(instructions as real / cycles as real) else None
  }

  /**
   * `measure_workload_once`: a record, or the exception it raises. The log
   * file is always open, so a missing energy reading reaches the `:.6f`
   * format of the log line and raises there.
   */
  function MeasureOnce(obs: Observation): Result<Measurement, string> {
    if obs.perfReturnCode != 0 then Err(PerfFailed)
    else
      var c := Tally(SplitLines(obs.perfStderr));
      if !c.foundCycles || !c.foundInstructions then Err(CountersMissing)
      else
        var energy := Energy(obs.energyStart, obs.energyEnd);
        if energy.None? then Err(EnergyUnformattable)
        else Ok(Measurement(obs.timeSec, energy, c.cycles, c.instructions, Ipc(c.instructions, c.cycles)))
  }

  /**
   * A run fails exactly when perf fails, a counter kind never appears or a
   * RAPL reading is missing; a recorded run always carries its energy.
   */
  lemma MeasureOnceFails(obs: Observation)
    ensures MeasureOnce(obs).Err? <==>
      obs.perfReturnCode != 0 || !Tally(SplitLines(obs.perfStderr)).foundCycles
      || !Tally(SplitLines(obs.perfStderr)).foundInstructions
      || obs.energyStart.None? || obs.energyEnd.None?
    ensures MeasureOnce(obs) == Err(EnergyUnformattable) <==>
      obs.perfReturnCode == 0 && Tally(SplitLines(obs.perfStderr)).foundCycles
      && Tally(SplitLines(obs.perfStderr)).foundInstructions
      && (obs.energyStart.None? || obs.energyEnd.None?)
    ensures MeasureOnce(obs).Ok? ==> MeasureOnce(obs).value.energyJ.Some?
    ensures MeasureOnce(obs).Ok? ==> MeasureOnce(obs).value.ipc.Some? ==> MeasureOnce(obs).value.cycles > 0
  {
  }

  /** The two totals updates of the parse loop for one counted row. */
  method AddToTotals(totals: Counters, sample: Sample) returns (totals': Counters)
    ensures totals' == AddSample(totals, sample)
  {
    totals' := totals;
    if Contains(sample.baseEvent, "cycles") {
      totals' := totals'.(cycles := totals'.cycles + sample.value, foundCycles := true);
    }
    if Contains(sample.baseEvent, "instructions") {
      totals' := totals'.(instructions := totals'.instructions + sample.value, foundInstructions := true);
    }
  }

  /** The parse loop of one run. */
  method MeasureWorkloadOnce(obs: Observation) returns (r: Result<Measurement, string>)
    ensures r == MeasureOnce(obs)
  {
    if obs.perfReturnCode != 0 {
      return Err(PerfFailed);
    }
    var lines := SplitLines(obs.perfStderr);
    // cycles_total, instr_total, found_cycles, found_instr
    var totals := NoCounters;
    var k := 0;
    while k < |lines|
      invariant 0 <= k <= |lines|
      invariant totals == Tally(lines[..k])
    {
      assert lines[..k + 1][..k] == lines[..k];
      var row := ParseRow(lines[k]);
      if row.Some? {
        totals := AddToTotals(totals, row.value);
      }
      k := k + 1;
    }
    assert lines[..|lines|] == lines;
    if !totals.foundCycles || !totals.foundInstructions {
      return Err(CountersMissing);
    }
    var energy := Energy(obs.energyStart, obs.energyEnd);
    if energy.None? {
      // the log line formats `energy_j` with `:.6f`
      return Err(EnergyUnformattable);
    }
    var ipc := Ipc(totals.instructions, totals.cycles);
    r := Ok(Measurement(obs.timeSec, energy, totals.cycles, totals.instructions, ipc));
  }

  // ---------------------------------------------------------------------------
  // All runs
  // ---------------------------------------------------------------------------

  datatype RunRecord = RunRecord(m: Measurement, runIndex: nat)

  /**
   * `measure_workload_multiple`: `NumRuns` records in run order with indexes
   * 1..NumRuns, or the first run's exception.
   */
  method MeasureWorkloadMultiple(obs: seq<Observation>) returns (r: Result<seq<RunRecord>, string>)
    requires |obs| == NumRuns
    ensures r.Ok? <==> forall i :: 0 <= i < NumRuns ==> MeasureOnce(obs[i]).Ok?
    ensures r.Ok? ==> |r.value| == NumRuns
    ensures r.Ok? ==> forall i :: 0 <= i < NumRuns ==>
      r.value[i] == RunRecord(MeasureOnce(obs[i]).value, i + 1)
    ensures r.Err? ==> exists i :: 0 <= i < NumRuns && MeasureOnce(obs[i]) == Err(r.error)
                                && (forall j :: 0 <= j < i ==> MeasureOnce(obs[j]).Ok?)
  {
    var runs: seq<RunRecord> := [];
    var i := 0;
    while i < NumRuns
      invariant 0 <= i <= NumRuns && |runs| == i
      invariant forall j :: 0 <= j < i ==> MeasureOnce(obs[j]).Ok?
      invariant forall j :: 0 <= j < i ==> runs[j] == RunRecord(MeasureOnce(obs[j]).value, j + 1)
    {
      var m := MeasureWorkloadOnce(obs[i]);
      if m.Err? {
        return Err(m.error);
      }
      runs := runs + [RunRecord(m.value, i + 1)];
      i := i + 1;
    }
    r := Ok(runs);
  }

  // ---------------------------------------------------------------------------
  // Statistics
  // ---------------------------------------------------------------------------

  function Sum(xs: seq<real>): real
    decreases |xs|
  {
    if xs == [] then 0.0 else Sum(xs[..|xs| - 1]) + xs[|xs| - 1]
  }

  /** `statistics.mean`, NaN (`None`) for no samples. */
  function Mean(xs: seq<real>): (r: Option<real>)
    ensures r.None? <==> xs == []
  {
    if xs == [] then None else Some(Sum(xs) / |xs| as real)
  }

  function SquaredDeviations(xs: seq<real>, m: real): (r: real)
    ensures r >= 0.0
    decreases |xs|
  {
    if xs == [] then 0.0
    else
      var d := xs[|xs| - 1] - m;
      assert d * d >= 0.0 by {
        if d < 0.0 { assert d * d == (-d) * (-d); }
      }
      SquaredDeviations(xs[..|xs| - 1], m) + d * d
  }

  /** The sample variance, the square of `statistics.stdev`; NaN (`None`) below two samples. */
  function Variance(xs: seq<real>): (r: Option<real>)
    ensures r.None? <==> |xs| <= 1
    ensures r.Some? ==> r.value >= 0.0
  {
    if |xs| <= 1 then None else Some(SquaredDeviations(xs, Sum(xs) / |xs| as real) / (|xs| - 1) as real)
  }

  lemma {:induction false} SumBounds(xs: seq<real>, lo: real, hi: real)
    requires forall i :: 0 <= i < |xs| ==> lo <= xs[i] <= hi
    ensures lo * |xs| as real <= Sum(xs) <= hi * |xs| as real
    decreases |xs|
  {
    if xs != [] {
      SumBounds(xs[..|xs| - 1], lo, hi);
    }
  }

  /** The mean lies between any bounds of the samples. */
  lemma MeanWithin(xs: seq<real>, lo: real, hi: real)
    requires xs != []
    requires forall i :: 0 <= i < |xs| ==> lo <= xs[i] <= hi
    ensures lo <= Mean(xs).value <= hi
  {
    SumBounds(xs, lo, hi);
    QuotientWithin(Sum(xs), |xs| as real, lo, hi);
  }

  lemma QuotientWithin(s: real, n: real, lo: real, hi: real)
    requires n > 0.0 && lo * n <= s <= hi * n
    ensures lo <= s / n <= hi
  {
  }

  /** The present values, in order. */
  function Present(xs: seq<Option<real>>): (r: seq<real>)
    ensures |r| <= |xs|
    ensures forall x :: x in r <==> Some(x) in xs
    decreases |xs|
  {
    if xs == [] then []
    else
      var init := Present(xs[..|xs| - 1]);
      assert forall o :: o in xs <==> o in xs[..|xs| - 1] || o == xs[|xs| - 1];
      match xs[|xs| - 1]
      case None => init
      case Some(x) => init + [x]
  }

  /** Every value absent exactly when the filtered list is empty. */
  lemma PresentEmpty(xs: seq<Option<real>>)
    ensures Present(xs) == [] <==> forall i :: 0 <= i < |xs| ==> xs[i].None?
  {
    if Present(xs) != [] {
      assert Present(xs)[0] in Present(xs);
    } else {
      forall i | 0 <= i < |xs| ensures xs[i].None? {
        assert xs[i] in xs;
      }
    }
  }

  function Times(runs: seq<RunRecord>): (r: seq<real>)
    ensures |r| == |runs|
  {
    seq(|runs|, i requires 0 <= i < |runs| => runs[i].m.timeSec)
  }

  function EnergyReadings(runs: seq<RunRecord>): (r: seq<Option<real>>)
    ensures |r| == |runs| && forall i :: 0 <= i < |runs| ==> r[i] == runs[i].m.energyJ
  {
    seq(|runs|, i requires 0 <= i < |runs| => runs[i].m.energyJ)
  }

  function IpcReadings(runs: seq<RunRecord>): (r: seq<Option<real>>)
    ensures |r| == |runs| && forall i :: 0 <= i < |runs| ==> r[i] == runs[i].m.ipc
  {
    seq(|runs|, i requires 0 <= i < |runs| => runs[i].m.ipc)
  }

  function CycleSamples(runs: seq<RunRecord>): (r: seq<real>)
    ensures |r| == |runs|
  {
    seq(|runs|, i requires 0 <= i < |runs| => runs[i].m.cycles as real)
  }

  function InstructionSamples(runs: seq<RunRecord>): (r: seq<real>)
    ensures |r| == |runs|
  {
    seq(|runs|, i requires 0 <= i < |runs| => runs[i].m.instructions as real)
  }

  /** Means and sample variances per metric; `None` stands for NaN. */
  datatype Stats = Stats(
    timeMean: Option<real>, timeVar: Option<real>,
    energyMean: Option<real>, energyVar: Option<real>,
    cyclesMean: Option<real>, cyclesVar: Option<real>,
    instrMean: Option<real>, instrVar: Option<real>,
    ipcMean: Option<real>, ipcVar: Option<real>)

  /** `compute_stats`: means and sample variances of every metric. */
  function ComputeStats(runs: seq<RunRecord>): Stats {
    Stats(Mean(Times(runs)), Variance(Times(runs)),
          Mean(Present(EnergyReadings(runs))), Variance(Present(EnergyReadings(runs))),
          Mean(CycleSamples(runs)), Variance(CycleSamples(runs)),
          Mean(InstructionSamples(runs)), Variance(InstructionSamples(runs)),
          Mean(Present(IpcReadings(runs))), Variance(Present(IpcReadings(runs))))
  }

  /**
   * Runs without an energy reading, or with a NaN IPC, are dropped from those
   * two metrics only; a metric is NaN without samples, its spread below two.
   */
  lemma ComputeStatsNaN(runs: seq<RunRecord>)
    ensures ComputeStats(runs).energyMean.None? <==> forall i :: 0 <= i < |runs| ==> runs[i].m.energyJ.None?
    ensures ComputeStats(runs).ipcMean.None? <==> forall i :: 0 <= i < |runs| ==> runs[i].m.ipc.None?
    ensures ComputeStats(runs).timeMean.None? <==> runs == []
    ensures ComputeStats(runs).timeVar.None? <==> |runs| <= 1
    ensures ComputeStats(runs).cyclesVar.None? <==> |runs| <= 1
    ensures ComputeStats(runs).energyVar.Some? ==> ComputeStats(runs).energyMean.Some?
    ensures ComputeStats(runs).ipcVar.Some? ==> ComputeStats(runs).ipcMean.Some?
  {
    PresentEmpty(EnergyReadings(runs));
    PresentEmpty(IpcReadings(runs));
  }

  /**
   * Over the records `measure_workload_multiple` returns, every run has its
   * energy, so the energy mean is NaN only without runs and its spread only
   * below two runs.
   */
  lemma MeasuredEnergyPresent(runs: seq<RunRecord>, obs: seq<Observation>)
    requires |runs| == |obs|
    requires forall i :: 0 <= i < |runs| ==> MeasureOnce(obs[i]).Ok? && runs[i].m == MeasureOnce(obs[i]).value
    ensures |Present(EnergyReadings(runs))| == |runs|
    ensures forall i :: 0 <= i < |runs| ==> Some(Present(EnergyReadings(runs))[i]) == runs[i].m.energyJ
    ensures ComputeStats(runs).energyMean.None? <==> runs == []
    ensures ComputeStats(runs).energyVar.None? <==> |runs| <= 1
  {
    PresentAll(EnergyReadings(runs));
  }

  /** Filtering readings that are all present keeps every one, in order. */
  lemma {:induction false} PresentAll(xs: seq<Option<real>>)
    requires forall i :: 0 <= i < |xs| ==> xs[i].Some?
    ensures |Present(xs)| == |xs|
    ensures forall i :: 0 <= i < |xs| ==> Some(Present(xs)[i]) == xs[i]
    decreases |xs|
  {
    if xs != [] {
      var init := xs[..|xs| - 1];
      PresentAll(init);
      assert Present(xs) == Present(init) + [xs[|xs| - 1].value];
    }
  }

  /** Both RAPL readings of a run, where present, are 32-bit counter values. */
  predicate ReadingsInRange(o: Observation) {
    (o.energyStart.Some? ==> 0 <= o.energyStart.value < RaplWrap)
    && (o.energyEnd.Some? ==> 0 <= o.energyEnd.value < RaplWrap)
  }

  /** The energy mean only averages runs that have a reading, so it is never below zero. */
  lemma EnergyMeanNonNegative(runs: seq<RunRecord>, obs: seq<Observation>)
    requires |runs| == |obs|
    requires forall i :: 0 <= i < |runs| ==> MeasureOnce(obs[i]).Ok? && runs[i].m == MeasureOnce(obs[i]).value
    requires forall i :: 0 <= i < |obs| ==> ReadingsInRange(obs[i])
    ensures ComputeStats(runs).energyMean.Some? ==> ComputeStats(runs).energyMean.value >= 0.0
  {
    var energies := EnergyReadings(runs);
    var xs := Present(energies);
    if xs != [] {
      forall i | 0 <= i < |xs| ensures 0.0 <= xs[i] {
        assert xs[i] in xs;
        assert Some(xs[i]) in energies;
        var j :| 0 <= j < |energies| && energies[j] == Some(xs[i]);
        assert runs[j].m.energyJ == Energy(obs[j].energyStart, obs[j].energyEnd);
      }
      MeanWithin(xs, 0.0, Max(xs));
    }
  }

  function Max(xs: seq<real>): (m: real)
    requires xs != []
    ensures forall i :: 0 <= i < |xs| ==> xs[i] <= m
    decreases |xs|
  {
    if |xs| == 1 then xs[0]
    else
      var m := Max(xs[1..]);
      assert forall i :: 1 <= i < |xs| ==> xs[i] == xs[1..][i - 1];
      if xs[0] >= m then xs[0] else m
  }
}
