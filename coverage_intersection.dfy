/**
 * The diff-aware coverage differential for one (vulnerable, fixed) commit pair:
 * zero-context diff hunks become line correspondences, LCOV tracefiles become
 * `file -> line -> hits` maps, and the two are joined into CSV rows with
 * per-pair totals, a master view and a clean (executable-only) view.
 */
module CoverageIntersection {
  import opened Wrappers
  import opened PyStr

  function Max(a: nat, b: nat): nat { if a >= b then a else b }

  // ---------------------------------------------------------------------------
  // Hunk headers: ^@@ -(\d+)(?:,(\d+))? \+(\d+)(?:,(\d+))? @@
  // ---------------------------------------------------------------------------

  /** One hunk header: start and length on the vulnerable and the fixed side. */
  datatype Hunk = Hunk(vStart: nat, vLen: nat, fStart: nat, fLen: nat)

  /** `\d+` at the front of `s`: its value and the text after it. */
  function ReadNat(s: string): (r: Option<(nat, string)>)
    ensures r.Some? ==> |r.value.1| < |s|
  {
    var k := DigitRun(s);
    if k == 0 then None else Some((DigitsValue(s[..k]), s[k..]))
  }

  /**
   * `(?:,(\d+))?` at the front of `s`. The group is taken whenever it can be;
   * when it is skipped the next token must be a space, so no backtracking into
   * the group can make a failing match succeed.
   */
  function ReadOptLen(s: string): (r: (Option<nat>, string))
    ensures |r.1| <= |s|
  {
    if StartsWith(s, ",") then
      match ReadNat(s[1..])
      case Some((v, rest)) => (Some(v), rest)
      case None => (None, s)
    else (None, s)
  }

  /** `hunk_regex.match(line)`, with an omitted length defaulting to 1. */
  function ParseHunkHeader(line: string): Option<Hunk> {
    if StartsWith(line, "@@ -") then HunkAfterMinus(line[4..]) else None
  }

  /** The header after "@@ -": the vulnerable side, then " +". */
  function HunkAfterMinus(s: string): Option<Hunk> {
    match ReadNat(s)
    case None => None
    case Some((vs, r1)) =>
      var (vl, r2) := ReadOptLen(r1);
      if StartsWith(r2, " +") then HunkAfterPlus(vs, vl.GetOr(1), r2[2..]) else None
  }

  /** The header after " +": the fixed side, then " @@". */
  function HunkAfterPlus(vs: nat, vl: nat, s: string): Option<Hunk> {
    match ReadNat(s)
    case None => None
    case Some((fs, r3)) =>
      var (fl, r4) := ReadOptLen(r3);
      if StartsWith(r4, " @@") then Some(Hunk(vs, vl, fs, fl.GetOr(1))) else None
  }

  /** ",len", or nothing when the length is omitted. */
  function LenText(len: Option<nat>): string {
    match len
    case Some(n) => "," + NatToString(n)
    case None => ""
  }

  /** A hunk header as `diff -U0` writes it, followed by arbitrary text. */
  function HeaderText(vStart: nat, vLen: Option<nat>, fStart: nat, fLen: Option<nat>, tail: string): string {
    "@@ -" + (NatToString(vStart) + (LenText(vLen) + (" +" + (NatToString(fStart) + (LenText(fLen) + (" @@" + tail))))))
  }

  lemma ReadNatOf(n: nat, rest: string)
    requires rest == [] || !IsDigit(rest[0])
    ensures ReadNat(NatToString(n) + rest) == Some((n, rest))
  {
    var d := NatToString(n);
    DigitRunOfConcat(d, rest);
    assert (d + rest)[..|d|] == d;
    assert (d + rest)[|d|..] == rest;
    DigitsOfNat(n);
  }

  /** An optional ",len" followed by a space is read as exactly that length. */
  lemma ReadOptLenOf(len: Option<nat>, rest: string)
    requires rest != [] && rest[0] == ' '
    ensures ReadOptLen(LenText(len) + rest) == (len, rest)
  {
    if len.Some? {
      var s := LenText(len) + rest;
      assert s[1..] == NatToString(len.value) + rest;
      ReadNatOf(len.value, rest);
    } else {
      assert LenText(len) + rest == rest;
    }
  }

  lemma PrefixOf(p: string, rest: string)
    ensures StartsWith(p + rest, p) && (p + rest)[|p|..] == rest
  {
    assert (p + rest)[..|p|] == p;
  }

  lemma HunkAfterPlusOf(vs: nat, vl: nat, fs: nat, fl: Option<nat>, tail: string)
    ensures HunkAfterPlus(vs, vl, NatToString(fs) + (LenText(fl) + (" @@" + tail))) == Some(Hunk(vs, vl, fs, fl.GetOr(1)))
  {
    var r3 := LenText(fl) + (" @@" + tail);
    assert r3 != [] && !IsDigit(r3[0]) by {
      assert |LenText(fl)| == 0 || LenText(fl)[0] == ',';
    }
    ReadNatOf(fs, r3);
    ReadOptLenOf(fl, " @@" + tail);
    PrefixOf(" @@", tail);
  }

  lemma HunkAfterMinusOf(vs: nat, vl: Option<nat>, after: string)
    ensures HunkAfterMinus(NatToString(vs) + (LenText(vl) + (" +" + after))) == HunkAfterPlus(vs, vl.GetOr(1), after)
  {
    var r1 := LenText(vl) + (" +" + after);
    assert r1 != [] && !IsDigit(r1[0]) by {
      assert |LenText(vl)| == 0 || LenText(vl)[0] == ',';
    }
    ReadNatOf(vs, r1);
    ReadOptLenOf(vl, " +" + after);
    PrefixOf(" +", after);
  }

  /** Parsing a header gives back its numbers, an omitted length reading as 1. */
  lemma ParseHeaderText(vStart: nat, vLen: Option<nat>, fStart: nat, fLen: Option<nat>, tail: string)
    ensures ParseHunkHeader(HeaderText(vStart, vLen, fStart, fLen, tail))
      == Some(Hunk(vStart, vLen.GetOr(1), fStart, fLen.GetOr(1)))
  {
    var after := NatToString(fStart) + (LenText(fLen) + (" @@" + tail));
    var body := NatToString(vStart) + (LenText(vLen) + (" +" + after));
    PrefixOf("@@ -", body);
    HunkAfterMinusOf(vStart, vLen, after);
    HunkAfterPlusOf(vStart, vLen.GetOr(1), fStart, fLen, tail);
  }

  // ---------------------------------------------------------------------------
  // get_diff_mapping
  // ---------------------------------------------------------------------------

  /** One correspondence: a file and the line on each side, `None` past that side's length. */
  datatype DiffRecord = DiffRecord(file: string, vLine: Option<nat>, fLine: Option<nat>)

  /** The records of offsets `i` .. max(vLen, fLen) - 1 of one hunk. */
  function HunkRecordsFrom(file: string, h: Hunk, i: nat): (r: seq<DiffRecord>)
    requires i <= Max(h.vLen, h.fLen)
    ensures |r| == Max(h.vLen, h.fLen) - i
    ensures forall j :: 0 <= j < |r| ==>
      r[j].file == file
      && r[j].vLine == (if i + j < h.vLen then Some(h.vStart + i + j) else None)
      && r[j].fLine == (if i + j < h.fLen then Some(h.fStart + i + j) else None)
    decreases Max(h.vLen, h.fLen) - i
  {
    if i == Max(h.vLen, h.fLen) then []
    else
      [DiffRecord(file, if i < h.vLen then Some(h.vStart + i) else None,
                        if i < h.fLen then Some(h.fStart + i) else None)]
      + HunkRecordsFrom(file, h, i + 1)
  }

  /**
   * The records of one hunk: exactly max(vLen, fLen) of them; at offset i the
   * vulnerable line is vStart + i iff i < vLen, and likewise on the fixed side.
   */
  function HunkRecords(file: string, h: Hunk): (r: seq<DiffRecord>)
    ensures |r| == Max(h.vLen, h.fLen)
    ensures forall i :: 0 <= i < |r| ==>
      r[i].file == file
      && r[i].vLine == (if i < h.vLen then Some(h.vStart + i) else None)
      && r[i].fLine == (if i < h.fLen then Some(h.fStart + i) else None)
  {
    HunkRecordsFrom(file, h, 0)
  }

  /**
   * The current file after one line of `git diff -U0` output (the empty
   * string standing for Python's falsy `None`/`""`): only a `--- a/` line
   * changes it.
   */
  function NextFile(line: string, cur: string): (r: string)
    ensures !StartsWith(line, "--- a/") ==> r == cur
  {
    if StartsWith(line, "--- a/") then Strip(line[6..]) else cur
  }

  /** The records one line emits: those of a hunk header, once a file is current. */
  function StepRecords(line: string, cur: string): (r: seq<DiffRecord>)
    ensures r != [] ==> cur != [] && StartsWith(line, "@@") && ParseHunkHeader(line).Some?
    ensures forall j :: 0 <= j < |r| ==> r[j].file == cur
  {
    if StartsWith(line, "--- a/") then []
    else if StartsWith(line, "@@") && cur != [] then
      match ParseHunkHeader(line)
      case Some(h) => HunkRecords(cur, h)
      case None => []
    else []
  }

  /** The current file after the first `k` lines ("" before any `--- a/` line). */
  function CurrentAfter(lines: seq<string>, k: nat): string
    requires k <= |lines|
  {
    if k == 0 then "" else NextFile(lines[k - 1], CurrentAfter(lines, k - 1))
  }

  /** The records emitted by the first `k` lines; every one names a file and at least one line. */
  function MappingAfter(lines: seq<string>, k: nat): (r: seq<DiffRecord>)
    requires k <= |lines|
    ensures forall j :: 0 <= j < |r| ==> r[j].file != [] && (r[j].vLine.Some? || r[j].fLine.Some?)
  {
    if k == 0 then []
    else
      var recs := StepRecords(lines[k - 1], CurrentAfter(lines, k - 1));
      assert forall j :: 0 <= j < |recs| ==> recs[j].vLine.Some? || recs[j].fLine.Some?;
      MappingAfter(lines, k - 1) + recs
  }

  /** Line `k` moves both accumulators one step. */
  lemma AfterLine(lines: seq<string>, k: nat)
    requires k < |lines|
    ensures CurrentAfter(lines, k + 1) == NextFile(lines[k], CurrentAfter(lines, k))
    ensures MappingAfter(lines, k + 1) == MappingAfter(lines, k) + StepRecords(lines[k], CurrentAfter(lines, k))
  {
  }

  /** The mapping of a whole diff. */
  function DiffMapping(lines: seq<string>): seq<DiffRecord> {
    MappingAfter(lines, |lines|)
  }

  /** Without a `--- a/` line no file is current, so no hunk emits anything. */
  lemma {:induction false} NoFileHeaderNoRecords(lines: seq<string>, k: nat)
    requires k <= |lines|
    requires forall i :: 0 <= i < k ==> !StartsWith(lines[i], "--- a/")
    ensures CurrentAfter(lines, k) == "" && MappingAfter(lines, k) == []
  {
    if k > 0 {
      NoFileHeaderNoRecords(lines, k - 1);
      assert !StartsWith(lines[k - 1], "--- a/");
      assert NextFile(lines[k - 1], "") == "" && StepRecords(lines[k - 1], "") == [];
    }
  }

  /** The current file only changes at a `--- a/` line; a `--- /dev/null` line keeps it. */
  lemma {:induction false} CurrentFileFromLastHeader(lines: seq<string>, k: nat, m: nat)
    requires m <= k <= |lines|
    requires forall i :: m <= i < k ==> !StartsWith(lines[i], "--- a/")
    ensures CurrentAfter(lines, k) == CurrentAfter(lines, m)
  {
    if k > m {
      CurrentFileFromLastHeader(lines, k - 1, m);
      assert !StartsWith(lines[k - 1], "--- a/");
    }
  }

  /** The `for i in range(max_range)` loop: appends the records of one hunk. */
  method AppendHunk(mapping: seq<DiffRecord>, file: string, h: Hunk) returns (out: seq<DiffRecord>)
    ensures out == mapping + HunkRecords(file, h)
  {
    out := mapping;
    var maxRange := Max(h.vLen, h.fLen);
    var i := 0;
    while i < maxRange
      invariant 0 <= i <= maxRange
      invariant out == mapping + HunkRecords(file, h)[..i]
    {
      var vCurr := if i < h.vLen then Some(h.vStart + i) else None;
      var fCurr := if i < h.fLen then Some(h.fStart + i) else None;
      assert HunkRecords(file, h)[..i + 1] == HunkRecords(file, h)[..i] + [DiffRecord(file, vCurr, fCurr)];
      out := out + [DiffRecord(file, vCurr, fCurr)];
      i := i + 1;
    }
    assert HunkRecords(file, h)[..maxRange] == HunkRecords(file, h);
  }

  /** One pass of the loop over the diff lines. */
  method DiffLine(line: string, current: string, mapping: seq<DiffRecord>) returns (next: string, out: seq<DiffRecord>)
    ensures next == NextFile(line, current) && out == mapping + StepRecords(line, current)
  {
    next, out := current, mapping;
    if StartsWith(line, "--- a/") {
      next := Strip(line[6..]);
    } else if StartsWith(line, "@@") && current != [] {
      var m := ParseHunkHeader(line);
      if m.Some? {
        out := AppendHunk(mapping, current, m.value);
      }
    }
  }

  /** `get_diff_mapping`, applied to the diff text. */
  method GetDiffMapping(stdout: string) returns (mapping: seq<DiffRecord>)
    ensures mapping == DiffMapping(SplitLines(stdout))
  {
    var lines := SplitLines(stdout);
    var current := "";
    mapping := [];
    var k := 0;
    while k < |lines|
      invariant 0 <= k <= |lines|
      invariant mapping == MappingAfter(lines, k) && current == CurrentAfter(lines, k)
    {
      AfterLine(lines, k);
      current, mapping := DiffLine(lines[k], current, mapping);
      k := k + 1;
    }
  }

  // ---------------------------------------------------------------------------
  // get_file_content_at_commit
  // ---------------------------------------------------------------------------

  /** `{i + 1: line for i, line in enumerate(lines)}`: line numbers from 1. */
  function NumberLines(lines: seq<string>): (m: map<int, string>)
    ensures forall n :: n in m <==> 1 <= n <= |lines|
    ensures forall n :: n in m ==> m[n] == lines[n - 1]
  {
    if lines == [] then map[]
    else
      var init := lines[..|lines| - 1];
      assert forall i :: 0 <= i < |init| ==> init[i] == lines[i];
      NumberLines(init)[|lines| := lines[|lines| - 1]]
  }

  /** `get_file_content_at_commit`: the numbered lines of `git show` when it exits 0, otherwise empty. */
  function FileContentMap(returnCode: int, stdout: string): map<int, string> {
    if returnCode == 0 then NumberLines(SplitLines(stdout)) else map[]
  }

  // ---------------------------------------------------------------------------
  // parse_lcov_info
  // ---------------------------------------------------------------------------

  /** file -> line -> hit count. */
  type Coverage = map<string, map<int, int>>

  /** The lcov state between lines: the current `SF:` key ("" when none) and the map so far. */
  predicate LcovInv(cur: string, cov: Coverage) { cur == [] || cur in cov }

  /**
   * One tracefile line. `rel` is `os.path.relpath(path, projectPath)`, applied
   * only when `projectPath` occurs in the path. A `DA:` record whose fields are
   * not integers raises, as `int()` and `parts[1]` do.
   */
  function LcovStep(line: string, cur: string, cov: Coverage, projectPath: string, rel: string -> string)
    : (r: Result<(string, Coverage), string>)
    requires LcovInv(cur, cov)
    ensures r.Ok? ==> LcovInv(r.value.0, r.value.1)
    ensures StartsWith(Strip(line), "DA:") && cur == [] ==> r == Ok((cur, cov))
    ensures StartsWith(Strip(line), "SF:") ==>
      (r.Ok? && r.value.0 in r.value.1 && r.value.1[r.value.0] == map[]
       && forall f :: f in cov && f != r.value.0 ==> f in r.value.1 && r.value.1[f] == cov[f])
    ensures r.Ok? && !StartsWith(Strip(line), "SF:") ==> r.value.0 == cur && r.value.1.Keys == cov.Keys
  {
    var t := Strip(line);
    if StartsWith(t, "SF:") then
      var full := t[3..];
      var sf := if Contains(full, projectPath) then rel(full) else full;
      Ok((sf, cov[sf := map[]]))
    else if StartsWith(t, "DA:") && cur != [] then
      var parts := Split(t[3..], ',');
      if |parts| < 2 then Err("IndexError")
      else
        match ParseInt(parts[1])
        case None => Err("ValueError")
        case Some(hits) =>
          match ParseInt(parts[0])
          case None => Err("ValueError")
          case Some(lineNo) => Ok((cur, cov[cur := cov[cur][lineNo := hits]]))
    else Ok((cur, cov))
  }

  /** The `DA:` record geninfo writes for a line and its hit count. */
  function DaLine(lineNo: nat, hits: nat): string {
    "DA:" + (NatToString(lineNo) + ([','] + NatToString(hits)))
  }

  /** A well-formed `DA:` record under a current file sets exactly that line of that file. */
  lemma DaRecordSetsHit(cur: string, cov: Coverage, projectPath: string, rel: string -> string, lineNo: nat, hits: nat)
    requires cur != [] && cur in cov
    ensures LcovStep(DaLine(lineNo, hits), cur, cov, projectPath, rel) == Ok((cur, cov[cur := cov[cur][lineNo := hits]]))
  {
    var line := DaLine(lineNo, hits);
    DaLineShape(lineNo, hits);
    IntToStringRoundTrip(lineNo);
    IntToStringRoundTrip(hits);
    LcovStepOnDa(line, cur, cov, projectPath, rel, lineNo, hits);
  }

  /** A `DA:` record is already stripped and splits into its two numbers. */
  lemma DaLineShape(lineNo: nat, hits: nat)
    ensures var line := DaLine(lineNo, hits);
      Strip(line) == line && StartsWith(line, "DA:") && !StartsWith(line, "SF:")
      && Split(line[3..], ',') == [NatToString(lineNo), NatToString(hits)]
  {
    var a := NatToString(lineNo);
    var b := NatToString(hits);
    var rest := a + ([','] + b);
    var line := DaLine(lineNo, hits);
    PrefixOf("DA:", rest);
    assert line[|line| - 1] == b[|b| - 1];
    assert IsDigit(b[|b| - 1]) && line[0] == 'D';
    StripUnchanged(line);
    assert !StartsWith(line, "SF:") by { assert line[0] != "SF:"[0]; }
    JoinSplitOfTwo(a, b, ',');
    assert a + [','] + b == rest;
  }

  lemma LcovStepOnDa(line: string, cur: string, cov: Coverage, projectPath: string, rel: string -> string, lineNo: int, hits: int)
    requires cur != [] && cur in cov
    requires Strip(line) == line && StartsWith(line, "DA:") && !StartsWith(line, "SF:")
    requires var parts := Split(line[3..], ','); |parts| == 2 && ParseInt(parts[0]) == Some(lineNo) && ParseInt(parts[1]) == Some(hits)
    ensures LcovStep(line, cur, cov, projectPath, rel) == Ok((cur, cov[cur := cov[cur][lineNo := hits]]))
  {
  }

  lemma JoinSplitOfTwo(a: string, b: string, sep: char)
    requires IsDigitString(a) && IsDigitString(b) && !IsDigit(sep)
    ensures Split(a + [sep] + b, sep) == [a, b]
  {
    assert sep !in a;
    assert sep !in b;
    SplitNoSep(b, sep);
    SplitPrefix(a, [sep] + b, sep);
    assert a + [sep] + b == a + ([sep] + b);
    assert ([sep] + b)[1..] == b;
  }

  /** The map after the remaining lines, or the first exception raised. */
  function LcovFrom(lines: seq<string>, cur: string, cov: Coverage, projectPath: string, rel: string -> string)
    : (r: Result<Coverage, string>)
    requires LcovInv(cur, cov)
    decreases |lines|
  {
    if lines == [] then Ok(cov)
    else
      match LcovStep(lines[0], cur, cov, projectPath, rel)
      case Err(e) => Err(e)
      case Ok((cur', cov')) => LcovFrom(lines[1..], cur', cov', projectPath, rel)
  }

  /** `parse_lcov_info`: `None` for a tracefile that does not exist. */
  function ParseLcov(file: Option<seq<string>>, projectPath: string, rel: string -> string): (r: Result<Coverage, string>)
    ensures file.None? ==> r == Ok(map[])
  {
    match file
    case None => Ok(map[])
    case Some(lines) => LcovFrom(lines, "", map[], projectPath, rel)
  }

  /** The key an `SF:` line opens. */
  function SfKey(line: string, projectPath: string, rel: string -> string): string
    requires StartsWith(Strip(line), "SF:")
  {
    var full := Strip(line)[3..];
    if Contains(full, projectPath) then rel(full) else full
  }

  /** Every file in the result was named by some `SF:` line (or was already in the map). */
  lemma {:induction false} LcovKeysFromSf(lines: seq<string>, cur: string, cov: Coverage, projectPath: string, rel: string -> string, f: string)
    requires LcovInv(cur, cov)
    requires LcovFrom(lines, cur, cov, projectPath, rel).Ok?
    requires f in LcovFrom(lines, cur, cov, projectPath, rel).value
    ensures f in cov || exists k :: 0 <= k < |lines| && StartsWith(Strip(lines[k]), "SF:") && SfKey(lines[k], projectPath, rel) == f
    decreases |lines|
  {
    if lines != [] {
      var step := LcovStep(lines[0], cur, cov, projectPath, rel);
      var (cur', cov') := step.value;
      LcovKeysFromSf(lines[1..], cur', cov', projectPath, rel, f);
      if f !in cov' {
        var k :| 0 <= k < |lines[1..]| && StartsWith(Strip(lines[1..][k]), "SF:") && SfKey(lines[1..][k], projectPath, rel) == f;
        assert lines[k + 1] == lines[1..][k];
      } else if f !in cov {
        assert StartsWith(Strip(lines[0]), "SF:");
      }
    }
  }

  /** A tracefile without `SF:` records yields the empty map: stray `DA:` records are ignored. */
  lemma {:induction false} LcovWithoutSf(lines: seq<string>, projectPath: string, rel: string -> string)
    requires forall k :: 0 <= k < |lines| ==> !StartsWith(Strip(lines[k]), "SF:")
    ensures LcovFrom(lines, "", map[], projectPath, rel) == Ok(map[])
    decreases |lines|
  {
    if lines != [] {
      assert LcovStep(lines[0], "", map[], projectPath, rel) == Ok(("", map[]));
      LcovWithoutSf(lines[1..], projectPath, rel);
    }
  }

  /** The loop of `parse_lcov_info`. */
  method ParseLcovInfo(file: Option<seq<string>>, projectPath: string, rel: string -> string)
    returns (r: Result<Coverage, string>)
    ensures r == ParseLcov(file, projectPath, rel)
  {
    if file.None? {
      return Ok(map[]);
    }
    var lines := file.value;
    var coverage: Coverage := map[];
    var currentSf := "";
    var k := 0;
    while k < |lines|
      invariant 0 <= k <= |lines|
      invariant LcovInv(currentSf, coverage)
      invariant LcovFrom(lines[k..], currentSf, coverage, projectPath, rel) == ParseLcov(file, projectPath, rel)
    {
      assert lines[k..][1..] == lines[k + 1..];
      var line := Strip(lines[k]);
      if StartsWith(line, "SF:") {
        var fullPath := line[3..];
        currentSf := if Contains(fullPath, projectPath) then rel(fullPath) else fullPath;
        coverage := coverage[currentSf := map[]];
      } else if StartsWith(line, "DA:") && currentSf != [] {
        var parts := Split(line[3..], ',');
        if |parts| < 2 {
          return Err("IndexError");
        }
        var hits := ParseInt(parts[1]);
        if hits.None? {
          return Err("ValueError");
        }
        var lineNo := ParseInt(parts[0]);
        if lineNo.None? {
          return Err("ValueError");
        }
        coverage := coverage[currentSf := coverage[currentSf][lineNo.value := hits.value]];
      }
      k := k + 1;
    }
    r := Ok(coverage);
  }

  // ---------------------------------------------------------------------------
  // The join in main
  // ---------------------------------------------------------------------------

  /** A hits cell: "N/A", or a count. */
  datatype Hits = NA | Count(n: int)

  /** A line-number cell: `None` prints as "N/A". */
  type LineCell = Option<nat>

  /** One row of the intersection, before the `is_executable` column is dropped. */
  datatype CovRow = CovRow(
    pair: string, file: string,
    vLine: LineCell, vSnippet: string, vHits: Hits,
    fLine: LineCell, fSnippet: string, fHits: Hits,
    executable: bool)

  /** Python truthiness of a line number: `None` and 0 are false. */
  predicate Truthy(l: Option<nat>) { l.Some? && l.value != 0 }

  /** The cells one side contributes to a row. */
  datatype Side = Side(executable: bool, hits: Hits, line: LineCell, snippet: string)

  /**
   * One side of a record: executable iff it has a line and that line has a
   * `DA:` record; hits "N/A" without a line, else the recorded count or 0; the
   * snippet is the stripped source line, or `missing` ("[ADDED]"/"[DELETED]").
   */
  function SideOf(cov: Coverage, contents: map<string, map<int, string>>, file: string, l: Option<nat>, missing: string)
    : (s: Side)
    ensures s.executable <==> Truthy(l) && file in cov && l.value in cov[file]
    ensures s.hits == NA <==> !Truthy(l)
    ensures Truthy(l) ==> s.hits == Count(if file in cov && l.value in cov[file] then cov[file][l.value] else 0)
    ensures s.line == (if Truthy(l) then l else None)
    ensures !Truthy(l) ==> s.snippet == missing
  {
    if !Truthy(l) then Side(false, NA, None, missing)
    else
      var fileCov := if file in cov then cov[file] else map[];
      var fileText := if file in contents then contents[file] else map[];
      var text := if l.value in fileText then fileText[l.value] else missing;
      Side(l.value in fileCov, Count(if l.value in fileCov then fileCov[l.value] else 0), l, Strip(text))
  }

  /** The row of one record: executable iff either side is. */
  function RowOf(pair: string, d: DiffRecord, vCov: Coverage, fCov: Coverage,
                 vContents: map<string, map<int, string>>, fContents: map<string, map<int, string>>): (r: CovRow)
    ensures r.executable <==> SideOf(vCov, vContents, d.file, d.vLine, "[ADDED]").executable
                              || SideOf(fCov, fContents, d.file, d.fLine, "[DELETED]").executable
    ensures r.vHits.Count? <==> r.vLine.Some?
    ensures r.fHits.Count? <==> r.fLine.Some?
  {
    var v := SideOf(vCov, vContents, d.file, d.vLine, "[ADDED]");
    var f := SideOf(fCov, fContents, d.file, d.fLine, "[DELETED]");
    CovRow(pair, d.file, v.line, v.snippet, v.hits, f.line, f.snippet, f.hits, v.executable || f.executable)
  }

  /** Rows that have a vulnerable-side line. */
  function VLines(rows: seq<CovRow>): nat {
    if rows == [] then 0 else (if rows[0].vLine.Some? then 1 else 0) + VLines(rows[1..])
  }

  /** Rows whose vulnerable-side hit count is positive. */
  function VHitRows(rows: seq<CovRow>): nat {
    if rows == [] then 0 else (if rows[0].vHits.Count? && rows[0].vHits.n > 0 then 1 else 0) + VHitRows(rows[1..])
  }

  function FLines(rows: seq<CovRow>): nat {
    if rows == [] then 0 else (if rows[0].fLine.Some? then 1 else 0) + FLines(rows[1..])
  }

  function FHitRows(rows: seq<CovRow>): nat {
    if rows == [] then 0 else (if rows[0].fHits.Count? && rows[0].fHits.n > 0 then 1 else 0) + FHitRows(rows[1..])
  }

  /** A row has a count on a side exactly when it has a line on that side. */
  predicate WellFormed(rows: seq<CovRow>) {
    forall i :: 0 <= i < |rows| ==> (rows[i].vHits.Count? <==> rows[i].vLine.Some?) && (rows[i].fHits.Count? <==> rows[i].fLine.Some?)
  }

  /** 0 <= hits <= lines on each side. */
  lemma {:induction false} HitsWithinLines(rows: seq<CovRow>)
    requires WellFormed(rows)
    ensures VHitRows(rows) <= VLines(rows) && FHitRows(rows) <= FLines(rows)
  {
    if rows != [] {
      HitsWithinLines(rows[1..]);
    }
  }

  lemma {:induction false} CountsAppend(rows: seq<CovRow>, r: CovRow)
    ensures VLines(rows + [r]) == VLines(rows) + (if r.vLine.Some? then 1 else 0)
    ensures VHitRows(rows + [r]) == VHitRows(rows) + (if r.vHits.Count? && r.vHits.n > 0 then 1 else 0)
    ensures FLines(rows + [r]) == FLines(rows) + (if r.fLine.Some? then 1 else 0)
    ensures FHitRows(rows + [r]) == FHitRows(rows) + (if r.fHits.Count? && r.fHits.n > 0 then 1 else 0)
  {
    if rows == [] {
      assert [r][1..] == [];
    } else {
      assert (rows + [r])[1..] == rows[1..] + [r];
      CountsAppend(rows[1..], r);
    }
  }

  /** The summary line of one pair; the percentage text is "0%" when there are no lines. */
  datatype Percent = ZeroPercent | Ratio(hits: nat, total: nat)

  function Percentage(hits: nat, total: nat): (p: Percent)
    ensures p == ZeroPercent <==> total == 0
  {
    if total > 0 then Ratio(hits, total) else ZeroPercent
  }

  datatype Summary = Summary(pair: string, vLines: nat, vHits: nat, vPct: Percent, fLines: nat, fHits: nat, fPct: Percent)

  /** The body of the per-record loop: the row and what it adds to each of the four totals. */
  method JoinRecord(pair: string, item: DiffRecord, vCov: Coverage, fCov: Coverage,
                    vContents: map<string, map<int, string>>, fContents: map<string, map<int, string>>)
    returns (row: CovRow, vTotal: nat, vHit: nat, fTotal: nat, fHit: nat)
    ensures row == RowOf(pair, item, vCov, fCov, vContents, fContents)
    ensures vTotal == (if row.vLine.Some? then 1 else 0) && vHit == (if row.vHits.Count? && row.vHits.n > 0 then 1 else 0)
    ensures fTotal == (if row.fLine.Some? then 1 else 0) && fHit == (if row.fHits.Count? && row.fHits.n > 0 then 1 else 0)
  {
    var v := SideOf(vCov, vContents, item.file, item.vLine, "[ADDED]");
    var f := SideOf(fCov, fContents, item.file, item.fLine, "[DELETED]");
    vTotal, vHit, fTotal, fHit := 0, 0, 0, 0;
    if Truthy(item.vLine) {
      vTotal := 1;
      if v.hits.Count? && v.hits.n > 0 { vHit := 1; }
    }
    if Truthy(item.fLine) {
      fTotal := 1;
      if f.hits.Count? && f.hits.n > 0 { fHit := 1; }
    }
    row := CovRow(pair, item.file, v.line, v.snippet, v.hits, f.line, f.snippet, f.hits, v.executable || f.executable);
  }

  /** The per-record loop of `main` for one commit pair. */
  method JoinPair(pair: string, diff: seq<DiffRecord>, vCov: Coverage, fCov: Coverage,
                  vContents: map<string, map<int, string>>, fContents: map<string, map<int, string>>)
    returns (rows: seq<CovRow>, summary: Summary)
    ensures |rows| == |diff|
    ensures forall i :: 0 <= i < |diff| ==> rows[i] == RowOf(pair, diff[i], vCov, fCov, vContents, fContents)
    ensures summary.vLines == VLines(rows) && summary.vHits == VHitRows(rows)
    ensures summary.fLines == FLines(rows) && summary.fHits == FHitRows(rows)
    ensures summary.vHits <= summary.vLines && summary.fHits <= summary.fLines
    ensures summary.vPct == Percentage(summary.vHits, summary.vLines)
    ensures summary.fPct == Percentage(summary.fHits, summary.fLines)
  {
    var vTotal, vHit, fTotal, fHit := 0, 0, 0, 0;
    rows := [];
    var k := 0;
    while k < |diff|
      invariant 0 <= k <= |diff|
      invariant |rows| == k
      invariant forall i :: 0 <= i < k ==> rows[i] == RowOf(pair, diff[i], vCov, fCov, vContents, fContents)
      invariant vTotal == VLines(rows) && vHit == VHitRows(rows)
      invariant fTotal == FLines(rows) && fHit == FHitRows(rows)
    {
      var row, dv, dvh, df, dfh := JoinRecord(pair, diff[k], vCov, fCov, vContents, fContents);
      CountsAppend(rows, row);
      vTotal, vHit, fTotal, fHit := vTotal + dv, vHit + dvh, fTotal + df, fHit + dfh;
      rows := rows + [row];
      k := k + 1;
    }
    HitsWithinLines(rows);
    summary := Summary(pair, vTotal, vHit, Percentage(vHit, vTotal), fTotal, fHit, Percentage(fHit, fTotal));
  }

  // ---------------------------------------------------------------------------
  // Master and clean CSV views
  // ---------------------------------------------------------------------------

  /** A written row: the `is_executable` column dropped. */
  datatype CsvRow = CsvRow(
    pair: string, file: string,
    vLine: LineCell, vSnippet: string, vHits: Hits,
    fLine: LineCell, fSnippet: string, fHits: Hits)

  function DropFlag(r: CovRow): CsvRow {
    CsvRow(r.pair, r.file, r.vLine, r.vSnippet, r.vHits, r.fLine, r.fSnippet, r.fHits)
  }

  /** Every row, in order. */
  function MasterView(rows: seq<CovRow>): (out: seq<CsvRow>)
    ensures |out| == |rows| && forall i :: 0 <= i < |rows| ==> out[i] == DropFlag(rows[i])
  {
    seq(|rows|, i requires 0 <= i < |rows| => DropFlag(rows[i]))
  }

  /** The executable rows, in order. */
  function CleanView(rows: seq<CovRow>): (out: seq<CsvRow>)
    ensures |out| <= |rows|
  {
    if rows == [] then []
    else (if rows[0].executable then [DropFlag(rows[0])] else []) + CleanView(rows[1..])
  }

  function CountExecutable(rows: seq<CovRow>): nat {
    if rows == [] then 0 else (if rows[0].executable then 1 else 0) + CountExecutable(rows[1..])
  }

  /** The clean view of consecutive blocks is the consecutive clean views: order is kept. */
  lemma {:induction false} CleanViewAppend(a: seq<CovRow>, b: seq<CovRow>)
    ensures CleanView(a + b) == CleanView(a) + CleanView(b)
    decreases |a|
  {
    if a == [] {
      assert a + b == b;
    } else {
      var h := if a[0].executable then [DropFlag(a[0])] else [];
      assert (a + b)[0] == a[0] && (a + b)[1..] == a[1..] + b;
      assert CleanView(a + b) == h + CleanView(a[1..] + b);
      CleanViewAppend(a[1..], b);
      assert CleanView(a) == h + CleanView(a[1..]);
      assert h + (CleanView(a[1..]) + CleanView(b)) == (h + CleanView(a[1..])) + CleanView(b);
    }
  }

  /** The clean view has one row per executable row. */
  lemma {:induction false} CleanViewSize(rows: seq<CovRow>)
    ensures |CleanView(rows)| == CountExecutable(rows)
  {
    if rows != [] { CleanViewSize(rows[1..]); }
  }

  /** A row is in the clean view iff it is the master form of an executable row. */
  lemma {:induction false} CleanViewMembers(rows: seq<CovRow>, c: CsvRow)
    ensures c in CleanView(rows) <==> exists i :: 0 <= i < |rows| && rows[i].executable && DropFlag(rows[i]) == c
  {
    if rows != [] {
      CleanViewMembers(rows[1..], c);
      if c in CleanView(rows[1..]) {
        var i :| 0 <= i < |rows[1..]| && rows[1..][i].executable && DropFlag(rows[1..][i]) == c;
        assert rows[i + 1] == rows[1..][i];
      }
      if exists i :: 0 <= i < |rows| && rows[i].executable && DropFlag(rows[i]) == c {
        var i :| 0 <= i < |rows| && rows[i].executable && DropFlag(rows[i]) == c;
        if i > 0 { assert rows[1..][i - 1] == rows[i]; }
      }
    }
  }

  /** With every row executable the two views coincide. */
  lemma {:induction false} CleanViewAllExecutable(rows: seq<CovRow>)
    requires forall i :: 0 <= i < |rows| ==> rows[i].executable
    ensures CleanView(rows) == MasterView(rows)
  {
    if rows != [] {
      CleanViewAllExecutable(rows[1..]);
      assert MasterView(rows) == [DropFlag(rows[0])] + MasterView(rows[1..]);
    }
  }
}
