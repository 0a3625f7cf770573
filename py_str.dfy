/**
 * The pieces of Python's `str` behaviour that the scripts rely on: whitespace
 * stripping, prefix/suffix/substring tests, `replace`, `split`, `splitlines`,
 * `join`, `int()` and `float()` on decimal text, `str(n)`, `os.path.basename`,
 * `os.path.join` and code-point ordering for `sorted`.
 *
 * Character classes follow Python 3 on the characters that appear in the
 * scripts' inputs: whitespace is the full `str.isspace` set, while digits,
 * word characters and case mapping are restricted to ASCII.
 */
module PyStr {
  import opened Wrappers

  // ---------------------------------------------------------------------------
  // Character classes
  // ---------------------------------------------------------------------------

  /** `c.isspace()`, which is also what `\s` matches in a `str` regex. */
  predicate IsSpace(c: char) {
    c == ' ' || ('\t' <= c <= '\r') || ('\U{1c}' <= c <= '\U{1f}')
    || c == '\U{85}' || c == '\U{a0}' || c == '\U{1680}'
    || ('\U{2000}' <= c <= '\U{200a}') || c == '\U{2028}' || c == '\U{2029}'
    || c == '\U{202f}' || c == '\U{205f}' || c == '\U{3000}'
  }

  /** The characters at which `str.splitlines` ends a line. */
  predicate IsLineBreak(c: char) {
    c == '\n' || c == '\r' || c == '\U{b}' || c == '\U{c}'
    || ('\U{1c}' <= c <= '\U{1e}') || c == '\U{85}' || c == '\U{2028}' || c == '\U{2029}'
  }

  /** `\d` (ASCII). */
  predicate IsDigit(c: char) { '0' <= c <= '9' }

  /** `\w` (ASCII). */
  predicate IsWordChar(c: char) {
    ('a' <= c <= 'z') || ('A' <= c <= 'Z') || IsDigit(c) || c == '_'
  }

  predicate AllDigits(s: string) { forall i :: 0 <= i < |s| ==> IsDigit(s[i]) }

  /** `s.isdigit()`: non-empty and every character a digit. */
  predicate IsDigitString(s: string) { s != [] && AllDigits(s) }

  function LowerChar(c: char): char {
    if 'A' <= c <= 'Z' then (c as int + 32) as char else c
  }

  function UpperChar(c: char): char {
    if 'a' <= c <= 'z' then (c as int - 32) as char else c
  }

  function Lower(s: string): (r: string)
    ensures |r| == |s| && forall i :: 0 <= i < |s| ==> r[i] == LowerChar(s[i])
  {
    seq(|s|, i requires 0 <= i < |s| => LowerChar(s[i]))
  }

  function Upper(s: string): (r: string)
    ensures |r| == |s| && forall i :: 0 <= i < |s| ==> r[i] == UpperChar(s[i])
  {
    seq(|s|, i requires 0 <= i < |s| => UpperChar(s[i]))
  }

  // ---------------------------------------------------------------------------
  // Prefixes, suffixes, substrings
  // ---------------------------------------------------------------------------

  /** `s.startswith(p)`. */
  predicate StartsWith(s: string, p: string) {
    |p| <= |s| && forall i :: 0 <= i < |p| ==> s[i] == p[i]
  }

  /** `s.endswith(p)`. */
  predicate EndsWith(s: string, p: string) {
    |p| <= |s| && forall i :: 0 <= i < |p| ==> s[|s| - |p| + i] == p[i]
  }

  /** `sub in s`. */
  predicate Contains(s: string, sub: string)
    decreases |s|
  {
    StartsWith(s, sub) || (s != [] && Contains(s[1..], sub))
  }

  /** A text never contains a longer one. */
  lemma {:induction false} ContainsTooLong(s: string, sub: string)
    requires |sub| > |s|
    ensures !Contains(s, sub)
    decreases |s|
  {
    if s != [] { ContainsTooLong(s[1..], sub); }
  }

  lemma {:induction false} ContainsAt(s: string, sub: string, k: nat)
    requires k + |sub| <= |s| && s[k..k + |sub|] == sub
    ensures Contains(s, sub)
    decreases k
  {
    if k > 0 {
      assert s[1..][k - 1..k - 1 + |sub|] == sub;
      ContainsAt(s[1..], sub, k - 1);
    }
  }

  lemma {:induction false} ContainsWitness(s: string, sub: string) returns (k: nat)
    requires Contains(s, sub)
    ensures k + |sub| <= |s| && s[k..k + |sub|] == sub
    decreases |s|
  {
    if StartsWith(s, sub) {
      k := 0;
    } else {
      var k' := ContainsWitness(s[1..], sub);
      k := k' + 1;
      assert s[k..k + |sub|] == s[1..][k'..k' + |sub|];
    }
  }

  lemma {:induction false} ContainsAppend(a: string, b: string, sub: string)
    requires Contains(a, sub) || Contains(b, sub)
    ensures Contains(a + b, sub)
  {
    if Contains(a, sub) {
      var k := ContainsWitness(a, sub);
      assert (a + b)[k..k + |sub|] == a[k..k + |sub|];
      ContainsAt(a + b, sub, k);
    } else {
      var k := ContainsWitness(b, sub);
      assert (a + b)[|a| + k..|a| + k + |sub|] == b[k..k + |sub|];
      ContainsAt(a + b, sub, |a| + k);
    }
  }

  // ---------------------------------------------------------------------------
  // Stripping
  // ---------------------------------------------------------------------------

  /** The number of leading whitespace characters. */
  function LeadingSpaces(s: string): (k: nat)
    ensures k <= |s| && (forall i :: 0 <= i < k ==> IsSpace(s[i])) && (k < |s| ==> !IsSpace(s[k]))
    decreases |s|
  {
    if s != [] && IsSpace(s[0]) then 1 + LeadingSpaces(s[1..]) else 0
  }

  /** The number of trailing whitespace characters. */
  function TrailingSpaces(s: string): (k: nat)
    ensures k <= |s| && (forall i :: |s| - k <= i < |s| ==> IsSpace(s[i])) && (k < |s| ==> !IsSpace(s[|s| - k - 1]))
    decreases |s|
  {
    if s != [] && IsSpace(s[|s| - 1]) then 1 + TrailingSpaces(s[..|s| - 1]) else 0
  }

  /** Whitespace followed by a non-space character: the run is exactly the whitespace. */
  lemma {:induction false} LeadingSpacesOf(ws: string, x: string)
    requires forall i :: 0 <= i < |ws| ==> IsSpace(ws[i])
    requires x != [] && !IsSpace(x[0])
    ensures LeadingSpaces(ws + x) == |ws|
    decreases |ws|
  {
    if ws != [] {
      assert (ws + x)[1..] == ws[1..] + x;
      LeadingSpacesOf(ws[1..], x);
    }
  }

  /** A non-space character followed by whitespace: the trailing run is exactly the whitespace. */
  lemma {:induction false} TrailingSpacesOf(x: string, ws: string)
    requires forall i :: 0 <= i < |ws| ==> IsSpace(ws[i])
    requires x != [] && !IsSpace(x[|x| - 1])
    ensures TrailingSpaces(x + ws) == |ws|
    decreases |ws|
  {
    if ws != [] {
      assert (x + ws)[..|x + ws| - 1] == x + ws[..|ws| - 1];
      TrailingSpacesOf(x, ws[..|ws| - 1]);
    }
  }

  /** `s.lstrip()`. */
  function LStrip(s: string): string {
    s[LeadingSpaces(s)..]
  }

  /** `s.rstrip()`. */
  function RStrip(s: string): string {
    s[..|s| - TrailingSpaces(s)]
  }

  /** `s.strip()`: the text between the leading and the trailing whitespace. */
  function Strip(s: string): (r: string)
    ensures r == [] || (!IsSpace(r[0]) && !IsSpace(r[|r| - 1]))
    ensures |r| <= |s|
  {
    RStrip(LStrip(s))
  }

  /** `word` is the lower-case keyword `kw` written in any case. */
  predicate CaselessEq(word: string, kw: string) {
    |word| == |kw| && forall i :: 0 <= i < |kw| ==> LowerChar(word[i]) == kw[i]
  }

  /** `s` starts with the lower-case keyword `kw`, ignoring case. */
  predicate CaselessPrefix(s: string, kw: string) {
    |kw| <= |s| && forall i :: 0 <= i < |kw| ==> LowerChar(s[i]) == kw[i]
  }

  /** `\s+<kw>` at the start of `s`, ignoring case: the text after the keyword. */
  function AfterSpacedWord(s: string, kw: string): Option<string> {
    var w := LeadingSpaces(s);
    var t := s[w..];
    if w > 0 && CaselessPrefix(t, kw) then Some(t[|kw|..]) else None
  }

  /** Stripping keeps a prefix that starts and ends with non-whitespace. */
  lemma StripKeepsPrefix(s: string, p: string)
    requires StartsWith(s, p) && p != [] && !IsSpace(p[0]) && !IsSpace(p[|p| - 1])
    ensures StartsWith(Strip(s), p)
  {
    assert LeadingSpaces(s) == 0;
    assert s[0..] == s;
    assert s[|p| - 1] == p[|p| - 1];
    assert TrailingSpaces(s) <= |s| - |p|;
  }

  // ---------------------------------------------------------------------------
  // replace / split / join
  // ---------------------------------------------------------------------------

  /** `s.replace(pat, rep)`: every non-overlapping occurrence, scanning left to right. */
  function Replace(s: string, pat: string, rep: string): (r: string)
    requires pat != []
    decreases |s|
  {
    if |s| < |pat| then s
    else if s[..|pat|] == pat then rep + Replace(s[|pat|..], pat, rep)
    else [s[0]] + Replace(s[1..], pat, rep)
  }

  /** Replacing a pattern that does not occur changes nothing. */
  lemma {:induction false} ReplaceAbsent(s: string, pat: string, rep: string)
    requires pat != [] && !Contains(s, pat)
    ensures Replace(s, pat, rep) == s
    decreases |s|
  {
    if |s| >= |pat| {
      assert s[..|pat|] != pat;
      ReplaceAbsent(s[1..], pat, rep);
    }
  }

  /** A text without some character of a pattern cannot contain the pattern. */
  lemma NoCharNoContains(s: string, sub: string, j: nat)
    requires j < |sub| && sub[j] !in s
    ensures !Contains(s, sub)
  {
    if Contains(s, sub) {
      var k := ContainsWitness(s, sub);
      assert false;
    }
  }

  /** Replacing skips a leading text that does not hold the pattern's first character. */
  lemma {:induction false} ReplaceSkipsPrefix(a: string, rest: string, pat: string, rep: string)
    requires pat != [] && pat[0] !in a
    ensures Replace(a + rest, pat, rep) == a + Replace(rest, pat, rep)
    decreases |a|
  {
    if a == [] {
      assert a + rest == rest;
    } else {
      var s := a + rest;
      assert s[0] == a[0] && s[1..] == a[1..] + rest;
      assert pat[0] !in a[1..] by {
        assert forall x :: x in a[1..] ==> x in a;
      }
      ReplaceSkipsPrefix(a[1..], rest, pat, rep);
      if |s| < |pat| {
        assert Replace(rest, pat, rep) == rest;
        assert Replace(s, pat, rep) == s;
      } else {
        assert s[..|pat|] != pat by {
          assert s[..|pat|][0] == a[0];
        }
        assert Replace(s, pat, rep) == [a[0]] + (a[1..] + Replace(rest, pat, rep));
        assert [a[0]] + (a[1..] + Replace(rest, pat, rep)) == ([a[0]] + a[1..]) + Replace(rest, pat, rep);
        assert [a[0]] + a[1..] == a;
      }
    }
  }

  /** The pattern alone is replaced whole. */
  lemma ReplaceWhole(pat: string, rep: string)
    requires pat != []
    ensures Replace(pat, pat, rep) == rep
  {
    assert pat[..|pat|] == pat && pat[|pat|..] == [];
  }

  /** `sep.join(parts)`. */
  function Join(parts: seq<string>, sep: string): string
    decreases |parts|
  {
    if parts == [] then []
    else if |parts| == 1 then parts[0]
    else parts[0] + sep + Join(parts[1..], sep)
  }

  /** `s.split(sep)` for a one-character separator: always at least one piece. */
  function Split(s: string, sep: char): (r: seq<string>)
    ensures |r| >= 1
    ensures forall i :: 0 <= i < |r| ==> sep !in r[i]
    decreases |s|
  {
    if s == [] then [[]]
    else
      var rest := Split(s[1..], sep);
      if s[0] == sep then [[]] + rest
      else [[s[0]] + rest[0]] + rest[1..]
  }

  /** Splitting then joining with the same separator gives the text back. */
  lemma {:induction false} JoinSplit(s: string, sep: char)
    ensures Join(Split(s, sep), [sep]) == s
    decreases |s|
  {
    if s != [] {
      var rest := Split(s[1..], sep);
      JoinSplit(s[1..], sep);
      if s[0] == sep {
        assert Split(s, sep) == [[]] + rest;
      } else {
        var r := Split(s, sep);
        assert r == [[s[0]] + rest[0]] + rest[1..];
        if |rest| == 1 {
          assert Join(rest, [sep]) == rest[0];
        } else {
          assert r[1..] == rest[1..];
          assert Join(rest, [sep]) == rest[0] + [sep] + Join(rest[1..], [sep]);
        }
      }
    }
  }

  /** Text without the separator splits into itself. */
  lemma {:induction false} SplitNoSep(s: string, sep: char)
    requires sep !in s
    ensures Split(s, sep) == [s]
    decreases |s|
  {
    if s != [] {
      SplitNoSep(s[1..], sep);
      assert [s[0]] + s[1..] == s;
    }
  }

  /** Splitting `a + rest` where `a` has no separator and `rest` starts with one. */
  lemma {:induction false} SplitPrefix(a: string, rest: string, sep: char)
    requires sep !in a && rest != [] && rest[0] == sep
    ensures Split(a + rest, sep) == [a] + Split(rest[1..], sep)
    decreases |a|
  {
    if a == [] {
      assert a + rest == rest;
    } else {
      assert (a + rest)[1..] == a[1..] + rest;
      SplitPrefix(a[1..], rest, sep);
      assert [a[0]] + a[1..] == a;
    }
  }

  /** Splitting distributes over a separator between two texts. */
  lemma {:induction false} SplitConcat(a: string, b: string, sep: char)
    ensures Split(a + [sep] + b, sep) == Split(a, sep) + Split(b, sep)
    decreases |a|
  {
    if a == [] {
      assert a + [sep] + b == [sep] + b;
      assert ([sep] + b)[1..] == b;
    } else {
      var s := a + [sep] + b;
      assert s[0] == a[0] && s[1..] == a[1..] + [sep] + b;
      SplitConcat(a[1..], b, sep);
      var rest := Split(s[1..], sep);
      var ra := Split(a[1..], sep);
      var sb := Split(b, sep);
      if a[0] == sep {
        assert Split(s, sep) == [[]] + rest;
        assert Split(a, sep) == [[]] + ra;
        ConsAppend([], ra, sb);
      } else {
        TailAppend(ra, sb);
        var h := [a[0]] + ra[0];
        assert Split(s, sep) == [h] + rest[1..];
        assert Split(a, sep) == [h] + ra[1..];
        ConsAppend(h, ra[1..], sb);
      }
    }
  }

  lemma ConsAppend<T>(x: T, p: seq<T>, q: seq<T>)
    ensures [x] + (p + q) == [x] + p + q
  {
  }

  lemma AppendAssoc<T>(p: seq<T>, q: seq<T>, r: seq<T>)
    ensures p + q + r == p + (q + r)
  {
  }

  lemma TailAppend<T>(p: seq<T>, q: seq<T>)
    requires p != []
    ensures (p + q)[0] == p[0] && (p + q)[1..] == p[1..] + q
  {
  }

  /** Joining parts that do not contain the separator and splitting again gives the parts back. */
  lemma {:induction false} SplitJoin(parts: seq<string>, sep: char)
    requires parts != [] && forall i :: 0 <= i < |parts| ==> sep !in parts[i]
    ensures Split(Join(parts, [sep]), sep) == parts
    decreases |parts|
  {
    SplitNoSep(parts[0], sep);
    if |parts| > 1 {
      SplitJoin(parts[1..], sep);
      SplitConcat(parts[0], Join(parts[1..], [sep]), sep);
      assert [parts[0]] + parts[1..] == parts;
    }
  }

  /** A join of non-empty parts starts with the first part's first character and ends with the last part's last one. */
  lemma {:induction false} JoinEnds(parts: seq<string>, sep: string)
    requires parts != [] && forall i :: 0 <= i < |parts| ==> parts[i] != []
    ensures Join(parts, sep) != []
    ensures Join(parts, sep)[0] == parts[0][0]
    ensures Join(parts, sep)[|Join(parts, sep)| - 1] == parts[|parts| - 1][|parts[|parts| - 1]| - 1]
    decreases |parts|
  {
    if |parts| > 1 {
      JoinEnds(parts[1..], sep);
    }
  }

  /** Stripping a text with no whitespace at either end followed by a newline removes just the newline. */
  lemma StripNewline(s: string)
    requires s != [] && !IsSpace(s[0]) && !IsSpace(s[|s| - 1])
    ensures Strip(s + "\n") == s
  {
    var t := s + "\n";
    assert LeadingSpaces(t) == 0;
    assert t[0..] == t;
    assert t[..|t| - 1] == s;
    assert TrailingSpaces(t) == 1;
  }

  /** The last piece of `s.split('/')` is the basename. */
  lemma LastPieceIsBasename(s: string)
    ensures Split(s, '/')[|Split(s, '/')| - 1] == Basename(s)
  {
    var b := Basename(s);
    if |b| == |s| {
      assert b == s;
      SplitNoSep(s, '/');
    } else {
      var a := s[..|s| - |b| - 1];
      assert s == a + ['/'] + b;
      SplitConcat(a, b, '/');
      SplitNoSep(b, '/');
    }
  }

  /** A one-character pattern occurs exactly when the character does. */
  lemma {:induction false} ContainsChar(s: string, c: char)
    ensures Contains(s, [c]) <==> c in s
    decreases |s|
  {
    if s != [] {
      ContainsChar(s[1..], c);
      assert c in s <==> s[0] == c || c in s[1..];
    }
  }

  /** Replacing a character that does not occur changes nothing. */
  lemma ReplaceAbsentChar(s: string, c: char, rep: string)
    requires c !in s
    ensures Replace(s, [c], rep) == s
  {
    ContainsChar(s, c);
    ReplaceAbsent(s, [c], rep);
  }

  /** Replacing a one-character pattern works piecewise. */
  lemma {:induction false} ReplaceCharConcat(x: string, y: string, c: char, rep: string)
    ensures Replace(x + y, [c], rep) == Replace(x, [c], rep) + Replace(y, [c], rep)
    decreases |x|
  {
    if x == [] {
      assert x + y == y;
    } else {
      assert (x + y)[..1] == [x[0]] && x[..1] == [x[0]];
      assert (x + y)[1..] == x[1..] + y;
      ReplaceCharConcat(x[1..], y, c, rep);
    }
  }

  /** Length of the leading run of non-whitespace characters. */
  function NonSpaceRun(s: string): (k: nat)
    ensures 0 < |s| && !IsSpace(s[0]) ==> k > 0
    ensures k <= |s| && (forall i :: 0 <= i < k ==> !IsSpace(s[i])) && (k < |s| ==> IsSpace(s[k]))
    decreases |s|
  {
    if s == [] || IsSpace(s[0]) then 0 else 1 + NonSpaceRun(s[1..])
  }

  /** A non-empty word without whitespace. */
  predicate IsWord(w: string) {
    w != [] && forall j :: 0 <= j < |w| ==> !IsSpace(w[j])
  }

  /** `s.split()` with no argument: the maximal runs of non-whitespace. */
  function SplitWs(s: string): (r: seq<string>)
    ensures forall i :: 0 <= i < |r| ==> IsWord(r[i])
    decreases |s|
  {
    if s == [] then []
    else if IsSpace(s[0]) then SplitWs(s[1..])
    else
      var k := NonSpaceRun(s);
      [s[..k]] + SplitWs(s[k..])
  }

  /** Index of the first line-break character, or |s|. */
  function BreakIndex(s: string): (k: nat)
    ensures k <= |s| && (k < |s| ==> IsLineBreak(s[k]))
    ensures forall j :: 0 <= j < k ==> !IsLineBreak(s[j])
    decreases |s|
  {
    if s == [] || IsLineBreak(s[0]) then 0 else 1 + BreakIndex(s[1..])
  }

  /** `s.splitlines()`: "\r\n" ends one line; no empty line after a final break. */
  function SplitLines(s: string): (r: seq<string>)
    ensures forall i :: 0 <= i < |r| ==> forall j :: 0 <= j < |r[i]| ==> !IsLineBreak(r[i][j])
    ensures s == [] <==> r == []
    decreases |s|
  {
    if s == [] then []
    else
      var k := BreakIndex(s);
      if k == |s| then [s]
      else if s[k] == '\r' && k + 1 < |s| && s[k + 1] == '\n' then [s[..k]] + SplitLines(s[k + 2..])
      else [s[..k]] + SplitLines(s[k + 1..])
  }

  // ---------------------------------------------------------------------------
  // Paths
  // ---------------------------------------------------------------------------

  /** `os.path.basename(p)`: the text after the last '/'. */
  function Basename(p: string): (r: string)
    ensures '/' !in r
    ensures |r| <= |p| && r == p[|p| - |r|..]
    ensures |r| < |p| ==> p[|p| - |r| - 1] == '/'
    decreases |p|
  {
    if p == [] || p[|p| - 1] == '/' then []
    else Basename(p[..|p| - 1]) + [p[|p| - 1]]
  }

  /** A name without '/' is its own basename. */
  lemma {:induction false} BasenameOfName(p: string)
    requires '/' !in p
    ensures Basename(p) == p
    decreases |p|
  {
    if p != [] {
      assert p[..|p| - 1] + [p[|p| - 1]] == p;
      BasenameOfName(p[..|p| - 1]);
    }
  }

  /** The basename of `dir + "/" + name` is `name` when `name` has no '/'. */
  lemma {:induction false} BasenameOfJoin(dir: string, name: string)
    requires '/' !in name
    ensures Basename(dir + "/" + name) == name
    decreases |name|
  {
    if name != [] {
      var init := name[..|name| - 1];
      assert (dir + "/" + name)[..|dir + "/" + name| - 1] == dir + "/" + init;
      assert init + [name[|name| - 1]] == name;
      BasenameOfJoin(dir, init);
    }
  }

  /** `os.path.join(a, b)` for two components. */
  function PathJoin(a: string, b: string): (r: string)
    ensures EndsWith(r, b)
  {
    if StartsWith(b, "/") then b
    else if a == [] || EndsWith(a, "/") then a + b
    else a + "/" + b
  }

  // ---------------------------------------------------------------------------
  // Numbers as text
  // ---------------------------------------------------------------------------

  function DigitChar(d: nat): (c: char)
    requires d < 10
    ensures IsDigit(c)
  {
    ('0' as int + d) as char
  }

  function DigitValue(c: char): (d: nat)
    requires IsDigit(c)
    ensures d < 10
  {
    c as int - '0' as int
  }

  /** Length of the leading run of digits: what a greedy `\d+` or `\d*` consumes. */
  function DigitRun(s: string): (k: nat)
    ensures k <= |s| && AllDigits(s[..k]) && (k < |s| ==> !IsDigit(s[k]))
    decreases |s|
  {
    if s == [] || !IsDigit(s[0]) then 0
    else
      var k := 1 + DigitRun(s[1..]);
      assert s[..k] == [s[0]] + s[1..][..k - 1];
      k
  }

  /** A digit run stops exactly where the digits stop. */
  lemma {:induction false} DigitRunOfConcat(d: string, rest: string)
    requires AllDigits(d) && (rest == [] || !IsDigit(rest[0]))
    ensures DigitRun(d + rest) == |d|
    decreases |d|
  {
    if d != [] {
      assert (d + rest)[1..] == d[1..] + rest;
      DigitRunOfConcat(d[1..], rest);
    }
  }

  /** Decimal digits of a natural number, most significant first. */
  function NatToString(n: nat): (s: string)
    ensures IsDigitString(s)
    decreases n
  {
    if n < 10 then [DigitChar(n)] else NatToString(n / 10) + [DigitChar(n % 10)]
  }

  /** `str(n)`. */
  function IntToString(n: int): string {
    if n < 0 then "-" + NatToString(-n) else NatToString(n)
  }

  /** The value of a string of decimal digits. */
  function DigitsValue(s: string): nat
    requires AllDigits(s)
    decreases |s|
  {
    if s == [] then 0 else 10 * DigitsValue(s[..|s| - 1]) + DigitValue(s[|s| - 1])
  }

  lemma {:induction false} DigitsOfNat(n: nat)
    ensures DigitsValue(NatToString(n)) == n
    decreases n
  {
    var s := NatToString(n);
    if n >= 10 {
      DigitsOfNat(n / 10);
      assert s[..|s| - 1] == NatToString(n / 10);
    }
  }

  /**
   * The body of a Python integer literal as `int()` accepts it: digits,
   * optionally separated by single underscores.
   */
  predicate IsUnderscoredDigits(s: string) {
    s != [] && IsDigit(s[0]) && IsDigit(s[|s| - 1])
    && (forall i :: 0 <= i < |s| ==> IsDigit(s[i]) || s[i] == '_')
    && (forall i :: 0 <= i < |s| - 1 && s[i] == '_' ==> s[i + 1] != '_')
  }

  function DropUnderscores(s: string): (r: string)
    requires forall i :: 0 <= i < |s| ==> IsDigit(s[i]) || s[i] == '_'
    ensures AllDigits(r)
    ensures AllDigits(s) ==> r == s
    decreases |s|
  {
    if s == [] then []
    else (if s[0] == '_' then [] else [s[0]]) + DropUnderscores(s[1..])
  }

  /** `int(s)`: `None` where Python raises ValueError. */
  function ParseInt(s: string): (r: Option<int>)
    ensures r.Some? ==> Strip(s) != []
  {
    var t := Strip(s);
    var neg := t != [] && t[0] == '-';
    var body := if t != [] && (t[0] == '-' || t[0] == '+') then t[1..] else t;
    if IsUnderscoredDigits(body) then
      var v: int := DigitsValue(DropUnderscores(body));
      Some(if neg then -v else v)
    else None
  }

  /** Text with no whitespace at either end is its own `strip()`. */
  lemma StripUnchanged(s: string)
    requires s != [] && !IsSpace(s[0]) && !IsSpace(s[|s| - 1])
    ensures Strip(s) == s
  {
    assert LeadingSpaces(s) == 0;
    assert s[0..] == s;
    assert TrailingSpaces(s) == 0;
  }

  /** Plain digits are a valid `int()` body whose underscores-free form is itself. */
  lemma DigitsAreIntBody(body: string)
    requires IsDigitString(body)
    ensures IsUnderscoredDigits(body) && DropUnderscores(body) == body
  {
  }

  /** `int()` of plain digits is their value. */
  lemma ParseDigits(t: string)
    requires IsDigitString(t)
    ensures ParseInt(t) == Some(DigitsValue(t))
  {
    StripUnchanged(t);
    DigitsAreIntBody(t);
    assert t[0] != '-' && t[0] != '+';
  }

  /** `int(str(n)) == n`. */
  lemma IntToStringRoundTrip(n: int)
    ensures ParseInt(IntToString(n)) == Some(n)
  {
    var s := IntToString(n);
    var m: nat := if n < 0 then -n else n;
    var body := NatToString(m);
    assert IsDigit(body[0]) && IsDigit(body[|body| - 1]);
    StripUnchanged(s);
    DigitsAreIntBody(body);
    DigitsOfNat(m);
    if n < 0 {
      assert s[0] == '-' && s[1..] == body;
    } else {
      assert s[0] != '-' && s[0] != '+';
    }
  }

  /** A decimal numeral as `float()` accepts it, without exponent: `[+-]digits[.digits]`, `.digits` or `digits.`. */
  predicate IsDecimal(s: string) {
    var k := DotIndex(s);
    AllDigits(s[..k]) && (k < |s| ==> AllDigits(s[k + 1..])) && |s| - (if k < |s| then 1 else 0) > 0
  }

  /** Index of the first '.', or |s|. */
  function DotIndex(s: string): (k: nat)
    ensures k <= |s| && (k < |s| ==> s[k] == '.') && '.' !in s[..k]
    decreases |s|
  {
    if s == [] || s[0] == '.' then 0 else 1 + DotIndex(s[1..])
  }

  function Pow10(n: nat): (p: nat)
    ensures p >= 1
  {
    if n == 0 then 1 else 10 * Pow10(n - 1)
  }

  /** The value of decimal text accepted by `IsDecimal`. */
  function DecimalValue(body: string): real
    requires IsDecimal(body)
  {
    var k := DotIndex(body);
    var frac := if k < |body| then body[k + 1..] else [];
    DigitsValue(body[..k]) as real + (DigitsValue(frac) as real) / (Pow10(|frac|) as real)
  }

  /** `float(s)` on decimal text; `None` where the model does not accept the text. */
  function ParseFloat(s: string): (r: Option<real>)
  {
    var t := Strip(s);
    var neg := t != [] && t[0] == '-';
    var body := if t != [] && (t[0] == '-' || t[0] == '+') then t[1..] else t;
    if IsDecimal(body) then
      var v := DecimalValue(body);
      Some(if neg then -v else v)
    else None
  }

  /** `int(x)` for a finite float: truncation toward zero. */
  function Trunc(x: real): (r: int)
    ensures 0.0 <= x ==> 0 <= r && r as real <= x < r as real + 1.0
    ensures x < 0.0 ==> r <= 0 && r as real - 1.0 < x <= r as real
  {
    if x >= 0.0 then x.Floor else -((-x).Floor)
  }

  /** Plain digits are decimal text whose value is their integer value. */
  lemma DecimalOfDigits(s: string)
    requires IsDigitString(s)
    ensures IsDecimal(s) && DecimalValue(s) == DigitsValue(s) as real
  {
    var k := DotIndex(s);
    assert k == |s|;
    assert s[..k] == s;
  }

  /** Unsigned decimal text that starts and ends with a digit converts to its value, which is not negative. */
  lemma ParseFloatUnsigned(s: string)
    requires s != [] && IsDecimal(s) && IsDigit(s[0]) && IsDigit(s[|s| - 1])
    ensures ParseFloat(s) == Some(DecimalValue(s)) && DecimalValue(s) >= 0.0
  {
    StripUnchanged(s);
    assert s[0] != '-' && s[0] != '+';
  }

  /** `float(str(n)) == n` for a natural number. */
  lemma ParseFloatOfNat(n: nat)
    ensures ParseFloat(NatToString(n)) == Some(n as real)
  {
    var s := NatToString(n);
    assert IsDigit(s[0]) && IsDigit(s[|s| - 1]);
    DecimalOfDigits(s);
    ParseFloatUnsigned(s);
    DigitsOfNat(n);
  }

  // ---------------------------------------------------------------------------
  // Ordering, as Python compares strings, and sorted(set(...))
  // ---------------------------------------------------------------------------

  /** `a < b` on Python strings: code-point lexicographic order. */
  predicate StrLess(a: string, b: string)
    decreases |a|
  {
    if a == [] then b != []
    else if b == [] then false
    else if a[0] != b[0] then a[0] < b[0]
    else StrLess(a[1..], b[1..])
  }

  lemma {:induction false} StrLessIrreflexive(a: string)
    ensures !StrLess(a, a)
    decreases |a|
  {
    if a != [] { StrLessIrreflexive(a[1..]); }
  }

  lemma {:induction false} StrLessTransitive(a: string, b: string, c: string)
    requires StrLess(a, b) && StrLess(b, c)
    ensures StrLess(a, c)
    decreases |a|
  {
    if a != [] && b != [] && c != [] && a[0] == b[0] && b[0] == c[0] {
      StrLessTransitive(a[1..], b[1..], c[1..]);
    }
  }

  lemma {:induction false} StrLessTotal(a: string, b: string)
    requires a != b
    ensures StrLess(a, b) || StrLess(b, a)
    decreases |a|
  {
    if a != [] && b != [] && a[0] == b[0] {
      assert a == [a[0]] + a[1..] && b == [b[0]] + b[1..];
      StrLessTotal(a[1..], b[1..]);
    }
  }

  /** Strictly increasing, hence duplicate-free. */
  predicate StrictlySorted(s: seq<string>) {
    forall i, j :: 0 <= i < j < |s| ==> StrLess(s[i], s[j])
  }

  function InsertSorted(x: string, s: seq<string>): (r: seq<string>)
    requires StrictlySorted(s)
    ensures StrictlySorted(r)
    ensures forall e :: e in r <==> e in s || e == x
    decreases |s|
  {
    if s == [] then [x]
    else if x == s[0] then s
    else if StrLess(x, s[0]) then
      assert forall j :: 0 <= j < |s| ==> StrLess(x, s[j]) by {
        forall j | 0 <= j < |s| ensures StrLess(x, s[j]) {
          if j > 0 { StrLessTransitive(x, s[0], s[j]); }
        }
      }
      [x] + s
    else
      StrLessTotal(x, s[0]);
      var rest := InsertSorted(x, s[1..]);
      assert forall e :: e in rest ==> StrLess(s[0], e) by {
        forall e | e in rest ensures StrLess(s[0], e) {
          if e != x {
            var k :| 0 <= k < |s[1..]| && s[1..][k] == e;
            assert s[k + 1] == e;
          }
        }
      }
      assert forall e :: e in s <==> e == s[0] || e in s[1..] by {
        assert s == [s[0]] + s[1..];
      }
      [s[0]] + rest
  }

  /** `sorted(set(xs))`. */
  function SortedSet(xs: seq<string>): (r: seq<string>)
    ensures StrictlySorted(r)
    ensures forall e :: e in r <==> e in xs
    decreases |xs|
  {
    if xs == [] then []
    else
      var init := xs[..|xs| - 1];
      assert xs == init + [xs[|xs| - 1]];
      InsertSorted(xs[|xs| - 1], SortedSet(init))
  }

  /** Adding one more element to a sorted set inserts it. */
  lemma SortedSetStep(xs: seq<string>, x: string)
    ensures SortedSet(xs + [x]) == InsertSorted(x, SortedSet(xs))
  {
    assert (xs + [x])[..|xs|] == xs;
  }

  /** In a strictly sorted sequence the first element is below every later one. */
  lemma HeadIsLeast(a: seq<string>, e: string)
    requires StrictlySorted(a) && a != [] && e in a && e != a[0]
    ensures StrLess(a[0], e) && e in a[1..]
  {
    var i :| 0 <= i < |a| && a[i] == e;
    assert a[1..][i - 1] == e;
  }

  lemma EmptyIffEmpty(a: seq<string>, b: seq<string>)
    requires forall e :: e in a <==> e in b
    ensures a == [] <==> b == []
  {
    if a != [] { assert a[0] in b; }
    if b != [] { assert b[0] in a; }
  }

  /** A strictly sorted sequence is determined by its elements. */
  lemma {:induction false} SortedUnique(a: seq<string>, b: seq<string>)
    requires StrictlySorted(a) && StrictlySorted(b)
    requires forall e :: e in a <==> e in b
    ensures a == b
    decreases |a|
  {
    EmptyIffEmpty(a, b);
    if a != [] {
      assert a[0] in b && b[0] in a;
      if a[0] != b[0] {
        HeadIsLeast(a, b[0]);
        HeadIsLeast(b, a[0]);
        StrLessTransitive(a[0], b[0], a[0]);
        StrLessIrreflexive(a[0]);
        assert false;
      }
      forall e ensures e in a[1..] <==> e in b[1..] {
        if e in a[1..] {
          var i :| 0 <= i < |a[1..]| && a[1..][i] == e;
          assert a[i + 1] == e && StrLess(a[0], e);
          if e == a[0] { StrLessIrreflexive(e); }
          HeadIsLeast(b, e);
        }
        if e in b[1..] {
          var i :| 0 <= i < |b[1..]| && b[1..][i] == e;
          assert b[i + 1] == e && StrLess(b[0], e);
          if e == b[0] { StrLessIrreflexive(e); }
          HeadIsLeast(a, e);
        }
      }
      SortedUnique(a[1..], b[1..]);
    }
  }

  // ---------------------------------------------------------------------------
  // Arithmetic on the way to text
  // ---------------------------------------------------------------------------

  /** `int(a / b)`: the quotient rounded toward zero, as Python's `int()` does with a float. */
  function TruncDiv(a: int, b: int): (q: int)
    requires b != 0
    ensures a >= 0 && b > 0 ==> q * b <= a < (q + 1) * b
    ensures a <= 0 && b > 0 ==> q <= 0
  {
    var n := if a < 0 then -a else a;
    var d := if b < 0 then -b else b;
    if (a < 0) == (b < 0) then n / d else -(n / d)
  }

  /** `c * n`: `n` copies of the character, none when `n` is not positive. */
  function Repeat(c: char, n: int): (r: string)
    ensures |r| == if n > 0 then n else 0
    ensures forall i :: 0 <= i < |r| ==> r[i] == c
  {
    if n <= 0 then [] else seq(n, _ => c)
  }

  // ---------------------------------------------------------------------------
  // The last piece after a separator
  // ---------------------------------------------------------------------------

  /** The first index at which `c` occurs, or |s|. */
  function CharIndex(s: string, c: char): (k: nat)
    ensures k <= |s| && (k < |s| ==> s[k] == c)
    ensures forall j :: 0 <= j < k ==> s[j] != c
    decreases |s|
  {
    if s == [] || s[0] == c then 0 else 1 + CharIndex(s[1..], c)
  }

  /** `sep` occurs in `s` starting at index `j`. */
  predicate SepAt(s: string, sep: string, j: int) {
    0 <= j && j + |sep| <= |s| && s[j..j + |sep|] == sep
  }

  /**
   * Where the last piece of `s.split(sep)` starts, scanning as `split` does:
   * the current piece began at `start`, and the scan is at `pos`; a separator
   * found at `pos` ends the piece and the scan resumes after it.
   */
  function LastPieceStart(s: string, sep: string, start: nat, pos: nat): (k: nat)
    requires sep != [] && start <= pos <= |s|
    ensures start <= k <= |s|
    decreases |s| - pos
  {
    if pos + |sep| > |s| then start
    else if SepAt(s, sep, pos) then LastPieceStart(s, sep, pos + |sep|, pos + |sep|)
    else LastPieceStart(s, sep, start, pos + 1)
  }

  /** `s.split(sep)[-1]`. */
  function AfterLast(s: string, sep: string): string
    requires sep != []
  {
    s[LastPieceStart(s, sep, 0, 0)..]
  }

  /** The last piece starts at the beginning of `s` or right after a separator. */
  lemma {:induction false} LastPieceStartAfterSep(s: string, sep: string, start: nat, pos: nat)
    requires sep != [] && start <= pos <= |s|
    requires start == 0 || SepAt(s, sep, start - |sep|)
    ensures var k := LastPieceStart(s, sep, start, pos);
      k == 0 || SepAt(s, sep, k - |sep|)
    decreases |s| - pos
  {
    if pos + |sep| > |s| {
    } else if SepAt(s, sep, pos) {
      assert (pos + |sep|) - |sep| == pos;
      LastPieceStartAfterSep(s, sep, pos + |sep|, pos + |sep|);
    } else {
      LastPieceStartAfterSep(s, sep, start, pos + 1);
    }
  }

  /** No separator starts at or after where the last piece starts. */
  lemma {:induction false} LastPieceStartNoSep(s: string, sep: string, start: nat, pos: nat)
    requires sep != [] && start <= pos <= |s|
    requires forall j :: start <= j < pos ==> !SepAt(s, sep, j)
    ensures var k := LastPieceStart(s, sep, start, pos);
      forall j :: k <= j ==> !SepAt(s, sep, j)
    decreases |s| - pos
  {
    if pos + |sep| > |s| {
      NoSepAtEnd(s, sep, pos);
    } else if SepAt(s, sep, pos) {
      LastPieceStartNoSep(s, sep, pos + |sep|, pos + |sep|);
    } else {
      LastPieceStartNoSep(s, sep, start, pos + 1);
    }
  }

  /** No separator fits in the last `|sep| - 1` characters. */
  lemma NoSepAtEnd(s: string, sep: string, pos: nat)
    requires pos + |sep| > |s|
    ensures forall j :: pos <= j ==> !SepAt(s, sep, j)
  {
  }

  /**
   * The last piece is the suffix after the last separator: it holds no
   * separator, a separator ends right before it unless it is all of `s`, and
   * it is all of `s` exactly when `s` holds no separator.
   */
  lemma AfterLastSpec(s: string, sep: string)
    requires sep != []
    ensures var r := AfterLast(s, sep);
      |r| <= |s| && r == s[|s| - |r|..]
      && (forall j :: 0 <= j ==> !SepAt(r, sep, j))
      && (|r| < |s| ==> SepAt(s, sep, |s| - |r| - |sep|))
      && (|r| == |s| <==> forall j :: 0 <= j ==> !SepAt(s, sep, j))
  {
    LastPieceStartAfterSep(s, sep, 0, 0);
    LastPieceStartNoSep(s, sep, 0, 0);
    var k := LastPieceStart(s, sep, 0, 0);
    SuffixNoSep(s, sep, k);
    if k == 0 {
      assert s[k..] == s;
    }
  }

  /** A suffix that starts past every separator holds none. */
  lemma SuffixNoSep(s: string, sep: string, k: nat)
    requires k <= |s| && forall j :: k <= j ==> !SepAt(s, sep, j)
    ensures forall j :: 0 <= j ==> !SepAt(s[k..], sep, j)
  {
    var r := s[k..];
    forall j | 0 <= j
      ensures !SepAt(r, sep, j)
    {
      if j + |sep| <= |r| {
        assert s[k + j..k + j + |sep|] == r[j..j + |sep|];
        assert !SepAt(s, sep, k + j);
      }
    }
  }

  // ---------------------------------------------------------------------------
  // Shell quoting
  // ---------------------------------------------------------------------------

  /** The characters `shlex.quote` leaves bare: ASCII word characters and `@%+=:,./-`. */
  predicate ShlexSafe(c: char) {
    IsWordChar(c) || c == '@' || c == '%' || c == '+' || c == '=' || c == ':' || c == ',' || c == '.' || c == '/' || c == '-'
  }

  /** What a single quote becomes inside a single-quoted word: close, a quoted quote, reopen. */
  const QuotedQuote: string := "'\"'\"'"

  /** `shlex.quote(s)`. */
  function ShlexQuote(s: string): string {
    if s == [] then "''"
    else if forall i :: 0 <= i < |s| ==> ShlexSafe(s[i]) then s
    else "'" + Replace(s, "'", QuotedQuote) + "'"
  }

  /** `Replace(s, "'", QuotedQuote)`, one character at a time. */
  function EscapeQuotes(s: string): string
    decreases |s|
  {
    if s == [] then [] else (if s[0] == '\'' then QuotedQuote else [s[0]]) + EscapeQuotes(s[1..])
  }

  lemma {:induction false} EscapeIsReplace(s: string)
    ensures Replace(s, "'", QuotedQuote) == EscapeQuotes(s)
    decreases |s|
  {
    if s != [] {
      EscapeIsReplace(s[1..]);
      assert s[..1] == "'" <==> s[0] == '\'';
    }
  }

  lemma {:induction false} EscapeConcat(a: string, b: string)
    ensures EscapeQuotes(a + b) == EscapeQuotes(a) + EscapeQuotes(b)
    decreases |a|
  {
    if a == [] {
      assert a + b == b;
    } else {
      assert (a + b)[1..] == a[1..] + b;
      EscapeConcat(a[1..], b);
    }
  }

  lemma {:induction false} EscapeNoQuote(a: string)
    requires '\'' !in a
    ensures EscapeQuotes(a) == a
    decreases |a|
  {
    if a != [] {
      EscapeNoQuote(a[1..]);
    }
  }

  /**
   * POSIX quote removal for a word whose unquoted and double-quoted parts hold
   * no `\`, `$` or backquote: single- and double-quoted parts lose their
   * quotes, everything else stays.
   */
  function Dequote(w: string): string
    decreases |w|
  {
    if w == [] then []
    else if w[0] == '\'' || w[0] == '"' then
      var j := CharIndex(w[1..], w[0]);
      w[1..1 + j] + (if 1 + j < |w| then Dequote(w[2 + j..]) else [])
    else [w[0]] + Dequote(w[1..])
  }

  /** The first occurrence pinned down by its position. */
  lemma CharIndexAt(s: string, c: char, k: nat)
    requires k <= |s| && (k < |s| ==> s[k] == c) && forall j :: 0 <= j < k ==> s[j] != c
    ensures CharIndex(s, c) == k
  {
  }

  /** A single-quoted part without quotes inside loses its quotes. */
  lemma DequoteSingle(a: string, rest: string)
    requires '\'' !in a
    ensures Dequote("'" + a + "'" + rest) == a + Dequote(rest)
  {
    var w := "'" + a + "'" + rest;
    assert w[1..] == a + ("'" + rest);
    forall j | 0 <= j < |a| ensures w[1..][j] != '\'' {
      assert w[1..][j] == a[j];
    }
    CharIndexAt(w[1..], '\'', |a|);
    assert w[1..1 + |a|] == a;
    assert w[2 + |a|..] == rest;
  }

  /** The double-quoted quote between two single-quoted parts stands for a quote. */
  lemma DequoteQuotedQuote(rest: string)
    ensures Dequote("\"'\"" + rest) == "'" + Dequote(rest)
  {
    var t := "\"'\"" + rest;
    assert t[1..] == "'\"" + rest;
    CharIndexAt(t[1..], '"', 1);
    assert t[1..2] == "'";
    assert t[3..] == rest;
  }

  /** Escaping up to the first quote keeps the text and turns that quote into `QuotedQuote`. */
  lemma EscapeFirstQuote(a: string, b: string)
    requires '\'' !in a
    ensures EscapeQuotes(a + "'" + b) == a + QuotedQuote + EscapeQuotes(b)
  {
    EscapeNoQuote(a);
    EscapeConcat(a, "'" + b);
    EscapeConcat("'", b);
    assert EscapeQuotes("'") == QuotedQuote;
    assert a + "'" + b == a + ("'" + b);
  }

  /** The quoted word around an escaped quote, regrouped as the shell reads it. */
  lemma RegroupQuotedQuote(a: string, e: string)
    ensures "'" + (a + QuotedQuote + e) + "'" == "'" + a + "'" + ("\"'\"" + ("'" + e + "'"))
  {
    assert QuotedQuote == "'" + "\"'\"" + "'";
  }

  /** A single-quoted word whose quotes were escaped comes back as the text itself. */
  lemma {:induction false} DequoteEscaped(s: string)
    ensures Dequote("'" + EscapeQuotes(s) + "'") == s
    decreases |s|
  {
    var k := CharIndex(s, '\'');
    var a := s[..k];
    assert '\'' !in a;
    if k == |s| {
      calc {
        Dequote("'" + EscapeQuotes(s) + "'");
        { EscapeNoQuote(s); assert "'" + s + "'" == "'" + s + "'" + []; }
        Dequote("'" + s + "'" + []);
        { DequoteSingle(s, []); }
        s;
      }
    } else {
      var b := s[k + 1..];
      var rest := "'" + EscapeQuotes(b) + "'";
      calc {
        Dequote("'" + EscapeQuotes(s) + "'");
        { assert s == a + "'" + b; EscapeFirstQuote(a, b); }
        Dequote("'" + (a + QuotedQuote + EscapeQuotes(b)) + "'");
        { RegroupQuotedQuote(a, EscapeQuotes(b)); }
        Dequote("'" + a + "'" + ("\"'\"" + rest));
        { DequoteSingle(a, "\"'\"" + rest); }
        a + Dequote("\"'\"" + rest);
        { DequoteQuotedQuote(rest); DequoteEscaped(b); }
        a + ("'" + b);
        { assert s == a + ("'" + b); }
        s;
      }
    }
  }

  /** The shell reads a `shlex.quote`d word back as the original text. */
  lemma ShlexRoundTrip(s: string)
    ensures Dequote(ShlexQuote(s)) == s
  {
    if s == [] {
      assert Dequote("''") == [];
    } else if forall i :: 0 <= i < |s| ==> ShlexSafe(s[i]) {
      DequoteBare(s);
    } else {
      EscapeIsReplace(s);
      DequoteEscaped(s);
    }
  }

  lemma {:induction false} DequoteBare(s: string)
    requires forall i :: 0 <= i < |s| ==> ShlexSafe(s[i])
    ensures Dequote(s) == s
    decreases |s|
  {
    if s != [] {
      DequoteBare(s[1..]);
    }
  }
}
