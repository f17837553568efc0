/** Python `str` built-ins the pipeline scripts rely on, over `string`
    (`seq<char>`). Each function follows CPython's documented behaviour for the
    cases the scripts exercise; case mapping is ASCII-only. */
module PyStr {
  import opened Results

  /** The characters for which `str.isspace()` holds. */
  const Whitespace: set<char> := {
    ' ', '\t', '\n', '\U{b}', '\U{c}', '\r', '\U{1c}', '\U{1d}', '\U{1e}', '\U{1f}', '\U{85}', '\U{a0}',
    '\U{1680}', '\U{2000}', '\U{2001}', '\U{2002}', '\U{2003}', '\U{2004}', '\U{2005}', '\U{2006}',
    '\U{2007}', '\U{2008}', '\U{2009}', '\U{200a}', '\U{2028}', '\U{2029}', '\U{202f}', '\U{205f}', '\U{3000}'
  }

  predicate IsSpace(c: char) {
    c in Whitespace
  }

  /** No printable ASCII character is whitespace. */
  lemma PrintableNotSpace(c: char)
    requires '!' <= c <= '~'
    ensures !IsSpace(c)
  {
  }

  /** The line boundaries `str.splitlines()` recognises (`\r\n` counts once). */
  predicate IsLineBreak(c: char) {
    c == '\n' || c == '\r' || c == '\U{b}' || c == '\U{c}' || ('\U{1c}' <= c <= '\U{1e}')
    || c == '\U{85}' || c == '\U{2028}' || c == '\U{2029}'
  }

  predicate IsDigit(c: char) { '0' <= c <= '9' }

  predicate IsAsciiLower(c: char) { 'a' <= c <= 'z' }

  predicate AllDigits(s: string) { forall i :: 0 <= i < |s| ==> IsDigit(s[i]) }

  /** `not s.strip()`: empty or whitespace only. */
  predicate IsBlank(s: string) { forall i :: 0 <= i < |s| ==> IsSpace(s[i]) }

  // ---------------------------------------------------------------- stripping

  function LStripWith(s: string, drop: set<char>): (r: string)
    ensures |r| <= |s|
    ensures |r| > 0 ==> r[0] !in drop
    ensures forall i :: 0 <= i < |s| - |r| ==> s[i] in drop
    decreases |s|
  {
    if |s| > 0 && s[0] in drop then LStripWith(s[1..], drop) else s
  }

  function RStripWith(s: string, drop: set<char>): (r: string)
    ensures |r| <= |s|
    ensures |r| > 0 ==> r[|r| - 1] !in drop
    ensures forall i :: |r| <= i < |s| ==> s[i] in drop
    decreases |s|
  {
    if |s| > 0 && s[|s| - 1] in drop then RStripWith(s[..|s| - 1], drop) else s
  }

  /** Removes the longest prefix and suffix of characters in `drop`. */
  function StripWith(s: string, drop: set<char>): (r: string)
    ensures |r| <= |s|
    ensures |r| > 0 ==> r[0] !in drop && r[|r| - 1] !in drop
    ensures |r| == 0 <==> forall i :: 0 <= i < |s| ==> s[i] in drop
  {
    LStripSuffix(s, drop);
    RStripPrefix(LStripWith(s, drop), drop);
    RStripWith(LStripWith(s, drop), drop)
  }

  lemma {:induction false} LStripSuffix(s: string, drop: set<char>)
    ensures LStripWith(s, drop) == s[|s| - |LStripWith(s, drop)|..]
    decreases |s|
  {
    if |s| > 0 && s[0] in drop {
      LStripSuffix(s[1..], drop);
    }
  }

  lemma {:induction false} RStripPrefix(s: string, drop: set<char>)
    ensures RStripWith(s, drop) == s[..|RStripWith(s, drop)|]
    decreases |s|
  {
    if |s| > 0 && s[|s| - 1] in drop {
      RStripPrefix(s[..|s| - 1], drop);
    }
  }

  /** Where the stripped string starts in the original. */
  function StripStart(s: string, drop: set<char>): nat {
    |s| - |LStripWith(s, drop)|
  }

  /** What `StripWith` keeps is a contiguous piece of its input. */
  lemma StripWithIsSlice(s: string, drop: set<char>)
    ensures StripStart(s, drop) + |StripWith(s, drop)| <= |s|
    ensures StripWith(s, drop) == s[StripStart(s, drop)..StripStart(s, drop) + |StripWith(s, drop)|]
  {
    var l := LStripWith(s, drop);
    LStripSuffix(s, drop);
    RStripPrefix(l, drop);
    var a := StripStart(s, drop);
    var r := StripWith(s, drop);
    assert r == l[..|r|];
    assert l == s[a..];
  }

  /** `s.strip()` */
  function Strip(s: string): (r: string)
    ensures |r| <= |s|
    ensures |r| > 0 ==> !IsSpace(r[0]) && !IsSpace(r[|r| - 1])
    ensures |r| == 0 <==> IsBlank(s)
  {
    StripWith(s, Whitespace)
  }

  /** `s.strip(chars)` for an explicit character set. */
  function StripChars(s: string, chars: set<char>): (r: string)
    ensures |r| <= |s|
    ensures |r| > 0 ==> r[0] !in chars && r[|r| - 1] !in chars
  {
    StripWith(s, chars)
  }

  lemma StripWithFixed(s: string, drop: set<char>)
    requires |s| > 0 ==> s[0] !in drop && s[|s| - 1] !in drop
    ensures StripWith(s, drop) == s
  {
  }

  /** Text that neither starts nor ends with whitespace is its own strip. */
  lemma StripPlain(s: string)
    requires |s| > 0 ==> !IsSpace(s[0]) && !IsSpace(s[|s| - 1])
    ensures Strip(s) == s
  {
    StripWithFixed(s, Whitespace);
  }

  /** A space in front of unpadded text is stripped away. */
  lemma StripSpacePrefix(s: string)
    requires |s| > 0 ==> !IsSpace(s[0]) && !IsSpace(s[|s| - 1])
    ensures Strip(" " + s) == s
  {
    assert (" " + s)[1..] == s;
    assert LStripWith(" " + s, Whitespace) == LStripWith(s, Whitespace) == s;
  }

  /** Stripping adds no character. */
  lemma StripSubset(s: string)
    ensures forall c :: c in Strip(s) ==> c in s
  {
    StripWithIsSlice(s, Whitespace);
  }

  /** Stripping twice is stripping once. */
  lemma StripIdempotent(s: string)
    ensures Strip(Strip(s)) == Strip(s)
  {
    StripPlain(Strip(s));
  }

  // ---------------------------------------------------------------- case

  function LowerChar(c: char): char {
    if 'A' <= c <= 'Z' then (c as int + 32) as char else c
  }

  /** `s.lower()` restricted to the ASCII letters. */
  function Lower(s: string): (r: string)
    ensures |r| == |s|
    ensures forall i :: 0 <= i < |s| ==> r[i] == LowerChar(s[i])
  {
    seq(|s|, i requires 0 <= i < |s| => LowerChar(s[i]))
  }

  // ---------------------------------------------------------------- search

  predicate StartsWith(s: string, prefix: string) {
    |prefix| <= |s| && s[..|prefix|] == prefix
  }

  predicate EndsWith(s: string, suffix: string) {
    |suffix| <= |s| && s[|s| - |suffix|..] == suffix
  }

  /** `needle in s` for strings: some position of `s` starts with `needle`. */
  predicate Contains(s: string, needle: string)
    decreases |s|
  {
    StartsWith(s, needle) || (|s| > 0 && Contains(s[1..], needle))
  }

  lemma ContainsAt(s: string, needle: string, k: nat)
    requires k + |needle| <= |s| && s[k..k + |needle|] == needle
    ensures Contains(s, needle)
    decreases k
  {
    if k > 0 {
      assert s[1..][k - 1..k - 1 + |needle|] == s[k..k + |needle|];
      ContainsAt(s[1..], needle, k - 1);
    }
  }

  /** A position where a contained needle starts. */
  lemma {:induction false} ContainsIndex(s: string, needle: string) returns (k: nat)
    requires Contains(s, needle)
    ensures k + |needle| <= |s| && s[k..k + |needle|] == needle
    decreases |s|
  {
    if StartsWith(s, needle) {
      k := 0;
    } else {
      var j := ContainsIndex(s[1..], needle);
      k := j + 1;
      assert s[1..][j..j + |needle|] == s[k..k + |needle|];
    }
  }

  /** Text containing the needle still contains it behind a prefix. */
  lemma ContainsAfter(a: string, b: string, needle: string)
    requires Contains(b, needle)
    ensures Contains(a + b, needle)
  {
    var k := ContainsIndex(b, needle);
    assert (a + b)[|a| + k..|a| + k + |needle|] == b[k..k + |needle|];
    ContainsAt(a + b, needle, |a| + k);
  }

  /** The first index holding `c`, as `str.find` would report it. */
  function IndexOf(s: string, c: char): (r: Option<nat>)
    ensures r.None? ==> c !in s
    ensures r.Some? ==> r.value < |s| && s[r.value] == c && c !in s[..r.value]
    decreases |s|
  {
    if |s| == 0 then None
    else if s[0] == c then Some(0)
    else
      match IndexOf(s[1..], c)
      case None => None
      case Some(k) =>
        assert s[..k + 1] == [s[0]] + s[1..][..k];
        Some(k + 1)
  }

  // ---------------------------------------------------------------- split / join

  /** `sep.join(parts)` */
  function Join(parts: seq<string>, sep: string): string {
    if |parts| == 0 then ""
    else if |parts| == 1 then parts[0]
    else parts[0] + sep + Join(parts[1..], sep)
  }

  lemma JoinCons(first: string, rest: seq<string>, sep: string)
    requires |rest| >= 1
    ensures Join([first] + rest, sep) == first + sep + Join(rest, sep)
  {
    assert ([first] + rest)[1..] == rest;
  }

  /** A join starts with the first part's first character. */
  lemma JoinFirst(parts: seq<string>, sep: string)
    requires |parts| > 0 && |parts[0]| > 0
    ensures |Join(parts, sep)| > 0 && Join(parts, sep)[0] == parts[0][0]
  {
  }

  /** A join ends with the last part's last character. */
  lemma {:induction false} JoinLast(parts: seq<string>, sep: string)
    requires |parts| > 0 && |parts[|parts| - 1]| > 0
    ensures |Join(parts, sep)| > 0
    ensures Join(parts, sep)[|Join(parts, sep)| - 1] == parts[|parts| - 1][|parts[|parts| - 1]| - 1]
    decreases |parts|
  {
    if |parts| > 1 {
      JoinLast(parts[1..], sep);
    }
  }

  /** `s.split(sep)` for a one-character separator. */
  function Split(s: string, sep: char): (parts: seq<string>)
    ensures |parts| >= 1
    ensures forall i :: 0 <= i < |parts| ==> sep !in parts[i]
    decreases |s|
  {
    match IndexOf(s, sep)
    case None => [s]
    case Some(k) => [s[..k]] + Split(s[k + 1..], sep)
  }

  /** `s.split(sep, maxsplit)`: at most `maxsplit` cuts, from the left. */
  function SplitN(s: string, sep: char, maxsplit: nat): (parts: seq<string>)
    ensures 1 <= |parts| <= maxsplit + 1
    ensures forall i :: 0 <= i < |parts| - 1 ==> sep !in parts[i]
    ensures |parts| <= maxsplit ==> sep !in parts[|parts| - 1]
    decreases maxsplit
  {
    if maxsplit == 0 then [s]
    else
      match IndexOf(s, sep)
      case None => [s]
      case Some(k) => [s[..k]] + SplitN(s[k + 1..], sep, maxsplit - 1)
  }

  /** Joining the pieces of a split with the separator gives back the input. */
  lemma {:induction false} SplitJoin(s: string, sep: char)
    ensures Join(Split(s, sep), [sep]) == s
    decreases |s|
  {
    match IndexOf(s, sep)
    case None =>
    case Some(k) =>
      SplitJoin(s[k + 1..], sep);
      JoinCons(s[..k], Split(s[k + 1..], sep), [sep]);
      CutAt(s, k);
  }

  lemma {:induction false} SplitNJoin(s: string, sep: char, maxsplit: nat)
    ensures Join(SplitN(s, sep, maxsplit), [sep]) == s
    decreases maxsplit
  {
    if maxsplit > 0 && IndexOf(s, sep).Some? {
      var k := IndexOf(s, sep).value;
      SplitNJoin(s[k + 1..], sep, maxsplit - 1);
      SplitNStep(s, sep, maxsplit, k);
    }
  }

  lemma SplitNStep(s: string, sep: char, maxsplit: nat, k: nat)
    requires maxsplit > 0 && IndexOf(s, sep) == Some(k)
    requires Join(SplitN(s[k + 1..], sep, maxsplit - 1), [sep]) == s[k + 1..]
    ensures Join(SplitN(s, sep, maxsplit), [sep]) == s
  {
    var rest := SplitN(s[k + 1..], sep, maxsplit - 1);
    assert SplitN(s, sep, maxsplit) == [s[..k]] + rest;
    JoinCons(s[..k], rest, [sep]);
    assert Join([s[..k]] + rest, [sep]) == s[..k] + [sep] + s[k + 1..];
    CutAt(s, k);
  }

  /** A string is the part before position `k`, the character there, and the rest. */
  lemma CutAt(s: string, k: nat)
    requires k < |s|
    ensures s == s[..k] + [s[k]] + s[k + 1..]
  {
  }

  /** Splitting a join of separator-free parts gives the parts back. */
  lemma {:induction false} SplitOfJoin(parts: seq<string>, sep: char)
    requires |parts| >= 1
    requires forall i :: 0 <= i < |parts| ==> sep !in parts[i]
    ensures Split(Join(parts, [sep]), sep) == parts
    decreases |parts|
  {
    if |parts| == 1 {
      SplitNoSep(parts[0], sep, 0);
    } else {
      var s := Join(parts, [sep]);
      var tail := Join(parts[1..], [sep]);
      assert s == parts[0] + [sep] + tail;
      assert s[|parts[0]|] == sep;
      assert s[..|parts[0]|] == parts[0];
      assert s[|parts[0]| + 1..] == tail;
      assert IndexOf(s, sep) == Some(|parts[0]|);
      SplitOfJoin(parts[1..], sep);
      assert parts == [parts[0]] + parts[1..];
    }
  }

  /** A string without the separator is one piece. */
  lemma SplitNoSep(s: string, sep: char, maxsplit: nat)
    requires sep !in s
    ensures SplitN(s, sep, maxsplit) == [s]
    ensures Split(s, sep) == [s]
  {
  }

  /** Splitting `a + [sep] + b` once, where `a` lacks the separator, yields `a` and `b`. */
  lemma SplitOnceAt(a: string, sep: char, b: string)
    requires sep !in a
    ensures SplitN(a + [sep] + b, sep, 1) == [a, b]
  {
    var s := a + [sep] + b;
    assert s[|a|] == sep;
    assert s[..|a|] == a;
    assert s[|a| + 1..] == b;
    assert IndexOf(s, sep) == Some(|a|);
  }

  /** A split with at least one cut yields two or more pieces exactly when the
      separator occurs. */
  lemma SplitNoSepIff(s: string, sep: char, maxsplit: nat)
    requires maxsplit >= 1
    ensures |SplitN(s, sep, maxsplit)| >= 2 <==> sep in s
  {
  }

  /** Splitting `a:b:c` at most twice, where `a` and `b` lack the separator,
      yields the three pieces; `c` may hold more separators. */
  lemma SplitTwiceAt(a: string, b: string, sep: char, c: string)
    requires sep !in a && sep !in b
    ensures SplitN(a + [sep] + (b + [sep] + c), sep, 2) == [a, b, c]
  {
    var s := a + [sep] + (b + [sep] + c);
    assert s[|a|] == sep;
    assert s[..|a|] == a;
    assert s[|a| + 1..] == b + [sep] + c;
    assert IndexOf(s, sep) == Some(|a|);
    SplitOnceAt(b, sep, c);
  }

  /** `s.splitlines()`: every line boundary ends a line; a final boundary adds no empty line. */
  function SplitLines(s: string): (lines: seq<string>)
    ensures forall i, j :: 0 <= i < |lines| && 0 <= j < |lines[i]| ==> !IsLineBreak(lines[i][j])
    decreases |s|
  {
    if |s| == 0 then []
    else
      match FirstLineBreak(s)
      case None => [s]
      case Some(k) =>
        var next := if s[k] == '\r' && k + 1 < |s| && s[k + 1] == '\n' then k + 2 else k + 1;
        [s[..k]] + SplitLines(s[next..])
  }

  function FirstLineBreak(s: string): (r: Option<nat>)
    ensures r.None? ==> forall j :: 0 <= j < |s| ==> !IsLineBreak(s[j])
    ensures r.Some? ==> (r.value < |s| && IsLineBreak(s[r.value])
                         && forall j :: 0 <= j < r.value ==> !IsLineBreak(s[j]))
    decreases |s|
  {
    if |s| == 0 then None
    else if IsLineBreak(s[0]) then Some(0)
    else
      match FirstLineBreak(s[1..])
      case None => None
      case Some(k) => Some(k + 1)
  }

  /** Text without line boundaries is a single line (or none when empty). */
  lemma SplitLinesNoBreak(s: string)
    requires forall j :: 0 <= j < |s| ==> !IsLineBreak(s[j])
    ensures SplitLines(s) == if |s| == 0 then [] else [s]
  {
  }

  // ---------------------------------------------------------------- replace

  /** `s.replace(c, with)` for a one-character pattern. */
  function ReplaceChar(s: string, c: char, with: string): (r: string)
    ensures c !in with ==> c !in r
    ensures forall x :: x in r ==> x in s || x in with
    ensures c !in s ==> r == s
  {
    if |s| == 0 then ""
    else (if s[0] == c then with else [s[0]]) + ReplaceChar(s[1..], c, with)
  }

  /** `s[:n]` for a non-negative `n`. */
  function Prefix(s: string, n: nat): (r: string)
    ensures |r| == if n < |s| then n else |s|
    ensures r == s[..|r|]
  {
    if n < |s| then s[..n] else s
  }

  function Repeat(c: char, n: nat): (r: string)
    ensures |r| == n && forall i :: 0 <= i < n ==> r[i] == c
  {
    if n == 0 then "" else [c] + Repeat(c, n - 1)
  }

  // ---------------------------------------------------------------- numbers

  function DigitChar(d: nat): (c: char)
    requires d < 10
    ensures IsDigit(c)
  {
    ('0' as int + d) as char
  }

  function DigitValue(c: char): (d: nat)
    requires IsDigit(c)
    ensures d < 10 && DigitChar(d) == c
  {
    c as int - '0' as int
  }

  /** `str(n)` for a non-negative integer. */
  function NatToString(n: nat): (r: string)
    ensures |r| >= 1 && AllDigits(r)
    ensures |r| > 1 ==> r[0] != '0'
    decreases n
  {
    if n < 10 then [DigitChar(n)] else NatToString(n / 10) + [DigitChar(n % 10)]
  }

  /** `int(s)` for a string of ASCII digits. */
  function ParseDigits(s: string): nat
    requires AllDigits(s)
    decreases |s|
  {
    if |s| == 0 then 0 else ParseDigits(s[..|s| - 1]) * 10 + DigitValue(s[|s| - 1])
  }

  /** `str(int)`: a leading minus sign for negative values. */
  function IntToString(i: int): (r: string)
    ensures |r| >= 1
  {
    if i < 0 then "-" + NatToString(-i) else NatToString(i)
  }

  /** `f"{n:0Wd}"`: the decimal digits of `n`, left-padded with zeros to width `w`. */
  function ZeroPad(n: nat, width: nat): (r: string)
    ensures AllDigits(r) && |r| >= width
    ensures |r| == if |NatToString(n)| < width then width else |NatToString(n)|
  {
    var d := NatToString(n);
    if |d| < width then Repeat('0', width - |d|) + d else d
  }

  lemma {:induction false} ParseNatToString(n: nat)
    ensures ParseDigits(NatToString(n)) == n
    decreases n
  {
    if n >= 10 {
      ParseNatToString(n / 10);
      var s := NatToString(n);
      assert s[..|s| - 1] == NatToString(n / 10);
    }
  }

  lemma {:induction false} ParseLeadingZeros(z: nat, d: string)
    requires AllDigits(d)
    ensures AllDigits(Repeat('0', z) + d)
    ensures ParseDigits(Repeat('0', z) + d) == ParseDigits(d)
    decreases |d|
  {
    var s := Repeat('0', z) + d;
    if |d| == 0 {
      assert s == Repeat('0', z);
      ParseZeros(z);
    } else {
      assert s[..|s| - 1] == Repeat('0', z) + d[..|d| - 1];
      ParseLeadingZeros(z, d[..|d| - 1]);
    }
  }

  lemma {:induction false} ParseZeros(z: nat)
    ensures ParseDigits(Repeat('0', z)) == 0
    decreases z
  {
    if z > 0 {
      var s := Repeat('0', z);
      assert s[..|s| - 1] == Repeat('0', z - 1);
      ParseZeros(z - 1);
    }
  }

  /** A zero-padded number reads back as the same number. */
  lemma ParseZeroPad(n: nat, width: nat)
    ensures ParseDigits(ZeroPad(n, width)) == n
  {
    var d := NatToString(n);
    PadDigits(d, width);
    ParseNatToString(n);
  }

  /** Padding digits with zeros keeps their value. */
  lemma PadDigits(d: string, width: nat)
    requires AllDigits(d)
    ensures AllDigits(if |d| < width then Repeat('0', width - |d|) + d else d)
    ensures ParseDigits(if |d| < width then Repeat('0', width - |d|) + d else d) == ParseDigits(d)
  {
    if |d| < width {
      ParseLeadingZeros(width - |d|, d);
    }
  }

  // ---------------------------------------------------------------- ordering

  /** Python's `<` on strings: code-point lexicographic order. */
  predicate LexLess(a: string, b: string)
    decreases |a|
  {
    if |a| == 0 then |b| > 0
    else if |b| == 0 then false
    else if a[0] != b[0] then a[0] < b[0]
    else LexLess(a[1..], b[1..])
  }

  /** Strings that differ in their first character are ordered by it. */
  lemma LexLessByFirst(a: string, b: string)
    requires |a| > 0 && |b| > 0 && a[0] < b[0]
    ensures LexLess(a, b)
  {
  }

  /** `<=` on strings. */
  predicate LexLessEq(a: string, b: string) {
    a == b || LexLess(a, b)
  }

  lemma {:induction false} LexLessIrreflexive(a: string)
    ensures !LexLess(a, a)
    decreases |a|
  {
    if |a| > 0 {
      LexLessIrreflexive(a[1..]);
    }
  }

  lemma {:induction false} LexLessTransitive(a: string, b: string, c: string)
    requires LexLess(a, b) && LexLess(b, c)
    ensures LexLess(a, c)
    decreases |a|
  {
    if |a| > 0 && |b| > 0 && |c| > 0 && a[0] == b[0] && b[0] == c[0] {
      LexLessTransitive(a[1..], b[1..], c[1..]);
    }
  }

  lemma {:induction false} LexLessTotal(a: string, b: string)
    ensures a == b || LexLess(a, b) || LexLess(b, a)
    decreases |a|
  {
    if |a| > 0 && |b| > 0 && a[0] == b[0] {
      LexLessTotal(a[1..], b[1..]);
      if a[1..] == b[1..] {
        assert a == [a[0]] + a[1..] && b == [b[0]] + b[1..];
      }
    }
  }
}
