/** Text and path helpers shared by the models: prefix/suffix/substring tests,
    Python's str.strip and str.split, the last segment of a path, path joining
    and decimal rendering of naturals. Strings are sequences of characters;
    no Unicode normalisation is modelled. */
module Strings {

  predicate StartsWith(s: string, p: string) {
    |p| <= |s| && s[..|p|] == p
  }

  predicate EndsWith(s: string, p: string) {
    |p| <= |s| && s[|s| - |p|..] == p
  }

  /** `p` occurs somewhere in `s` (Python `p in s`, Rust `s.contains(p)`). */
  predicate Contains(s: string, p: string)
    decreases |s|
  {
    StartsWith(s, p) || (|s| > 0 && Contains(s[1..], p))
  }

  lemma {:induction false} ContainsAt(s: string, p: string, i: nat)
    requires i + |p| <= |s| && s[i..i + |p|] == p
    ensures Contains(s, p)
    decreases i
  {
    if i > 0 {
      assert s[1..][i - 1..i - 1 + |p|] == s[i..i + |p|];
      ContainsAt(s[1..], p, i - 1);
    }
  }

  lemma {:induction false} ContainsWitness(s: string, p: string) returns (i: nat)
    requires Contains(s, p)
    ensures i + |p| <= |s| && s[i..i + |p|] == p
    decreases |s|
  {
    if StartsWith(s, p) {
      i := 0;
    } else {
      var j := ContainsWitness(s[1..], p);
      assert s[1..][j..j + |p|] == s[j + 1..j + 1 + |p|];
      i := j + 1;
    }
  }

  // ---------------------------------------------------------------------
  // Whitespace stripping (Python str.strip)

  /** The characters for which Python's str.isspace holds: the ASCII controls from tab to
      carriage return and the four separators U+001C-U+001F, space, next line, no-break
      space, and the Unicode space and line/paragraph separators. */
  const PythonSpaces: set<char> := {
    '\t', '\n', '\U{000B}', '\U{000C}', '\r', '\U{001C}', '\U{001D}', '\U{001E}', '\U{001F}', ' ',
    '\U{0085}', '\U{00A0}', '\U{1680}', '\U{2000}', '\U{2001}', '\U{2002}', '\U{2003}', '\U{2004}',
    '\U{2005}', '\U{2006}', '\U{2007}', '\U{2008}', '\U{2009}', '\U{200A}', '\U{2028}', '\U{2029}',
    '\U{202F}', '\U{205F}', '\U{3000}'}

  predicate IsSpace(c: char) {
    c in PythonSpaces
  }

  function StripLeft(s: string): string {
    SkipSpaces(s, 0)
  }

  /** `s` from offset `k` on, after the whitespace that starts there. */
  function SkipSpaces(s: string, k: nat): string
    requires k <= |s|
    decreases |s| - k
  {
    if k < |s| && IsSpace(s[k]) then SkipSpaces(s, k + 1) else s[k..]
  }

  function StripRight(s: string): string {
    if s != [] && IsSpace(s[|s| - 1]) then StripRight(s[..|s| - 1]) else s
  }

  /** Python `s.strip()`: leading and trailing whitespace removed. */
  function Strip(s: string): string {
    StripRight(StripLeft(s))
  }

  lemma {:induction false} SkipSpacesShape(s: string, k: nat)
    requires k <= |s|
    requires forall i :: 0 <= i < k ==> IsSpace(s[i])
    ensures var r := SkipSpaces(s, k);
      |r| <= |s| && r == s[|s| - |r|..]
      && (r == [] || !IsSpace(r[0]))
      && (forall i :: 0 <= i < |s| - |r| ==> IsSpace(s[i]))
    decreases |s| - k
  {
    if k < |s| && IsSpace(s[k]) {
      SkipSpacesShape(s, k + 1);
    }
  }

  lemma StripLeftShape(s: string)
    ensures EndsWith(s, StripLeft(s))
    ensures StripLeft(s) == [] || !IsSpace(StripLeft(s)[0])
    ensures forall i :: 0 <= i < |s| - |StripLeft(s)| ==> IsSpace(s[i])
  {
    SkipSpacesShape(s, 0);
  }

  lemma {:induction false} StripRightShape(s: string)
    ensures StartsWith(s, StripRight(s))
    ensures StripRight(s) == [] || !IsSpace(StripRight(s)[|StripRight(s)| - 1])
    ensures forall i :: |StripRight(s)| <= i < |s| ==> IsSpace(s[i])
  {
    if s != [] && IsSpace(s[|s| - 1]) {
      var t := s[..|s| - 1];
      StripRightShape(t);
      var r := StripRight(t);
      assert s[..|r|] == t[..|r|];
      forall i | |r| <= i < |s| ensures IsSpace(s[i]) {
        if i < |t| {
          assert s[i] == t[i];
        }
      }
    }
  }

  /** `r` sits at offset `k` of `s` with only whitespace around it. */
  predicate StrippedAt(s: string, r: string, k: int) {
    0 <= k && k + |r| <= |s| && s[k..k + |r|] == r
    && (forall i :: 0 <= i < k ==> IsSpace(s[i]))
    && (forall i :: k + |r| <= i < |s| ==> IsSpace(s[i]))
  }

  /** Stripping removes only whitespace, and only at the ends: the result is a
      contiguous piece of the input that neither starts nor ends with whitespace. */
  lemma StripShape(s: string)
    ensures var r := Strip(s);
      (r == [] || (!IsSpace(r[0]) && !IsSpace(r[|r| - 1])))
      && exists k :: StrippedAt(s, r, k)
  {
    var l := StripLeft(s);
    StripLeftShape(s);
    StripRightShape(l);
    var r := Strip(s);
    var k := |s| - |l|;
    assert s[k..k + |r|] == l[..|r|];
    forall i | k + |r| <= i < |s| ensures IsSpace(s[i]) {
      assert s[i] == l[i - k];
    }
    assert StrippedAt(s, r, k);
  }

  // ---------------------------------------------------------------------
  // Splitting (Python str.split(sep) with a one-character separator)

  function IndexOf(s: string, c: char): (k: nat)
    requires c in s
    ensures k < |s| && s[k] == c && c !in s[..k]
  {
    if s[0] == c then 0 else 1 + IndexOf(s[1..], c)
  }

  /** Python `s.split(sep)`: the pieces between separators, always at least one. */
  function Split(s: string, sep: char): (parts: seq<string>)
    ensures |parts| >= 1
    ensures forall i :: 0 <= i < |parts| ==> sep !in parts[i]
    decreases |s|
  {
    if sep !in s then [s]
    else
      var k := IndexOf(s, sep);
      [s[..k]] + Split(s[k + 1..], sep)
  }

  /** Python `sep.join(parts)`. */
  function JoinWith(parts: seq<string>, sep: char): string
    requires |parts| >= 1
  {
    if |parts| == 1 then parts[0] else parts[0] + [sep] + JoinWith(parts[1..], sep)
  }

  /** Splitting at the first separator: the piece before it, then the split of the rest. */
  lemma SplitAtFirst(s: string, sep: char)
    requires sep in s
    ensures Split(s, sep) == [s[..IndexOf(s, sep)]] + Split(s[IndexOf(s, sep) + 1..], sep)
  {
  }

  /** Joining a first piece onto further pieces puts one separator between them. */
  lemma JoinWithCons(first: string, rest: seq<string>, sep: char)
    requires |rest| >= 1
    ensures JoinWith([first] + rest, sep) == first + [sep] + JoinWith(rest, sep)
  {
    assert ([first] + rest)[1..] == rest;
  }

  /** Splitting loses nothing: joining the pieces with the separator restores the text. */
  lemma {:induction false} SplitJoinRoundTrip(s: string, sep: char)
    ensures JoinWith(Split(s, sep), sep) == s
    decreases |s|
  {
    if sep in s {
      var k := IndexOf(s, sep);
      var tail := s[k + 1..];
      SplitAtFirst(s, sep);
      SplitJoinRoundTrip(tail, sep);
      JoinWithCons(s[..k], Split(tail, sep), sep);
      assert s == s[..k] + [sep] + tail;
    }
  }

  /** Python `s.split(marker)[0]`: the text before the first occurrence of `marker`. */
  function BeforeFirst(s: string, marker: string): (r: string)
    requires |marker| > 0
    ensures StartsWith(s, r)
    decreases |s|
  {
    if StartsWith(s, marker) || s == [] then [] else [s[0]] + BeforeFirst(s[1..], marker)
  }

  // ---------------------------------------------------------------------
  // Paths

  /** The text after the last character from `seps` (the whole text when there is none).
      Python `Path(p).name` with seps = {'/'}; Rust `split(&['\\','/']).next_back()`. */
  function LastSegment(s: string, seps: set<char>): string {
    if s == [] then []
    else if s[|s| - 1] in seps then []
    else LastSegment(s[..|s| - 1], seps) + [s[|s| - 1]]
  }

  /** The last segment is a suffix free of separators, and it is preceded by a
      separator unless it is the whole text. */
  lemma {:induction false} LastSegmentShape(s: string, seps: set<char>)
    ensures var r := LastSegment(s, seps);
      EndsWith(s, r)
      && (forall i :: 0 <= i < |r| ==> r[i] !in seps)
      && (|r| < |s| ==> s[|s| - |r| - 1] in seps)
  {
    if s != [] && s[|s| - 1] !in seps {
      var c := s[|s| - 1];
      var t := s[..|s| - 1];
      LastSegmentShape(t, seps);
      var r := LastSegment(t, seps);
      assert LastSegment(s, seps) == r + [c];
      assert s == t + [c];
      var j := |t| - |r|;
      assert t[j..] == r;
      assert s[j..] == t[j..] + [c];
      if j > 0 {
        assert s[j - 1] == t[j - 1];
      }
    }
  }

  lemma {:induction false} LastSegmentOfPlain(s: string, seps: set<char>)
    requires forall i :: 0 <= i < |s| ==> s[i] !in seps
    ensures LastSegment(s, seps) == s
  {
    if s != [] {
      LastSegmentOfPlain(s[..|s| - 1], seps);
      assert s == s[..|s| - 1] + [s[|s| - 1]];
    }
  }

  lemma {:induction false} LastSegmentAfterSeparator(a: string, c: char, b: string, seps: set<char>)
    requires c in seps
    requires forall i :: 0 <= i < |b| ==> b[i] !in seps
    ensures LastSegment(a + [c] + b, seps) == b
    decreases |b|
  {
    if b != [] {
      var s := a + [c] + b;
      assert s[..|s| - 1] == a + [c] + b[..|b| - 1];
      LastSegmentAfterSeparator(a, c, b[..|b| - 1], seps);
    }
  }

  function BaseName(p: string): string {
    LastSegment(p, {'/'})
  }

  /** Path joining as Python's `/` and Rust's `PathBuf::join` do it for the
      paths used here: an absolute second part replaces the first, an empty
      first part is dropped, otherwise exactly one '/' separates the parts. */
  function JoinPath(dir: string, name: string): (r: string)
    ensures EndsWith(r, name)
  {
    if StartsWith(name, "/") || dir == [] then name
    else if dir[|dir| - 1] == '/' then dir + name
    else dir + "/" + name
  }

  /** Joining a plain file name to a directory gives a path whose file name is that name. */
  lemma BaseNameOfJoin(dir: string, name: string)
    requires name != [] && '/' !in name
    ensures BaseName(JoinPath(dir, name)) == name
  {
    assert forall i :: 0 <= i < |name| ==> name[i] !in {'/'};
    if StartsWith(name, "/") || dir == [] {
      LastSegmentOfPlain(name, {'/'});
    } else if dir[|dir| - 1] == '/' {
      assert dir == dir[..|dir| - 1] + ['/'];
      LastSegmentAfterSeparator(dir[..|dir| - 1], '/', name, {'/'});
    } else {
      LastSegmentAfterSeparator(dir, '/', name, {'/'});
    }
  }

  /** Joining a relative part never leaves the first part: the result starts with it. */
  lemma JoinPathExtends(dir: string, name: string)
    requires !StartsWith(name, "/")
    ensures StartsWith(JoinPath(dir, name), dir)
  {
    var r := JoinPath(dir, name);
    if dir != [] {
      assert r[..|dir|] == dir;
    }
  }

  // ---------------------------------------------------------------------
  // Decimal rendering of naturals (Rust `format!("{}", n)` for unsigned integers)

  predicate IsDigit(c: char) {
    '0' <= c <= '9'
  }

  function DigitChar(d: nat): (c: char)
    requires d < 10
    ensures IsDigit(c) && (c as int) - ('0' as int) == d
  {
    (('0' as int) + d) as char
  }

  function NatToString(n: nat): (r: string)
    ensures |r| >= 1
    ensures forall i :: 0 <= i < |r| ==> IsDigit(r[i])
  {
    if n < 10 then [DigitChar(n)] else NatToString(n / 10) + [DigitChar(n % 10)]
  }

  function DigitValue(c: char): (d: nat)
    requires IsDigit(c)
    ensures d < 10
  {
    (c as int) - ('0' as int)
  }

  /** The value of a string of decimal digits. */
  function DigitsValue(s: string): nat
    requires forall i :: 0 <= i < |s| ==> IsDigit(s[i])
  {
    if s == [] then 0 else 10 * DigitsValue(s[..|s| - 1]) + DigitValue(s[|s| - 1])
  }

  /** Rendering is lossless: reading the digits back gives the number. */
  lemma {:induction false} NatToStringRoundTrip(n: nat)
    ensures DigitsValue(NatToString(n)) == n
  {
    if n >= 10 {
      NatToStringRoundTrip(n / 10);
      var s := NatToString(n);
      assert s[..|s| - 1] == NatToString(n / 10);
    }
  }
}
