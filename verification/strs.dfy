/** The pieces of Go's `strings`, `strconv` and `path` packages that the core uses,
    over strings of Unicode code points. */
module Strs {

  /** Go's `unicode.IsSpace`: the white-space code points `strings.TrimSpace` removes. */
  predicate IsSpace(c: char) {
    c == ' ' || c == '\t' || c == '\n' || c == '\r' || c == '\U{000B}' || c == '\U{000C}'
    || c == '\U{0085}' || c == '\U{00A0}' || c == '\U{1680}' || ('\U{2000}' <= c <= '\U{200A}')
    || c == '\U{2028}' || c == '\U{2029}' || c == '\U{202F}' || c == '\U{205F}' || c == '\U{3000}'
  }

  /** Number of leading code points of `s` that `cut` accepts. */
  function LeadingCount(s: string, cut: char -> bool): (k: nat)
    ensures k <= |s|
    ensures forall i :: 0 <= i < k ==> cut(s[i])
    ensures k < |s| ==> !cut(s[k])
  {
    if s == [] || !cut(s[0]) then 0 else 1 + LeadingCount(s[1..], cut)
  }

  /** Number of trailing code points of `s` that `cut` accepts. */
  function TrailingCount(s: string, cut: char -> bool): (k: nat)
    ensures k <= |s|
    ensures forall i :: |s| - k <= i < |s| ==> cut(s[i])
    ensures k < |s| ==> !cut(s[|s| - k - 1])
  {
    if s == [] || !cut(s[|s| - 1]) then 0 else 1 + TrailingCount(s[..|s| - 1], cut)
  }

  /** `strings.TrimLeftFunc` followed by `strings.TrimRightFunc`. */
  function TrimFunc(s: string, cut: char -> bool): (r: string)
    ensures |r| <= |s|
    ensures r != [] ==> !cut(r[0]) && !cut(r[|r| - 1])
    ensures (forall i :: 0 <= i < |s| ==> !cut(s[i])) ==> r == s
    ensures (forall i :: 0 <= i < |s| ==> cut(s[i])) ==> r == []
  {
    var l := LeadingCount(s, cut);
    var t := TrailingCount(s[l..], cut);
    s[l..|s| - t]
  }

  /** `strings.TrimSpace`. */
  function TrimSpace(s: string): (r: string)
    ensures r != [] ==> !IsSpace(r[0]) && !IsSpace(r[|r| - 1])
  {
    TrimFunc(s, IsSpace)
  }

  /** `strings.Trim(s, cutset)` for a one-character cutset. */
  function Trim(s: string, c: char): (r: string)
    ensures r != [] ==> r[0] != c && r[|r| - 1] != c
  {
    TrimFunc(s, x => x == c)
  }

  /** Index of the first occurrence of `c` in `s`, if any (`strings.IndexByte`). */
  function IndexOf(s: string, c: char): (r: int)
    ensures -1 <= r < |s|
    ensures r == -1 <==> c !in s
    ensures r >= 0 ==> s[r] == c && c !in s[..r]
  {
    if s == [] then -1
    else if s[0] == c then 0
    else var k := IndexOf(s[1..], c); if k == -1 then -1 else k + 1
  }

  /** The parts joined by `sep` (`strings.Join`). */
  function Join(parts: seq<string>, sep: char): string {
    if parts == [] then []
    else if |parts| == 1 then parts[0]
    else parts[0] + [sep] + Join(parts[1..], sep)
  }

  /** `strings.Split(s, sep)`: one part more than there are separators, none holding one,
      and joining them again gives `s` back. */
  function Split(s: string, sep: char): (parts: seq<string>)
    ensures |parts| >= 1
    ensures forall i :: 0 <= i < |parts| ==> sep !in parts[i]
    ensures Join(parts, sep) == s
    decreases |s|
  {
    var k := IndexOf(s, sep);
    if k == -1 then [s] else [s[..k]] + Split(s[k + 1..], sep)
  }

  /** Splitting a join of separator-free parts gives the parts back. */
  lemma {:induction false} SplitJoin(parts: seq<string>, sep: char)
    requires |parts| >= 1
    requires forall i :: 0 <= i < |parts| ==> sep !in parts[i]
    ensures Split(Join(parts, sep), sep) == parts
  {
    if |parts| > 1 {
      var s := Join(parts, sep);
      assert s == parts[0] + ([sep] + Join(parts[1..], sep));
      assert s[..|parts[0]|] == parts[0];
      assert s[|parts[0]|] == sep;
      IndexOfConcat(parts[0], [sep] + Join(parts[1..], sep), sep);
      assert s[|parts[0]| + 1..] == Join(parts[1..], sep);
      SplitJoin(parts[1..], sep);
    } else {
      assert sep !in parts[0];
    }
  }

  lemma IndexOfConcat(a: string, b: string, c: char)
    requires c !in a && b != [] && b[0] == c
    ensures IndexOf(a + b, c) == |a|
  {
    var s := a + b;
    assert s[|a|] == c;
    assert s[..|a|] == a;
  }

  /** `strings.Contains(s, sub)`. */
  function Contains(s: string, sub: string): (r: bool)
    ensures r <==> exists i :: 0 <= i <= |s| - |sub| && sub <= s[i..]
  {
    if sub <= s then
      assert s[0..] == s;
      true
    else if |s| <= |sub| then
      false
    else
      var r := Contains(s[1..], sub);
      assert forall i :: 1 <= i <= |s| - |sub| ==> s[i..] == s[1..][i - 1..];
      assert r ==> exists i :: 0 <= i <= |s| - |sub| && sub <= s[i..] by {
        if r {
          var j :| 0 <= j <= |s| - 1 - |sub| && sub <= s[1..][j..];
          assert s[j + 1..] == s[1..][j..];
        }
      }
      r
  }

  /** `strings.LastIndex(s, "/")` for one character. */
  function LastIndexOf(s: string, c: char): (r: int)
    ensures -1 <= r < |s|
    ensures r == -1 <==> c !in s
    ensures r >= 0 ==> s[r] == c && c !in s[r + 1..]
  {
    if s == [] then -1
    else if s[|s| - 1] == c then |s| - 1
    else
      var r := LastIndexOf(s[..|s| - 1], c);
      assert s == s[..|s| - 1] + [s[|s| - 1]];
      r
  }

  predicate IsSlash(c: char) {
    c == '/'
  }

  /** Go's `path.Base`: the last slash-separated element, ignoring trailing slashes;
      "." for the empty path and "/" for a path of slashes only. */
  function PathBase(p: string): (r: string)
    ensures r != []
    ensures r == "/" || '/' !in r
    ensures p != [] && '/' !in p ==> r == p
  {
    if p == [] then "."
    else
      var t := TrailingCount(p, IsSlash);
      var q := p[..|p| - t];
      var i := LastIndexOf(q, '/');
      var b := q[i + 1..];
      assert '/' !in p ==> t == 0 && q == p && b == p by {
        if '/' !in p {
          assert !IsSlash(p[|p| - 1]);
          assert t == 0;
          assert q == p;
        }
      }
      if b == [] then "/" else b
  }

  /** The decimal digit of `d`. */
  function DigitChar(d: nat): (c: char)
    requires d < 10
    ensures '0' <= c <= '9'
  {
    ['0', '1', '2', '3', '4', '5', '6', '7', '8', '9'][d]
  }

  predicate IsDigit(c: char) {
    '0' <= c <= '9'
  }

  /** The value of a string of decimal digits. */
  function DigitsValue(s: string): nat
    requires forall i :: 0 <= i < |s| ==> IsDigit(s[i])
  {
    if s == [] then 0
    else
      assert IsDigit(s[|s| - 1]);
      10 * DigitsValue(s[..|s| - 1]) + ((s[|s| - 1] as int) - ('0' as int))
  }

  /** `strconv.Itoa` for a non-negative number: its shortest decimal spelling. */
  function Itoa(n: nat): (s: string)
    ensures s != []
    ensures forall i :: 0 <= i < |s| ==> IsDigit(s[i])
    ensures |s| > 1 ==> s[0] != '0'
    ensures DigitsValue(s) == n
  {
    if n < 10 then [DigitChar(n)]
    else
      var p := Itoa(n / 10);
      var s := p + [DigitChar(n % 10)];
      assert s[..|s| - 1] == p;
      s
  }
}
