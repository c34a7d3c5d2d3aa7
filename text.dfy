/** The few `str` operations of Python that the modelled scripts rely on. */
module Text {
  import opened Base

  predicate StartsWith(s: string, p: string) {
    |p| <= |s| && s[..|p|] == p
  }

  predicate EndsWith(s: string, p: string) {
    |p| <= |s| && s[|s| - |p|..] == p
  }

  /** A string does not end with a pattern whose last character differs from its own. */
  lemma NotEndingWith(s: string, p: string)
    requires |p| > 0 && (|s| == 0 || s[|s| - 1] != p[|p| - 1])
    ensures !EndsWith(s, p)
  {
    if |p| <= |s| {
      assert s[|s| - |p|..][|p| - 1] == s[|s| - 1];
    }
  }

  /** Python's `p in s`. */
  predicate Contains(s: string, p: string)
    decreases |s|
  {
    StartsWith(s, p) || (|s| > 0 && Contains(s[1..], p))
  }

  lemma {:induction false} ContainsAt(s: string, p: string, i: nat)
    requires i <= |s| && StartsWith(s[i..], p)
    ensures Contains(s, p)
    decreases i
  {
    if i > 0 {
      assert s[1..][i - 1..] == s[i..];
      ContainsAt(s[1..], p, i - 1);
    }
  }

  lemma {:induction false} ContainsWitness(s: string, p: string) returns (i: nat)
    requires Contains(s, p)
    ensures i <= |s| && StartsWith(s[i..], p)
    decreases |s|
  {
    if StartsWith(s, p) {
      i := 0;
    } else {
      var k := ContainsWitness(s[1..], p);
      assert s[1..][k..] == s[k + 1..];
      i := k + 1;
    }
  }

  /** Python's `str.isspace` for one character: the characters `str.rstrip()` removes. */
  predicate IsSpace(c: char) {
    var n := c as int;
    n == 0x20 || 0x09 <= n <= 0x0D || 0x1C <= n <= 0x1F || n == 0x85 || n == 0xA0 || n == 0x1680
    || 0x2000 <= n <= 0x200A || n == 0x2028 || n == 0x2029 || n == 0x202F || n == 0x205F || n == 0x3000
  }

  /** Python's `s.rstrip()`: `s` without its trailing whitespace. */
  function RStrip(s: string): string {
    if |s| == 0 || !IsSpace(s[|s| - 1]) then s else RStrip(s[..|s| - 1])
  }

  /**
   * `rstrip()` keeps the longest prefix of `s` that does not end in whitespace: what it drops
   * is all whitespace.
   */
  lemma {:induction false} RStripStrips(s: string)
    ensures var r := RStrip(s); |r| <= |s| && r == s[..|r|]
    ensures var r := RStrip(s); r == [] || !IsSpace(r[|r| - 1])
    ensures AllSpace(s[|RStrip(s)|..])
    decreases |s|
  {
    if |s| > 0 && IsSpace(s[|s| - 1]) {
      var t := s[..|s| - 1];
      RStripStrips(t);
      var r := RStrip(t);
      assert s[|r|..] == t[|r|..] + [s[|s| - 1]];
      assert r == t[..|r|] == s[..|r|];
    }
  }

  /** `t` consists of whitespace only. */
  predicate AllSpace(t: string) {
    forall i :: 0 <= i < |t| ==> IsSpace(t[i])
  }

  /** Python's `sep.join(parts)`. */
  function JoinStrings(parts: seq<string>, sep: string): string {
    if |parts| == 0 then ""
    else if |parts| == 1 then parts[0]
    else parts[0] + sep + JoinStrings(parts[1..], sep)
  }

  /** Python's `s.replace(old, new)`: occurrences are found left to right and do not overlap. */
  function ReplaceAll(s: string, pat: string, repl: string): string
    requires pat != []
    decreases |s|
  {
    if |s| == 0 then s
    else if StartsWith(s, pat) then repl + ReplaceAll(s[|pat|..], pat, repl)
    else [s[0]] + ReplaceAll(s[1..], pat, repl)
  }

  /** Replacing a suffix that occurs nowhere else only swaps that suffix. */
  lemma {:induction false} ReplaceAtEnd(stem: string, pat: string, repl: string)
    requires pat != []
    requires forall i :: 0 <= i < |stem| ==> !StartsWith((stem + pat)[i..], pat)
    ensures ReplaceAll(stem + pat, pat, repl) == stem + repl
    decreases |stem|
  {
    var s := stem + pat;
    if |stem| == 0 {
      assert s == pat && s[|pat|..] == [];
    } else {
      assert !StartsWith(s[0..], pat);
      assert s[0..] == s;
      assert s[1..] == stem[1..] + pat;
      forall i | 0 <= i < |stem[1..]|
        ensures !StartsWith((stem[1..] + pat)[i..], pat)
      {
        assert (stem[1..] + pat)[i..] == s[i + 1..];
      }
      ReplaceAtEnd(stem[1..], pat, repl);
      assert [stem[0]] + (stem[1..] + repl) == stem + repl;
    }
  }

  function DigitChar(d: nat): char
    requires d < 10
  {
    "0123456789"[d]
  }

  function DigitValue(c: char): nat
    requires IsDigit(c)
  {
    (c as int - '0' as int) as nat
  }

  predicate IsDigit(c: char) {
    '0' <= c <= '9'
  }

  /** The decimal digits of `n`, most significant first, without leading zeros. */
  function NatToString(n: nat): (r: string)
    ensures |r| > 0 && forall i :: 0 <= i < |r| ==> IsDigit(r[i])
  {
    if n < 10 then [DigitChar(n)] else NatToString(n / 10) + [DigitChar(n % 10)]
  }

  /** Python's `str(i)` for an `int`. */
  function IntToString(i: int): string {
    if i < 0 then "-" + NatToString(-i) else NatToString(i)
  }

  function DigitsValue(d: string): nat
    requires forall i :: 0 <= i < |d| ==> IsDigit(d[i])
  {
    if |d| == 0 then 0 else DigitsValue(d[..|d| - 1]) * 10 + DigitValue(d[|d| - 1])
  }

  /**
   * Python's `int(s)` for a string: an optional sign followed by one or more decimal digits;
   * anything else is the `ValueError` Python raises.
   */
  function ParseInt(s: string): Option<int> {
    var neg := |s| > 0 && s[0] == '-';
    var body := if |s| > 0 && (s[0] == '-' || s[0] == '+') then s[1..] else s;
    if |body| > 0 && forall i :: 0 <= i < |body| ==> IsDigit(body[i]) then
      var v: int := DigitsValue(body);
      Some(if neg then -v else v)
    else None
  }

  lemma {:induction false} NatToStringValue(n: nat)
    ensures DigitsValue(NatToString(n)) == n
  {
    if n >= 10 {
      var s := NatToString(n);
      assert s[..|s| - 1] == NatToString(n / 10);
      NatToStringValue(n / 10);
    }
  }

  /** `int(str(i)) == i`: the decimal rendering of an integer reads back as that integer. */
  lemma ParseIntToString(i: int)
    ensures ParseInt(IntToString(i)) == Some(i)
  {
    if i < 0 {
      var d := NatToString(-i);
      assert IntToString(i) == "-" + d;
      NatToStringValue(-i);
      ParseNegative(d);
    } else {
      var d := NatToString(i);
      assert IntToString(i) == d;
      NatToStringValue(i);
      ParseUnsigned(d);
    }
  }

  /** Digits alone read back as their value. */
  lemma ParseUnsigned(d: string)
    requires |d| > 0 && forall i :: 0 <= i < |d| ==> IsDigit(d[i])
    ensures ParseInt(d) == Some(DigitsValue(d))
  {
    assert IsDigit(d[0]);
  }

  /** A minus sign and digits read back as the negated value. */
  lemma ParseNegative(d: string)
    requires |d| > 0 && forall i :: 0 <= i < |d| ==> IsDigit(d[i])
    ensures var v: int := DigitsValue(d); ParseInt("-" + d) == Some(-v)
  {
    assert ("-" + d)[1..] == d;
  }

  /** Python's `a <= b` on `str`: lexicographic order by code point. */
  predicate LexLe(a: string, b: string)
    decreases |a|
  {
    |a| == 0 || (|b| > 0 && (a[0] < b[0] || (a[0] == b[0] && LexLe(a[1..], b[1..]))))
  }

  lemma {:induction false} LexLeTotal(a: string, b: string)
    ensures LexLe(a, b) || LexLe(b, a)
    decreases |a|
  {
    if |a| > 0 && |b| > 0 && a[0] == b[0] {
      LexLeTotal(a[1..], b[1..]);
    }
  }

  lemma {:induction false} LexLeTransitive(a: string, b: string, c: string)
    requires LexLe(a, b) && LexLe(b, c)
    ensures LexLe(a, c)
    decreases |a|
  {
    if |a| > 0 && a[0] == b[0] && b[0] == c[0] {
      LexLeTransitive(a[1..], b[1..], c[1..]);
    }
  }

  lemma {:induction false} LexLeAntisymmetric(a: string, b: string)
    requires LexLe(a, b) && LexLe(b, a)
    ensures a == b
    decreases |a|
  {
    if |a| > 0 {
      LexLeAntisymmetric(a[1..], b[1..]);
    }
  }

  predicate SortedStrings(s: seq<string>) {
    forall i, j :: 0 <= i < j < |s| ==> LexLe(s[i], s[j])
  }

  /** Every element of a multiset lies at or above `lo`. */
  ghost predicate AllAtLeast(lo: string, m: multiset<string>) {
    forall y :: y in m ==> LexLe(lo, y)
  }

  lemma SortedHeadBound(s: seq<string>)
    requires SortedStrings(s) && |s| > 0
    ensures AllAtLeast(s[0], multiset(s[1..]))
  {
    forall y | y in multiset(s[1..]) ensures LexLe(s[0], y) {
      var k :| 0 <= k < |s[1..]| && s[1..][k] == y;
      assert s[k + 1] == y;
    }
  }

  lemma SortedCons(h: string, rest: seq<string>)
    requires SortedStrings(rest) && AllAtLeast(h, multiset(rest))
    ensures SortedStrings([h] + rest)
  {
    forall i, j | 0 <= i < j < |[h] + rest| ensures LexLe(([h] + rest)[i], ([h] + rest)[j]) {
      if i == 0 {
        assert ([h] + rest)[j] == rest[j - 1];
        assert rest[j - 1] in multiset(rest);
      }
    }
  }

  function InsertString(x: string, s: seq<string>): (r: seq<string>)
    requires SortedStrings(s)
    ensures SortedStrings(r) && multiset(r) == multiset(s) + multiset{x}
  {
    if |s| == 0 then [x]
    else if LexLe(x, s[0]) then
      SortedHeadBound(s);
      assert AllAtLeast(x, multiset(s)) by {
        assert s == [s[0]] + s[1..];
        forall y | y in multiset(s) ensures LexLe(x, y) {
          if y != s[0] { LexLeTransitive(x, s[0], y); }
        }
      }
      SortedCons(x, s);
      [x] + s
    else
      LexLeTotal(x, s[0]);
      SortedHeadBound(s);
      var rest := InsertString(x, s[1..]);
      assert s == [s[0]] + s[1..];
      SortedCons(s[0], rest);
      [s[0]] + rest
  }

  /** Python's `sorted(xs)` for a list of `str`. */
  function SortStrings(xs: seq<string>): (r: seq<string>)
    ensures SortedStrings(r) && multiset(r) == multiset(xs)
  {
    if |xs| == 0 then []
    else
      assert xs == xs[..|xs| - 1] + [xs[|xs| - 1]];
      InsertString(xs[|xs| - 1], SortStrings(xs[..|xs| - 1]))
  }
}
