/**
 * The string operations the Python code relies on, written out over
 * `seq<char>`: `str.split('.')[0]`, comparison of `str` values, `in` on
 * strings, `str.replace(pat, "")`, ASCII `lower()`, `str(int)` and `int(str)`.
 */
module Strings {

  predicate IsDigit(c: char) { '0' <= c <= '9' }

  predicate AllDigits(s: string) { forall i :: 0 <= i < |s| ==> IsDigit(s[i]) }

  function DigitValue(c: char): (d: nat)
    requires IsDigit(c)
    ensures d < 10
  {
    c as int - '0' as int
  }

  function DigitChar(d: nat): (c: char)
    requires d < 10
    ensures IsDigit(c) && DigitValue(c) == d
  {
    ('0' as int + d) as char
  }

  /** `name.split('.')[0]`: the text before the first '.', or all of `name`. */
  function BaseName(name: string): (r: string)
    ensures '.' !in r
    ensures r <= name
    ensures r == name || name[|r|] == '.'
  {
    if name == [] then []
    else if name[0] == '.' then []
    else [name[0]] + BaseName(name[1..])
  }

  // ---------------------------------------------------------------------
  // Python's ordering of `str` values: code point by code point, and a
  // proper prefix orders first.

  predicate LexLess(a: string, b: string)
  {
    if a == [] then b != []
    else if b == [] then false
    else if a[0] != b[0] then a[0] < b[0]
    else LexLess(a[1..], b[1..])
  }

  predicate LexLe(a: string, b: string) { a == b || LexLess(a, b) }

  /** A common prefix does not change the order. */
  lemma {:induction false} LexLessCommonPrefix(p: string, a: string, b: string)
    requires LexLess(a, b)
    ensures LexLess(p + a, p + b)
    decreases |p|
  {
    if p != [] {
      assert (p + a)[0] == p[0] == (p + b)[0];
      assert (p + a)[1..] == p[1..] + a && (p + b)[1..] == p[1..] + b;
      LexLessCommonPrefix(p[1..], a, b);
    } else {
      assert p + a == a && p + b == b;
    }
  }

  lemma {:induction false} LexLessIrreflexive(a: string)
    ensures !LexLess(a, a)
  {
    if a != [] { LexLessIrreflexive(a[1..]); }
  }

  lemma {:induction false} LexLessTransitive(a: string, b: string, c: string)
    requires LexLess(a, b) && LexLess(b, c)
    ensures LexLess(a, c)
  {
    if a != [] && a[0] == b[0] && b[0] == c[0] {
      LexLessTransitive(a[1..], b[1..], c[1..]);
    }
  }

  lemma {:induction false} LexTrichotomy(a: string, b: string)
    ensures a == b || LexLess(a, b) || LexLess(b, a)
    ensures !(LexLess(a, b) && LexLess(b, a))
  {
    if a != [] && b != [] && a[0] == b[0] {
      LexTrichotomy(a[1..], b[1..]);
      if a[1..] == b[1..] {
        assert a == [a[0]] + a[1..] && b == [b[0]] + b[1..];
      }
    }
  }

  lemma LexLeTransitive(a: string, b: string, c: string)
    requires LexLe(a, b) && LexLe(b, c)
    ensures LexLe(a, c)
  {
    if a != b && b != c { LexLessTransitive(a, b, c); }
  }

  // ---------------------------------------------------------------------
  // `k in s` for strings.

  predicate IsSubstring(k: string, s: string)
    decreases |s|
  {
    k <= s || (s != [] && IsSubstring(k, s[1..]))
  }

  /** `k` occurs in `s` starting at position `i`. */
  predicate OccursAt(k: string, s: string, i: int)
  {
    0 <= i <= |s| - |k| && s[i..i + |k|] == k
  }

  /** `IsSubstring` agrees with the positional reading of `k in s`. */
  lemma {:induction false} IsSubstringAt(k: string, s: string)
    ensures IsSubstring(k, s) <==> exists i :: OccursAt(k, s, i)
    decreases |s|
  {
    if k <= s {
      assert OccursAt(k, s, 0);
    } else if s == [] {
    } else {
      IsSubstringAt(k, s[1..]);
      if exists i :: OccursAt(k, s, i) {
        var i :| OccursAt(k, s, i);
        assert i != 0;
        assert OccursAt(k, s[1..], i - 1);
      }
      if IsSubstring(k, s[1..]) {
        var i :| OccursAt(k, s[1..], i);
        assert OccursAt(k, s, i + 1);
      }
    }
  }

  /** A name that contains `k` still contains it once text is appended. */
  lemma {:induction false} IsSubstringExtend(k: string, s: string, t: string)
    requires IsSubstring(k, s)
    ensures IsSubstring(k, s + t)
    decreases |s|
  {
    if k <= s {
      assert k <= s + t;
    } else {
      assert (s + t)[1..] == s[1..] + t;
      IsSubstringExtend(k, s[1..], t);
    }
  }

  // ---------------------------------------------------------------------
  // `s.replace(pat, "")`: every non-overlapping occurrence of `pat`,
  // scanning from the left, is removed.

  function RemoveAll(s: string, pat: string): (r: string)
    ensures |r| <= |s|
    ensures !IsSubstring(pat, s) ==> r == s
    ensures |pat| == 1 ==> pat[0] !in r
    decreases |s|
  {
    if pat == [] then s
    else if s == [] then []
    else if pat <= s then RemoveAll(s[|pat|..], pat)
    else [s[0]] + RemoveAll(s[1..], pat)
  }

  // ---------------------------------------------------------------------
  // ASCII `str.lower()`.

  function LowerChar(c: char): char
  {
    if 'A' <= c <= 'Z' then (c as int + 32) as char else c
  }

  function Lower(s: string): (r: string)
    ensures |r| == |s|
  {
    seq(|s|, i requires 0 <= i < |s| => LowerChar(s[i]))
  }

  // ---------------------------------------------------------------------
  // `str(n)` and `int(s)` for decimal integers.

  function NatToString(n: nat): (r: string)
    ensures r != [] && AllDigits(r)
    ensures |r| > 1 ==> r[0] != '0'
  {
    if n < 10 then [DigitChar(n)] else NatToString(n / 10) + [DigitChar(n % 10)]
  }

  /** `int(s)` for a run of decimal digits; leading zeros do not count. */
  function ParseNat(s: string): nat
    requires AllDigits(s)
  {
    if s == [] then 0 else 10 * ParseNat(s[..|s| - 1]) + DigitValue(s[|s| - 1])
  }

  lemma {:induction false} ParseNatToString(n: nat)
    ensures ParseNat(NatToString(n)) == n
  {
    var r := NatToString(n);
    if n >= 10 {
      assert r[..|r| - 1] == NatToString(n / 10);
      ParseNatToString(n / 10);
    } else {
      assert r[..0] == [];
    }
  }

  /** A leading zero does not change the value `int` reads. */
  lemma {:induction false} ParseNatLeadingZero(d: string)
    requires AllDigits(d)
    ensures AllDigits("0" + d) && ParseNat("0" + d) == ParseNat(d)
    decreases |d|
  {
    var z := "0" + d;
    if d == [] {
      assert z[..0] == [];
    } else {
      assert z[..|z| - 1] == "0" + d[..|d| - 1];
      ParseNatLeadingZero(d[..|d| - 1]);
    }
  }

  /** `str(i)` for any integer: a '-' sign before the digits of a negative one. */
  function IntToString(i: int): (r: string)
    ensures r != []
    ensures i >= 0 <==> IsDigit(r[0])
  {
    if i < 0 then "-" + NatToString(-i) else NatToString(i)
  }

  /** Distinct integers print differently. */
  lemma IntToStringInjective(a: int, b: int)
    requires IntToString(a) == IntToString(b)
    ensures a == b
  {
    if a < 0 && b < 0 {
      assert NatToString(-a) == IntToString(a)[1..] == IntToString(b)[1..] == NatToString(-b);
      ParseNatToString(-a);
      ParseNatToString(-b);
    } else if a >= 0 && b >= 0 {
      ParseNatToString(a);
      ParseNatToString(b);
    }
  }

  // ---------------------------------------------------------------------
  // `s.split(sep)` for a one-character separator.

  function SplitOn(s: string, sep: char): (r: seq<string>)
    ensures |r| >= 1
  {
    if s == [] then [[]]
    else
      var rest := SplitOn(s[1..], sep);
      if s[0] == sep then [[]] + rest else [[s[0]] + rest[0]] + rest[1..]
  }

  /** Text without the separator joins the first field. */
  lemma {:induction false} SplitOnPrefix(a: string, b: string, sep: char)
    requires sep !in a
    ensures SplitOn(a + b, sep)[0] == a + SplitOn(b, sep)[0]
    ensures SplitOn(a + b, sep)[1..] == SplitOn(b, sep)[1..]
    decreases |a|
  {
    if a == [] {
      assert a + b == b;
    } else {
      var c := a[0];
      assert (a + b)[0] == c && (a + b)[1..] == a[1..] + b;
      SplitOnPrefix(a[1..], b, sep);
      var rest := SplitOn(a[1..] + b, sep);
      assert SplitOn(a + b, sep) == [[c] + rest[0]] + rest[1..];
      assert [c] + rest[0] == [c] + (a[1..] + SplitOn(b, sep)[0]) == a + SplitOn(b, sep)[0];
    }
  }

  /** Text without the separator is a single field. */
  lemma SplitOnNone(a: string, sep: char)
    requires sep !in a
    ensures SplitOn(a, sep) == [a]
  {
    SplitOnPrefix(a, [], sep);
    assert a + [] == a;
  }

  /** `(a + sep + b).split(sep)` is `a` followed by the fields of `b`, for `a` without the separator. */
  lemma SplitOnJoin(a: string, b: string, sep: char)
    requires sep !in a
    ensures SplitOn(a + [sep] + b, sep) == [a] + SplitOn(b, sep)
  {
    assert a + [sep] + b == a + ([sep] + b);
    SplitOnPrefix(a, [sep] + b, sep);
    assert ([sep] + b)[1..] == b;
    assert SplitOn([sep] + b, sep) == [[]] + SplitOn(b, sep);
    assert SplitOn([sep] + b, sep)[0] == [] && SplitOn([sep] + b, sep)[1..] == SplitOn(b, sep);
    assert a + [] == a;
    var f := SplitOn(a + ([sep] + b), sep);
    assert f == [f[0]] + f[1..];
  }
}
