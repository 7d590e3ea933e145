/**
 * String helpers that the channel naming, the channel directory and the comment
 * bridge rely on: the decimal text of a number as a JavaScript template literal
 * prints it, prefix tests, substring search, ASCII case mapping, JavaScript's
 * character-by-character string order, and `Array.prototype.join`.
 */
module Strings {

  predicate IsDigit(c: char) {
    '0' <= c <= '9'
  }

  predicate AllDigits(s: string) {
    forall i :: 0 <= i < |s| ==> IsDigit(s[i])
  }

  function DigitChar(d: nat): (c: char)
    requires d < 10
    ensures IsDigit(c) && c as int - '0' as int == d
  {
    ('0' as int + d) as char
  }

  /** `${n}` for a non-negative integer n: its decimal digits, most significant first. */
  function Decimal(n: nat): (s: string)
    ensures 0 < |s| && AllDigits(s)
    decreases n
  {
    if n < 10 then [DigitChar(n)] else Decimal(n / 10) + [DigitChar(n % 10)]
  }

  /** The number a string of decimal digits denotes. */
  function DigitsValue(s: string): nat
    requires AllDigits(s)
  {
    if s == [] then 0 else DigitsValue(s[..|s| - 1]) * 10 + (s[|s| - 1] as int - '0' as int)
  }

  lemma {:induction false} DecimalRoundTrip(n: nat)
    ensures DigitsValue(Decimal(n)) == n
  {
    if n >= 10 {
      var s := Decimal(n);
      assert s[..|s| - 1] == Decimal(n / 10);
      DecimalRoundTrip(n / 10);
    }
  }

  /** Distinct numbers print differently. */
  lemma DecimalInjective(m: nat, n: nat)
    ensures Decimal(m) == Decimal(n) <==> m == n
  {
    if Decimal(m) == Decimal(n) {
      DecimalRoundTrip(m);
      DecimalRoundTrip(n);
    }
  }

  /** Length of the longest prefix of s made of digits. */
  function DigitRun(s: string): (k: nat)
    ensures k <= |s|
  {
    if s == [] || !IsDigit(s[0]) then 0 else 1 + DigitRun(s[1..])
  }

  lemma {:induction false} DigitRunStopsAfterDigits(d: string, rest: string)
    requires AllDigits(d)
    requires rest == [] || !IsDigit(rest[0])
    ensures DigitRun(d + rest) == |d|
  {
    if d != [] {
      assert (d + rest)[1..] == d[1..] + rest;
      DigitRunStopsAfterDigits(d[1..], rest);
    }
  }

  /** A digit string followed by a dash can be split back unambiguously. */
  lemma SplitAfterDigits(d1: string, r1: string, d2: string, r2: string)
    requires AllDigits(d1) && AllDigits(d2)
    requires d1 + "-" + r1 == d2 + "-" + r2
    ensures d1 == d2 && r1 == r2
  {
    var s := d1 + "-" + r1;
    assert s == d1 + ("-" + r1);
    assert d2 + "-" + r2 == d2 + ("-" + r2);
    DigitRunStopsAfterDigits(d1, "-" + r1);
    DigitRunStopsAfterDigits(d2, "-" + r2);
    assert d1 == s[..|d1|];
    assert r1 == s[|d1| + 1..];
  }

  predicate StartsWith(s: string, prefix: string) {
    |prefix| <= |s| && s[..|prefix|] == prefix
  }

  /** `s.slice(0, k)`: the first k characters of s, or all of s when it is shorter. */
  function SlicePrefix(s: string, k: nat): (r: string)
    ensures |r| == if |s| < k then |s| else k
    ensures StartsWith(s, r)
  {
    if |s| <= k then s else s[..k]
  }

  /** Comparing the first |p| characters with p is the same as a prefix test. */
  lemma SlicePrefixIsPrefixTest(s: string, p: string)
    ensures SlicePrefix(s, |p|) == p <==> StartsWith(s, p)
  {
  }

  /** `s.includes(t)`. */
  predicate Contains(s: string, t: string) {
    exists i :: 0 <= i <= |s| - |t| && StartsWith(s[i..], t)
  }

  lemma ContainsMiddle(a: string, t: string, b: string)
    ensures Contains(a + t + b, t)
  {
    var s := a + t + b;
    assert s[|a|..][..|t|] == t;
    assert StartsWith(s[|a|..], t);
  }

  lemma ContainsWithin(a: string, s: string, b: string, t: string)
    requires Contains(s, t)
    ensures Contains(a + s + b, t)
  {
    var i :| 0 <= i <= |s| - |t| && StartsWith(s[i..], t);
    var u := a + s + b;
    assert u[|a| + i..][..|t|] == s[i..][..|t|];
    assert StartsWith(u[|a| + i..], t);
  }

  function LowerChar(c: char): char {
    if 'A' <= c <= 'Z' then (c as int + 32) as char else c
  }

  function UpperChar(c: char): char {
    if 'a' <= c <= 'z' then (c as int - 32) as char else c
  }

  /** `s.toLowerCase()`, on the ASCII letters. */
  function ToLower(s: string): (r: string)
    ensures |r| == |s|
    ensures forall i :: 0 <= i < |s| ==> r[i] == LowerChar(s[i])
  {
    if s == [] then [] else [LowerChar(s[0])] + ToLower(s[1..])
  }

  /** `s.toUpperCase()`, on the ASCII letters. */
  function ToUpper(s: string): (r: string)
    ensures |r| == |s|
    ensures forall i :: 0 <= i < |s| ==> r[i] == UpperChar(s[i])
  {
    if s == [] then [] else [UpperChar(s[0])] + ToUpper(s[1..])
  }

  lemma LowerConcat(a: string, b: string)
    ensures ToLower(a + b) == ToLower(a) + ToLower(b)
  {
    var l, r := ToLower(a + b), ToLower(a) + ToLower(b);
    forall i | 0 <= i < |a| + |b|
      ensures l[i] == r[i]
    {
      if i < |a| {
        assert (a + b)[i] == a[i];
        assert r[i] == ToLower(a)[i] == LowerChar(a[i]);
      } else {
        assert (a + b)[i] == b[i - |a|];
        assert r[i] == ToLower(b)[i - |a|] == LowerChar(b[i - |a|]);
      }
    }
    assert |l| == |r|;
  }

  /** Upper-casing first does not change what lower-casing yields. */
  lemma LowerIgnoresUpper(s: string)
    ensures ToLower(ToUpper(s)) == ToLower(s)
  {
    var u := ToUpper(s);
    forall i | 0 <= i < |s|
      ensures ToLower(u)[i] == ToLower(s)[i]
    {
      assert u[i] == UpperChar(s[i]);
    }
  }

  /** A string without capital letters is its own lower-case form. */
  lemma LowerKeepsLower(s: string)
    requires forall i :: 0 <= i < |s| ==> !('A' <= s[i] <= 'Z')
    ensures ToLower(s) == s
  {
    forall i | 0 <= i < |s|
      ensures ToLower(s)[i] == s[i]
    {
    }
  }

  /** A string without capital letters occurs in its own lower-case form. */
  lemma LowerContainsItself(t: string)
    requires forall i :: 0 <= i < |t| ==> !('A' <= t[i] <= 'Z')
    ensures Contains(ToLower(t), t)
  {
    LowerKeepsLower(t);
    assert ToLower(t)[0..] == t;
  }

  /** JavaScript's `a < b` on strings: character by character, a proper prefix first. */
  predicate LexLess(a: string, b: string) {
    if a == [] then b != []
    else if b == [] then false
    else if a[0] != b[0] then a[0] < b[0]
    else LexLess(a[1..], b[1..])
  }

  lemma {:induction false} LexLessIrreflexive(a: string)
    ensures !LexLess(a, a)
  {
    if a != [] {
      LexLessIrreflexive(a[1..]);
    }
  }

  lemma {:induction false} LexLessTransitive(a: string, b: string, c: string)
    requires LexLess(a, b) && LexLess(b, c)
    ensures LexLess(a, c)
  {
    if a != [] && a[0] == b[0] && b[0] == c[0] {
      LexLessTransitive(a[1..], b[1..], c[1..]);
    }
  }

  lemma {:induction false} LexLessTotal(a: string, b: string)
    requires a != b
    ensures LexLess(a, b) || LexLess(b, a)
  {
    if a != [] && b != [] && a[0] == b[0] {
      assert a == [a[0]] + a[1..] && b == [b[0]] + b[1..];
      LexLessTotal(a[1..], b[1..]);
    }
  }

  lemma LexLessAsymmetric(a: string, b: string)
    requires LexLess(a, b)
    ensures !LexLess(b, a)
  {
    if LexLess(b, a) {
      LexLessTransitive(a, b, a);
      LexLessIrreflexive(a);
    }
  }

  /** "Not less than" chains: the order JavaScript gives strings is total. */
  lemma LexNotLessTransitive(a: string, b: string, c: string)
    requires !LexLess(a, b) && !LexLess(b, c)
    ensures !LexLess(a, c)
  {
    if a != b {
      LexLessTotal(a, b);
      if LexLess(a, c) {
        LexLessTransitive(b, a, c);
      }
    }
  }

  /** `parts.join(sep)`. */
  function Join(parts: seq<string>, sep: string): string {
    if parts == [] then ""
    else if |parts| == 1 then parts[0]
    else parts[0] + sep + Join(parts[1..], sep)
  }

  /** Every part appears in the joined text. */
  lemma {:induction false} JoinContainsPart(parts: seq<string>, sep: string, i: nat)
    requires i < |parts|
    ensures Contains(Join(parts, sep), parts[i])
  {
    if |parts| == 1 {
      ContainsMiddle("", parts[0], "");
      assert "" + parts[0] + "" == parts[0];
    } else if i == 0 {
      ContainsMiddle("", parts[0], sep + Join(parts[1..], sep));
      assert "" + parts[0] + (sep + Join(parts[1..], sep)) == Join(parts, sep);
    } else {
      JoinContainsPart(parts[1..], sep, i - 1);
      ContainsWithin(parts[0] + sep, Join(parts[1..], sep), "", parts[i]);
      assert parts[0] + sep + Join(parts[1..], sep) + "" == Join(parts, sep);
    }
  }
}
