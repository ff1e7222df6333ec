/**
 * The string functions of PHP that the statement builder relies on:
 * implode, the decimal rendering of an integer, and a character count
 * used to talk about placeholders.
 */
module Strings {

  /** PHP's implode(sep, parts): the parts in order, with sep between neighbours. */
  function Implode(sep: string, parts: seq<string>): (r: string)
    ensures |parts| == 0 ==> r == ""
    ensures |parts| == 1 ==> r == parts[0]
    decreases |parts|
  {
    if |parts| == 0 then ""
    else if |parts| == 1 then parts[0]
    else Implode(sep, parts[..|parts| - 1]) + sep + parts[|parts| - 1]
  }

  /** The number of times c occurs in s. */
  function Count(c: char, s: string): (n: nat)
    ensures n <= |s|
    ensures n == 0 <==> c !in s
  {
    if s == [] then 0
    else (if s[0] == c then 1 else 0) + Count(c, s[1..])
  }

  /** The number of times c occurs in all of parts together. */
  function CountAll(c: char, parts: seq<string>): nat
    decreases |parts|
  {
    if |parts| == 0 then 0 else CountAll(c, parts[..|parts| - 1]) + Count(c, parts[|parts| - 1])
  }

  lemma {:induction false} CountConcat(c: char, a: string, b: string)
    ensures Count(c, a + b) == Count(c, a) + Count(c, b)
    decreases |a|
  {
    if a != [] {
      assert (a + b)[1..] == a[1..] + b;
      CountConcat(c, a[1..], b);
    } else {
      assert a + b == b;
    }
  }

  /** A separator that does not hold c adds no c to the imploded string. */
  lemma {:induction false} CountImplode(c: char, sep: string, parts: seq<string>)
    requires c !in sep
    ensures Count(c, Implode(sep, parts)) == CountAll(c, parts)
    decreases |parts|
  {
    if |parts| == 1 {
      assert parts[..0] == [];
    } else if |parts| > 1 {
      var init := parts[..|parts| - 1];
      CountImplode(c, sep, init);
      CountConcat(c, Implode(sep, init), sep);
      CountConcat(c, Implode(sep, init) + sep, parts[|parts| - 1]);
    }
  }

  /** The imploded text starts with the first part. */
  lemma {:induction false} ImplodeStartsWithFirst(sep: string, parts: seq<string>)
    requires |parts| > 0
    ensures parts[0] <= Implode(sep, parts)
    decreases |parts|
  {
    if |parts| > 1 {
      var init := parts[..|parts| - 1];
      ImplodeStartsWithFirst(sep, init);
      assert init[0] == parts[0];
    }
  }

  /** A character found neither in the separator nor in any part is not in the imploded string. */
  lemma {:induction false} ImplodeFree(c: char, sep: string, parts: seq<string>)
    requires c !in sep
    requires forall i :: 0 <= i < |parts| ==> c !in parts[i]
    ensures c !in Implode(sep, parts)
    decreases |parts|
  {
    if |parts| > 1 {
      ImplodeFree(c, sep, parts[..|parts| - 1]);
    }
  }

  /** Imploding [a] + rest peels a off the front. */
  lemma {:induction false} ImplodeCons(sep: string, a: string, rest: seq<string>)
    requires |rest| > 0
    ensures Implode(sep, [a] + rest) == a + sep + Implode(sep, rest)
    decreases |rest|
  {
    var parts := [a] + rest;
    if |rest| == 1 {
      assert parts[..1] == [a];
    } else {
      assert parts[..|parts| - 1] == [a] + rest[..|rest| - 1];
      ImplodeCons(sep, a, rest[..|rest| - 1]);
    }
  }

  /** Imploding two non-empty lists one after the other puts one separator between them. */
  lemma {:induction false} ImplodeConcat(sep: string, a: seq<string>, b: seq<string>)
    requires |a| > 0 && |b| > 0
    ensures Implode(sep, a + b) == Implode(sep, a) + sep + Implode(sep, b)
    decreases |b|
  {
    var ab := a + b;
    if |b| == 1 {
      assert ab[..|ab| - 1] == a;
    } else {
      var init := b[..|b| - 1];
      assert ab[..|ab| - 1] == a + init;
      ImplodeConcat(sep, a, init);
    }
  }

  /** The decimal digit for d. */
  function DigitChar(d: nat): (c: char)
    requires d < 10
    ensures '0' <= c <= '9'
  {
    "0123456789"[d]
  }

  predicate IsDigits(s: string) {
    forall i :: 0 <= i < |s| ==> '0' <= s[i] <= '9'
  }

  /** The decimal rendering of a natural number, most significant digit first, without leading zeros. */
  function NatString(n: nat): (s: string)
    ensures |s| > 0 && IsDigits(s)
    ensures |s| > 1 ==> s[0] != '0'
    decreases n
  {
    if n < 10 then [DigitChar(n)] else NatString(n / 10) + [DigitChar(n % 10)]
  }

  /** PHP's conversion of an int to a string: a minus sign for negatives, then the digits, without leading zeros. */
  function IntString(i: int): (s: string)
    ensures |s| > 0
    ensures (s[0] == '-') <==> i < 0
    ensures IsDigits(if i < 0 then s[1..] else s)
    ensures '?' !in s && '`' !in s
    ensures DigitsValue(if i < 0 then s[1..] else s) == (if i < 0 then -i else i)
    ensures var d := if i < 0 then s[1..] else s; |d| > 1 ==> d[0] != '0'
  {
    if i < 0 then
      var d := NatString(-i);
      NatStringRoundTrip(-i);
      DigitsAreNotMarks(d);
      assert ("-" + d)[1..] == d;
      "-" + d
    else
      NatStringRoundTrip(i);
      DigitsAreNotMarks(NatString(i));
      NatString(i)
  }

  lemma DigitsAreNotMarks(s: string)
    requires IsDigits(s)
    ensures '?' !in s && '`' !in s && '-' !in s
  {
  }

  /** The number a string of decimal digits denotes: the reference reading of NatString. */
  function DigitsValue(s: string): nat
    requires IsDigits(s)
    decreases |s|
  {
    if s == [] then 0
    else DigitsValue(s[..|s| - 1]) * 10 + (s[|s| - 1] as int - '0' as int)
  }

  /** Reading the digits back gives the number: distinct integers render distinctly. */
  lemma {:induction false} NatStringRoundTrip(n: nat)
    ensures DigitsValue(NatString(n)) == n
    decreases n
  {
    var s := NatString(n);
    if n >= 10 {
      NatStringRoundTrip(n / 10);
      assert s[..|s| - 1] == NatString(n / 10);
    }
  }

  /** Distinct integers render as distinct strings, so distinct integer keys name distinct columns. */
  lemma IntStringInjective(a: int, b: int)
    requires IntString(a) == IntString(b)
    ensures a == b
  {
    var s := IntString(a);
    assert (s[0] == '-') == (a < 0) == (b < 0);
  }
}
