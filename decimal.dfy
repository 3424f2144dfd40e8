/** Decimal text of integers, as the renderer writes command parameters,
    and the reading of that text back into an integer. */
module Decimal {

  import opened Wrappers

  predicate IsDigit(c: char) {
    '0' <= c <= '9'
  }

  function DigitChar(d: nat): (c: char)
    requires d < 10
    ensures IsDigit(c) && DigitValue(c) == d
  {
    ['0', '1', '2', '3', '4', '5', '6', '7', '8', '9'][d]
  }

  function DigitValue(c: char): nat
    requires IsDigit(c)
  {
    (c as int - '0' as int) as nat
  }

  predicate AllDigits(s: string) {
    forall i :: 0 <= i < |s| ==> IsDigit(s[i])
  }

  /** The value of a run of decimal digits, most significant first. */
  function DigitsValue(s: string): nat
    requires AllDigits(s)
  {
    if s == [] then 0 else DigitsValue(s[..|s| - 1]) * 10 + DigitValue(s[|s| - 1])
  }

  /** Decimal digits of a natural number, most significant first. */
  function NatToString(n: nat): (s: string)
    ensures |s| > 0 && IsDigit(s[0])
  {
    if n < 10 then [DigitChar(n)] else NatToString(n / 10) + [DigitChar(n % 10)]
  }

  /** The digits of n are digits that spell n, without a leading zero. */
  lemma {:induction false} NatToStringSpells(n: nat)
    ensures AllDigits(NatToString(n)) && DigitsValue(NatToString(n)) == n
    ensures |NatToString(n)| > 1 ==> NatToString(n)[0] != '0'
  {
    var s := NatToString(n);
    if n >= 10 {
      var front := NatToString(n / 10);
      NatToStringSpells(n / 10);
      assert s == front + [DigitChar(n % 10)];
      assert s[..|s| - 1] == front;
    }
  }

  /** Decimal text of an integer: a minus sign before the digits of a negative one. */
  function IntToString(n: int): (s: string)
    ensures |s| > 0 && (s[0] == '-' || IsDigit(s[0]))
    ensures s[0] == '-' <==> n < 0
    ensures ReadInt(s) == Some((n, []))
  {
    if n < 0 then
      var d := NatToString(-n);
      NatToStringSpells(-n);
      ReadNegatedDigits(d, []);
      assert d + [] == d;
      "-" + d
    else
      var d := NatToString(n);
      NatToStringSpells(n);
      ReadDigits(d, []);
      assert d + [] == d;
      d
  }

  /** Number of leading decimal digits of s. */
  function DigitRun(s: string): (k: nat)
    ensures k <= |s| && AllDigits(s[..k])
    ensures k < |s| ==> !IsDigit(s[k])
  {
    if s == [] || !IsDigit(s[0]) then 0
    else
      var k := 1 + DigitRun(s[1..]);
      assert s[..k] == [s[0]] + s[1..][..k - 1];
      k
  }

  /** Reads an optionally signed decimal integer at the start of s; returns it and
      the text after it, or None when s does not start with one. */
  function ReadInt(s: string): (r: Option<(int, string)>)
    ensures r.Some? ==> |r.value.1| < |s|
  {
    var neg := |s| > 0 && s[0] == '-';
    var body := if neg then s[1..] else s;
    var k := DigitRun(body);
    if k == 0 then None
    else
      var v: int := DigitsValue(body[..k]);
      Some((if neg then -v else v, body[k..]))
  }

  lemma {:induction false} DigitRunOfDigits(d: string, t: string)
    requires AllDigits(d)
    requires t == [] || !IsDigit(t[0])
    ensures DigitRun(d + t) == |d|
  {
    if d != [] {
      assert (d + t)[1..] == d[1..] + t;
      DigitRunOfDigits(d[1..], t);
    } else {
      assert d + t == t;
    }
  }

  /** An unsigned run of digits followed by a non-digit reads as its value. */
  lemma ReadDigits(d: string, t: string)
    requires d != [] && AllDigits(d)
    requires t == [] || !IsDigit(t[0])
    ensures ReadInt(d + t) == Some((DigitsValue(d) as int, t))
  {
    DigitRunOfDigits(d, t);
    SplitAt(d, t);
  }

  /** A minus sign, a run of digits and a non-digit read as the negated value. */
  lemma ReadNegatedDigits(d: string, t: string)
    requires d != [] && AllDigits(d)
    requires t == [] || !IsDigit(t[0])
    ensures ReadInt("-" + (d + t)) == Some((-(DigitsValue(d) as int), t))
  {
    var u := d + t;
    DigitRunOfDigits(d, t);
    SplitAt(d, t);
    ReadSigned(u);
  }

  /** A minus sign followed by digits reads as the negated value of those digits. */
  lemma ReadSigned(u: string)
    requires DigitRun(u) > 0
    ensures var k := DigitRun(u);
      ReadInt("-" + u) == Some((-(DigitsValue(u[..k]) as int), u[k..]))
  {
    DropSign(u);
  }

  /** Reading back the text of an integer gives the integer and leaves what follows,
      provided what follows does not continue the digits. */
  lemma ReadIntToString(n: int, t: string)
    requires t == [] || !IsDigit(t[0])
    ensures ReadInt(IntToString(n) + t) == Some((n, t))
  {
    if n < 0 {
      assert IntToString(n) == "-" + NatToString(-n);
      ReadNegativeText(-n, t);
    } else {
      assert IntToString(n) == NatToString(n);
      ReadNaturalText(n, t);
    }
  }

  lemma ReadNaturalText(m: nat, t: string)
    requires t == [] || !IsDigit(t[0])
    ensures ReadInt(NatToString(m) + t) == Some((m, t))
  {
    NatToStringSpells(m);
    ReadDigits(NatToString(m), t);
  }

  lemma ReadNegativeText(m: nat, t: string)
    requires m > 0
    requires t == [] || !IsDigit(t[0])
    ensures ReadInt("-" + NatToString(m) + t) == Some((-(m as int), t))
  {
    var d := NatToString(m);
    NatToStringSpells(m);
    ReadNegatedDigits(d, t);
    Assoc3("-", d, t);
  }

  // Slicing and regrouping identities, stated once so that the proofs of this
  // module stay small and stable across solver seeds.

  lemma SplitAt(d: string, t: string)
    ensures (d + t)[..|d|] == d && (d + t)[|d|..] == t
  {
  }

  lemma DropSign(u: string)
    ensures ("-" + u)[0] == '-' && ("-" + u)[1..] == u
  {
  }

  lemma Assoc3(a: string, b: string, c: string)
    ensures a + b + c == a + (b + c)
  {
  }

  /** Different integers have different texts. */
  lemma IntToStringInjective(m: int, n: int)
    requires IntToString(m) == IntToString(n)
    ensures m == n
  {
    ReadIntToString(m, []);
    ReadIntToString(n, []);
    assert IntToString(m) + [] == IntToString(n) + [];
  }
}
