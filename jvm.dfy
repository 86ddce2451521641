/**
 * The few JVM primitives the model needs: 32-bit `Int` arithmetic with
 * wrap-around, `String.hashCode`, and decimal rendering of integers
 * (`Int.toString`) together with a decimal reader used as its partner.
 */
module Jvm {
  import opened Wrappers

  newtype int32 = x: int | -0x8000_0000 <= x < 0x8000_0000

  /** Two's-complement truncation of an integer to 32 bits. */
  function Wrap(x: int): (r: int32)
    ensures (r as int - x) % 0x1_0000_0000 == 0
    ensures -0x8000_0000 <= x < 0x8000_0000 ==> r as int == x
  {
    var m := x % 0x1_0000_0000;
    if m < 0x8000_0000 then m as int32 else (m - 0x1_0000_0000) as int32
  }

  /** `Wrap` depends only on the value modulo 2^32. */
  lemma WrapMod(a: int, b: int)
    requires a % 0x1_0000_0000 == b % 0x1_0000_0000
    ensures Wrap(a) == Wrap(b)
  {
  }

  /** Adding after a wrap is the same as wrapping the sum. */
  lemma WrapShift(x: int, n: int)
    ensures Wrap(Wrap(x) as int + n) == Wrap(x + n)
  {
    assert (Wrap(x) as int - x) % 0x1_0000_0000 == 0;
    WrapMod(Wrap(x) as int + n, x + n);
  }

  function Pow31(k: nat): nat
  {
    if k == 0 then 1 else 31 * Pow31(k - 1)
  }

  /** `s[0]*31^(n-1) + s[1]*31^(n-2) + ... + s[n-1]`, the documented value of `String.hashCode`. */
  function HashPoly(s: string): int
  {
    if s == [] then 0 else s[0] as int * Pow31(|s| - 1) + HashPoly(s[1..])
  }

  /** One more character multiplies the polynomial by 31 and adds the character. */
  lemma {:induction false} HashPolySnoc(s: string, c: char)
    ensures HashPoly(s + [c]) == 31 * HashPoly(s) + c as int
  {
    if s == [] {
      assert [c][1..] == [];
    } else {
      assert (s + [c])[1..] == s[1..] + [c];
      HashPolySnoc(s[1..], c);
      assert Pow31(|s|) == 31 * Pow31(|s| - 1);
    }
  }

  /** One step of the hash loop keeps the running hash congruent to the polynomial. */
  lemma HashStep(p: string, c: char, h: int32)
    requires (h as int - HashPoly(p)) % 0x1_0000_0000 == 0
    ensures (Wrap(31 * h as int + c as int) as int - HashPoly(p + [c])) % 0x1_0000_0000 == 0
  {
    HashPolySnoc(p, c);
    var q := (h as int - HashPoly(p)) / 0x1_0000_0000;
    var w := Wrap(31 * h as int + c as int) as int;
    var r := (w - (31 * h as int + c as int)) / 0x1_0000_0000;
    assert w - HashPoly(p + [c]) == 0x1_0000_0000 * (r + 31 * q);
  }

  /**
   * `String.hashCode`: `h = 31 * h + c` over the characters, wrapping at 32
   * bits; the result is the documented polynomial taken modulo 2^32.
   */
  function StringHash(s: string): (h: int32)
    ensures (h as int - HashPoly(s)) % 0x1_0000_0000 == 0
  {
    if s == [] then 0
    else
      var p, c := s[..|s| - 1], s[|s| - 1];
      HashStep(p, c, StringHash(p));
      assert p + [c] == s;
      Wrap(31 * StringHash(p) as int + c as int)
  }

  // ---------------------------------------------------------------------
  // Decimal text.

  function DigitChar(d: nat): (c: char)
    requires d < 10
    ensures '0' <= c <= '9'
  {
    "0123456789"[d]
  }

  predicate IsDigit(c: char) { '0' <= c <= '9' }

  /** Decimal digits of a natural number, most significant first, no leading zeros. */
  function NatToString(n: nat): (s: string)
    ensures |s| >= 1 && forall i :: 0 <= i < |s| ==> IsDigit(s[i])
    ensures |s| > 1 ==> s[0] != '0'
    decreases n
  {
    if n < 10 then [DigitChar(n)] else NatToString(n / 10) + [DigitChar(n % 10)]
  }

  /** `Int.toString`: a minus sign for negative values, then the digits. */
  function IntToString(n: int): (s: string)
    ensures |s| >= 1 && (s[0] == '-' <==> n < 0)
    ensures forall i :: 0 <= i < |s| ==> s[i] == '-' || IsDigit(s[i])
    ensures forall i :: 0 < i < |s| ==> IsDigit(s[i])
  {
    if n < 0 then "-" + NatToString(-n) else NatToString(n)
  }

  /** The value of a string of decimal digits. */
  function DigitsValue(s: string): nat
    requires forall i :: 0 <= i < |s| ==> IsDigit(s[i])
  {
    if s == [] then 0
    else
      assert IsDigit(s[|s| - 1]);
      10 * DigitsValue(s[..|s| - 1]) + (s[|s| - 1] as int - '0' as int)
  }

  /** Reads an optionally negative decimal integer; anything else is `None`. */
  function ParseInt(s: string): Option<int>
  {
    if |s| >= 2 && s[0] == '-' && forall i :: 1 <= i < |s| ==> IsDigit(s[i]) then
      var v: int := 0 - DigitsValue(s[1..]) as int;
      Some(v)
    else if |s| >= 1 && forall i :: 0 <= i < |s| ==> IsDigit(s[i]) then
      Some(DigitsValue(s))
    else None
  }

  lemma DigitCharValue(d: nat)
    requires d < 10
    ensures DigitChar(d) as int - '0' as int == d
  {
  }

  lemma {:induction false} NatToStringValue(n: nat)
    ensures DigitsValue(NatToString(n)) == n
    decreases n
  {
    DigitCharValue(n % 10);
    if n >= 10 {
      NatToStringValue(n / 10);
      var s := NatToString(n);
      assert s[..|s| - 1] == NatToString(n / 10);
    }
  }

  /** The digits of a natural number read back as that number. */
  lemma NatRoundTrip(n: nat)
    ensures ParseInt(NatToString(n)) == Some(n)
  {
    NatToStringValue(n);
    assert IsDigit(NatToString(n)[0]);
  }

  /** A minus sign followed by the digits of `n` reads back as `-n`. */
  lemma NegRoundTrip(n: nat)
    ensures ParseInt("-" + NatToString(n)) == Some(0 - n as int)
  {
    var t := NatToString(n);
    var s := "-" + t;
    NatToStringValue(n);
    assert s[1..] == t;
    assert forall i :: 1 <= i < |s| ==> s[i] == t[i - 1];
    assert |s| >= 2 && s[0] == '-' && forall i :: 1 <= i < |s| ==> IsDigit(s[i]);
    assert DigitsValue(s[1..]) == n;
  }

  /** Round trip: reading back the decimal rendering of an integer gives the integer. */
  lemma IntToStringRoundTrip(n: int)
    ensures ParseInt(IntToString(n)) == Some(n)
  {
    if n < 0 {
      var m: nat := -n;
      NegRoundTrip(m);
      assert IntToString(n) == "-" + NatToString(m);
    } else {
      NatRoundTrip(n);
      assert IntToString(n) == NatToString(n);
    }
  }

  lemma IntToStringInjective(a: int, b: int)
    ensures IntToString(a) == IntToString(b) <==> a == b
  {
    if IntToString(a) == IntToString(b) {
      IntToStringRoundTrip(a);
      IntToStringRoundTrip(b);
    }
  }

  /** Two integers joined by `", "` can be split back apart. */
  lemma IntPairInjective(a: int, b: int, c: int, d: int)
    requires IntToString(a) + ", " + IntToString(b) == IntToString(c) + ", " + IntToString(d)
    ensures a == c && b == d
  {
    var sa, sb, sc, sd := IntToString(a), IntToString(b), IntToString(c), IntToString(d);
    var left, right := sa + ", " + sb, sc + ", " + sd;
    CommaAfter(sa, sb);
    CommaAfter(sc, sd);
    assert |sa| == |sc|;
    assert sa == left[..|sa|] && sc == right[..|sc|];
    assert sb == left[|sa| + 2..] && sd == right[|sc| + 2..];
    IntToStringInjective(a, c);
    IntToStringInjective(b, d);
  }

  /** In `x + ", " + y` with `x` free of commas, the first comma sits right after `x`. */
  lemma CommaAfter(x: string, y: string)
    requires forall i :: 0 <= i < |x| ==> x[i] == '-' || IsDigit(x[i])
    ensures (x + ", " + y)[|x|] == ','
    ensures forall i :: 0 <= i < |x| ==> (x + ", " + y)[i] != ','
  {
  }
}
