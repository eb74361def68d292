/**
 * Rendering of natural numbers as digit strings, as `Number.prototype.toString(base)`
 * does for non-negative integers (lower-case digits), and the matching parser.
 */
module Numerals {

  predicate ValidBase(base: nat) { 2 <= base <= 16 }

  function DigitChar(d: nat): (c: char)
    requires d < 16
  {
    if d < 10 then ('0' as int + d) as char else ('a' as int + d - 10) as char
  }

  /** The value of a digit character in base `base`, if it is one. */
  function DigitValue(c: char, base: nat): (r: int)
    requires ValidBase(base)
    ensures r < base
  {
    if '0' <= c <= '9' && (c as int - '0' as int) < base then c as int - '0' as int
    else if 'a' <= c <= 'f' && (c as int - 'a' as int + 10) < base then c as int - 'a' as int + 10
    else -1
  }

  predicate IsDigit(c: char, base: nat)
    requires ValidBase(base)
  {
    DigitValue(c, base) >= 0
  }

  predicate AllDigits(s: string, base: nat)
    requires ValidBase(base)
  {
    forall i :: 0 <= i < |s| ==> IsDigit(s[i], base)
  }

  lemma DigitRoundTrip(d: nat, base: nat)
    requires ValidBase(base) && d < base
    ensures DigitValue(DigitChar(d), base) == d
  {
  }

  lemma DivModFacts(n: nat, base: nat)
    requires ValidBase(base)
    ensures n == (n / base) * base + n % base
    ensures 0 <= n % base < base
    ensures n >= base ==> 0 < n / base < n
  {
  }

  /** `n.toString(base)`: most significant digit first, no leading zeros, "0" for zero. */
  function NatToString(n: nat, base: nat): (r: string)
    requires ValidBase(base)
    ensures |r| >= 1
    ensures AllDigits(r, base)
    ensures n > 0 ==> r[0] != '0'
    decreases n
  {
    DivModFacts(n, base);
    DigitRoundTrip(n % base, base);
    if n < base then [DigitChar(n)]
    else
      var high := NatToString(n / base, base);
      var r := high + [DigitChar(n % base)];
      assert forall i :: 0 <= i < |high| ==> r[i] == high[i];
      r
  }

  /** The number a string of digits denotes (`parseInt(s, base)` on digit-only input). */
  function ParseNat(s: string, base: nat): (r: nat)
    requires ValidBase(base)
    requires AllDigits(s, base)
    decreases |s|
  {
    if |s| == 0 then 0
    else ParseNat(s[..|s| - 1], base) * base + DigitValue(s[|s| - 1], base)
  }

  /** Parsing undoes rendering. */
  lemma {:induction false} ParseNatToString(n: nat, base: nat)
    requires ValidBase(base)
    ensures ParseNat(NatToString(n, base), base) == n
    decreases n
  {
    DivModFacts(n, base);
    DigitRoundTrip(n % base, base);
    if n >= base {
      var r := NatToString(n, base);
      ParseNatToString(n / base, base);
      assert r[..|r| - 1] == NatToString(n / base, base);
    }
  }

  /** Different numbers render differently. */
  lemma NatToStringInjective(a: nat, b: nat, base: nat)
    requires ValidBase(base)
    requires NatToString(a, base) == NatToString(b, base)
    ensures a == b
  {
    ParseNatToString(a, base);
    ParseNatToString(b, base);
  }

  function Power(base: nat, k: nat): nat
  {
    if k == 0 then 1 else base * Power(base, k - 1)
  }

  /** A number below `base^k` needs at most `k` digits. */
  lemma {:induction false} NatToStringLength(n: nat, base: nat, k: nat)
    requires ValidBase(base)
    requires 1 <= k && n < Power(base, k)
    ensures |NatToString(n, base)| <= k
    decreases k
  {
    if n >= base {
      assert Power(base, k) == base * Power(base, k - 1);
      assert Power(base, 1) == base;
      assert k > 1;
      DivBelow(n, base, Power(base, k - 1));
      NatToStringLength(n / base, base, k - 1);
    }
  }

  /** Dividing a number below `base * p` by `base` leaves a number below `p`. */
  lemma DivBelow(n: nat, base: nat, p: nat)
    requires base > 0 && n < base * p
    ensures n / base < p
  {
    var q := n / base;
    assert n == q * base + n % base;
    assert q * base < p * base;
    assert (p - q) * base == p * base - q * base;
  }

  /** A string of `k` digits denotes a number below `base^k`. */
  lemma {:induction false} ParseNatBound(s: string, base: nat)
    requires ValidBase(base) && AllDigits(s, base)
    ensures ParseNat(s, base) < Power(base, |s|)
    decreases |s|
  {
    if |s| > 0 {
      var t := s[..|s| - 1];
      assert AllDigits(t, base) by {
        forall i | 0 <= i < |t| ensures IsDigit(t[i], base) {
          assert t[i] == s[i];
        }
      }
      ParseNatBound(t, base);
      var p := ParseNat(t, base);
      var q := Power(base, |t|);
      var dv := DigitValue(s[|s| - 1], base);
      assert ParseNat(s, base) == p * base + dv;
      assert Power(base, |s|) == base * q;
      NextDigitBound(p, q, dv, base);
    }
  }

  lemma NextDigitBound(p: nat, q: nat, dv: int, base: nat)
    requires p < q && dv < base
    ensures p * base + dv < base * q
  {
    assert (p + 1) * base <= q * base;
  }

  /** `s.padStart(width, '0')`. */
  function PadZeros(s: string, width: nat): (r: string)
    ensures |s| <= width ==> |r| == width
    ensures |s| >= width ==> r == s
    ensures |s| <= width ==> r[width - |s|..] == s
    ensures forall i :: 0 <= i < |r| - |s| ==> r[i] == '0'
  {
    if |s| >= width then s else seq(width - |s|, _ => '0') + s
  }

  /** Leading zeros do not change the parsed value. */
  lemma {:induction false} ParseNatLeadingZeros(z: nat, s: string, base: nat)
    requires ValidBase(base) && AllDigits(s, base)
    ensures AllDigits(seq(z, _ => '0') + s, base)
    ensures ParseNat(seq(z, _ => '0') + s, base) == ParseNat(s, base)
    decreases |s|
  {
    var t := seq(z, _ => '0') + s;
    if |s| == 0 {
      assert t == seq(z, _ => '0');
      ZerosParseToZero(z, base);
    } else {
      ParseNatLeadingZeros(z, s[..|s| - 1], base);
      assert t[..|t| - 1] == seq(z, _ => '0') + s[..|s| - 1];
    }
  }

  lemma {:induction false} ZerosParseToZero(z: nat, base: nat)
    requires ValidBase(base)
    ensures AllDigits(seq(z, _ => '0'), base)
    ensures ParseNat(seq(z, _ => '0'), base) == 0
    decreases z
  {
    if z > 0 {
      ZerosParseToZero(z - 1, base);
      assert seq(z, _ => '0')[..z - 1] == seq(z - 1, _ => '0');
    }
  }

  /** Zero-padding keeps the value. */
  lemma PadZerosParse(s: string, width: nat, base: nat)
    requires ValidBase(base) && AllDigits(s, base)
    ensures AllDigits(PadZeros(s, width), base)
    ensures ParseNat(PadZeros(s, width), base) == ParseNat(s, base)
  {
    if |s| < width {
      ParseNatLeadingZeros(width - |s|, s, base);
    }
  }
}
