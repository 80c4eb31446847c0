/**
 * Digit strings in a radix between 2 and 16, as JavaScript writes them with
 * `toString(radix)` (lower-case digits, no leading zero) and as `BigInt`
 * reads them (either case).
 */
module Radix {
  import opened Wrappers

  predicate ValidRadix(radix: nat) {
    2 <= radix <= 16
  }

  /** The lower-case character of digit `d`. */
  function DigitChar(d: nat): char
    requires d < 16
  {
    if d < 10 then ('0' as int + d) as char else ('a' as int + d - 10) as char
  }

  /** The value of a digit character in either case; 16 for any other character. */
  function DigitValue(c: char): (v: nat)
    ensures v <= 16
  {
    if '0' <= c <= '9' then c as int - '0' as int
    else if 'a' <= c <= 'f' then c as int - 'a' as int + 10
    else if 'A' <= c <= 'F' then c as int - 'A' as int + 10
    else 16
  }

  predicate IsDigit(c: char, radix: nat) {
    DigitValue(c) < radix
  }

  predicate AllDigits(s: string, radix: nat) {
    forall i :: 0 <= i < |s| ==> IsDigit(s[i], radix)
  }

  /** The number a digit string denotes, most significant digit first. */
  function DigitsValue(s: string, radix: nat): nat
    requires AllDigits(s, radix)
  {
    if s == [] then 0 else DigitsValue(s[..|s| - 1], radix) * radix + DigitValue(s[|s| - 1])
  }

  /** Reads a non-empty digit string; `None` for an empty string or a stray character. */
  function ParseDigits(s: string, radix: nat): Option<nat> {
    if |s| > 0 && AllDigits(s, radix) then Some(DigitsValue(s, radix)) else None
  }

  /** The quotient and remainder of one digit step. */
  lemma DivStep(n: nat, radix: nat)
    requires ValidRadix(radix) && n >= radix
    ensures 0 < n / radix < n && n % radix < radix
    ensures n == (n / radix) * radix + n % radix
  {
  }

  lemma DigitCharValue(d: nat)
    requires d < 16
    ensures DigitValue(DigitChar(d)) == d
    ensures !('A' <= DigitChar(d) <= 'Z')
  {
  }

  /** `n.toString(radix)` for a non-negative integer. */
  function NatToString(n: nat, radix: nat): (s: string)
    requires ValidRadix(radix)
    ensures |s| > 0 && AllDigits(s, radix)
    ensures s[0] == '0' <==> n == 0
    ensures forall i :: 0 <= i < |s| ==> !('A' <= s[i] <= 'Z')
    decreases n
  {
    if n < radix then
      DigitCharValue(n);
      [DigitChar(n)]
    else
      DivStep(n, radix);
      DigitCharValue(n % radix);
      NatToString(n / radix, radix) + [DigitChar(n % radix)]
  }

  /** `count` zero characters, as `padStart` fills with. */
  function Zeros(count: nat): (z: string)
    ensures |z| == count
  {
    seq(count, _ => '0')
  }

  lemma {:induction false} DigitsValueSnoc(s: string, c: char, radix: nat)
    requires AllDigits(s, radix) && IsDigit(c, radix)
    ensures AllDigits(s + [c], radix)
    ensures DigitsValue(s + [c], radix) == DigitsValue(s, radix) * radix + DigitValue(c)
  {
    assert (s + [c])[..|s|] == s;
  }

  /** Reading back what `NatToString` wrote gives the number again. */
  lemma {:induction false} NatToStringRoundTrip(n: nat, radix: nat)
    requires ValidRadix(radix)
    ensures DigitsValue(NatToString(n, radix), radix) == n
    decreases n
  {
    if n < radix {
      DigitCharValue(n);
    } else {
      DivStep(n, radix);
      DigitCharValue(n % radix);
      NatToStringRoundTrip(n / radix, radix);
      DigitsValueSnoc(NatToString(n / radix, radix), DigitChar(n % radix), radix);
    }
  }

  lemma ParseNatToString(n: nat, radix: nat)
    requires ValidRadix(radix)
    ensures ParseDigits(NatToString(n, radix), radix) == Some(n)
  {
    NatToStringRoundTrip(n, radix);
  }

  /** Distinct numbers have distinct digit strings. */
  lemma NatToStringInjective(a: nat, b: nat, radix: nat)
    requires ValidRadix(radix)
    ensures NatToString(a, radix) == NatToString(b, radix) ==> a == b
  {
    NatToStringRoundTrip(a, radix);
    NatToStringRoundTrip(b, radix);
  }

  /** Leading zero digits do not change the value of a digit string. */
  lemma {:induction false} LeadingZeros(count: nat, s: string, radix: nat)
    requires ValidRadix(radix) && AllDigits(s, radix)
    ensures AllDigits(Zeros(count) + s, radix)
    ensures DigitsValue(Zeros(count) + s, radix) == DigitsValue(s, radix)
    decreases |s|, count
  {
    var z := Zeros(count);
    assert AllDigits(z + s, radix) by {
      forall i | 0 <= i < |z + s| ensures IsDigit((z + s)[i], radix) {
        if i < |z| { assert (z + s)[i] == '0'; } else { assert (z + s)[i] == s[i - |z|]; }
      }
    }
    if s == [] {
      if count > 0 {
        assert (z + s)[..|z + s| - 1] == Zeros(count - 1) + [];
        LeadingZeros(count - 1, [], radix);
        assert (z + s)[|z + s| - 1] == '0';
      }
    } else {
      var init := s[..|s| - 1];
      assert (z + s)[..|z + s| - 1] == z + init;
      LeadingZeros(count, init, radix);
    }
  }
}
