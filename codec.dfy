/**
 * The numeric codec: integers to hex strings (`numberToHex`,
 * `numberToHexUnpadded`, `ethNum`), hex strings to integers (`hexToNumber`)
 * and the lenient parser `fromNum`. Numbers are non-negative integers.
 */
module HexCodec {
  import opened Wrappers
  import opened Js
  import Radix

  /** The argument of `ethNum` and `fromNum`: a number or bigint, a string, or `undefined`. */
  datatype Numeric = Absent | Int(n: nat) | Text(s: string)

  function Max(a: int, b: int): int {
    if a < b then b else a
  }

  /** `n.toString(16)`. */
  function ToHex(n: nat): string {
    Radix.NatToString(n, 16)
  }

  /** Prepends one `0` to an odd number of digits. */
  function EvenPad(hex: string): (r: string)
    ensures |r| % 2 == 0
  {
    if |hex| % 2 == 1 then "0" + hex else hex
  }

  /** `s.padStart(width, '0')`: zeros on the left up to `width`; never shortens `s`. */
  function PadStart(s: string, width: int): string {
    if |s| >= width then s else Radix.Zeros(width - |s|) + s
  }

  /** `numberToHex(n, byteLength)`: throws for a zero byte length. */
  function NumberToHex(n: nat, byteLength: nat): Result<string, Error> {
    if byteLength == 0 then Failure(Error("byteLength target must be specified"))
    else Success(PadStart(EvenPad(ToHex(n)), byteLength * 2))
  }

  /** `/^0x/i.test(s)`. */
  predicate Has0x(s: string) {
    |s| >= 2 && s[0] == '0' && (s[1] == 'x' || s[1] == 'X')
  }

  /** `add0x(hex)`. */
  function Add0x(hex: string): (r: string)
    ensures Has0x(r)
  {
    if Has0x(hex) then hex else "0x" + hex
  }

  /** `numberToHexUnpadded(n)`. */
  function NumberToHexUnpadded(n: nat): string {
    EvenPad(ToHex(n))
  }

  /** `hexToNumber(hex)`: empty is zero, anything else is `BigInt(add0x(hex))`. */
  function HexToNumber(hex: string): Result<nat, Error> {
    if hex == "" then Success(0) else ParsePrefixed(Add0x(hex))
  }

  /** `s.replace(/^0+/, '')`. */
  function StripLeadingZeros(s: string): string
    decreases |s|
  {
    if s != [] && s[0] == '0' then StripLeadingZeros(s[1..]) else s
  }

  /** The quantity encoding of a number, as `ethNum` finishes it. */
  function Quantity(n: nat): string {
    if n == 0 then "0x0" else Add0x(StripLeadingZeros(NumberToHexUnpadded(n)))
  }

  /** `ethNum(q)`: a string argument is read as hex (with or without `0x`). */
  function EthNum(q: Numeric): Result<string, Error> {
    match q
    case Absent => Success(Quantity(0))
    case Int(n) => Success(Quantity(n))
    case Text(s) =>
      match HexToNumber(s)
      case Success(n) => Success(Quantity(n))
      case Failure(e) => Failure(e)
  }

  /** `fromNum(q)`: a string with a lower-case `0x` goes through `hexToNumber`, any other through `BigInt`. */
  function FromNum(q: Numeric): Result<int, Error> {
    match q
    case Absent => Failure(TypeError)
    case Int(n) => Success(n)
    case Text(s) =>
      if StartsWith(s, "0x") then
        match HexToNumber(s)
        case Success(n) => var i: int := n; Success(i)
        case Failure(e) => Failure(e)
      else ParseBigInt(s)
  }

  // ---------------------------------------------------------------------------
  // Properties

  /** `add0x` adds the prefix exactly when no `0x` or `0X` is there, and is idempotent. */
  lemma Add0xSpec(hex: string)
    ensures Add0x(hex) == hex <==> Has0x(hex)
    ensures !Has0x(hex) ==> Add0x(hex) == "0x" + hex
    ensures Add0x(Add0x(hex)) == Add0x(hex)
  {
  }

  /** A string of hex digits never starts with `0x`, so `hexToNumber` reads it as hex. */
  lemma HexDigitsReadBack(s: string)
    requires |s| > 0 && Radix.AllDigits(s, 16)
    ensures HexToNumber(s) == Success(Radix.DigitsValue(s, 16))
  {
    assert Radix.IsDigit(s[0], 16);
    if |s| >= 2 { assert Radix.IsDigit(s[1], 16); }
    assert !Has0x(s);
    assert ("0x" + s)[2..] == s;
  }

  /** Zeros in front of `n.toString(16)` read back to `n`. */
  lemma PaddedHexReadsBack(k: nat, n: nat)
    ensures Radix.AllDigits(Radix.Zeros(k) + ToHex(n), 16)
    ensures HexToNumber(Radix.Zeros(k) + ToHex(n)) == Success(n)
  {
    Radix.LeadingZeros(k, ToHex(n), 16);
    Radix.NatToStringRoundTrip(n, 16);
    HexDigitsReadBack(Radix.Zeros(k) + ToHex(n));
  }

  /** `hexToNumber` of the empty string is zero. */
  lemma HexToNumberEmpty()
    ensures HexToNumber("") == Success(0)
  {
  }

  /**
   * `numberToHex` throws for a zero byte length; otherwise it yields an even
   * number of digits, at least `2 * byteLength` and never fewer than the
   * even-padded digits of `n`, and they read back to `n`.
   */
  lemma NumberToHexSpec(n: nat, byteLength: nat)
    ensures NumberToHex(n, byteLength).Failure? <==> byteLength == 0
    ensures byteLength > 0 ==>
      var r := NumberToHex(n, byteLength).value;
      && |r| == Max(2 * byteLength, |NumberToHexUnpadded(n)|)
      && |r| % 2 == 0
      && HexToNumber(r) == Success(n)
  {
    if byteLength > 0 {
      NumberToHexLength(n, byteLength);
      PaddedHexReadsBack(PaddedWidth(n, byteLength), n);
    }
  }

  lemma NumberToHexLength(n: nat, byteLength: nat)
    requires byteLength > 0
    ensures |NumberToHex(n, byteLength).value| == Max(2 * byteLength, |NumberToHexUnpadded(n)|)
    ensures |NumberToHex(n, byteLength).value| % 2 == 0
  {
  }

  /** The zeros `numberToHex` ends up putting in front of `n.toString(16)`. */
  function PaddedWidth(n: nat, byteLength: nat): (k: nat)
    requires byteLength > 0
    ensures NumberToHex(n, byteLength).value == Radix.Zeros(k) + ToHex(n)
  {
    var p1 := NumberToHexUnpadded(n);
    var pad := EvenPadWidth(n);
    var extra := if |p1| >= 2 * byteLength then 0 else 2 * byteLength - |p1|;
    assert PadStart(p1, byteLength * 2) == Radix.Zeros(extra) + p1;
    ZerosConcat(extra, pad, ToHex(n));
    extra + pad
  }

  /** How many zeros `numberToHexUnpadded` puts in front of `n.toString(16)`. */
  function EvenPadWidth(n: nat): (pad: nat)
    ensures NumberToHexUnpadded(n) == Radix.Zeros(pad) + ToHex(n)
  {
    var pad := if |ToHex(n)| % 2 == 1 then 1 else 0;
    assert EvenPad(ToHex(n)) == Radix.Zeros(pad) + ToHex(n);
    pad
  }

  lemma ZerosConcat(a: nat, b: nat, s: string)
    ensures Radix.Zeros(a) + (Radix.Zeros(b) + s) == Radix.Zeros(a + b) + s
  {
    assert Radix.Zeros(a) + Radix.Zeros(b) == Radix.Zeros(a + b);
  }

  /** `numberToHexUnpadded` yields an even number of digits that read back to `n`, with or without `0x`. */
  lemma NumberToHexUnpaddedSpec(n: nat)
    ensures |NumberToHexUnpadded(n)| % 2 == 0
    ensures HexToNumber(NumberToHexUnpadded(n)) == Success(n)
    ensures HexToNumber(Add0x(NumberToHexUnpadded(n))) == Success(n)
  {
    PaddedHexReadsBack(EvenPadWidth(n), n);
    Add0xSpec(NumberToHexUnpadded(n));
  }

  lemma {:induction false} StripZerosOfHex(k: nat, n: nat)
    requires n > 0
    ensures StripLeadingZeros(Radix.Zeros(k) + ToHex(n)) == ToHex(n)
    decreases k
  {
    if k > 0 {
      assert (Radix.Zeros(k) + ToHex(n))[1..] == Radix.Zeros(k - 1) + ToHex(n);
      StripZerosOfHex(k - 1, n);
    }
  }

  /**
   * `ethNum`: zero and `undefined` give exactly `0x0`; any other number gives
   * `0x` and its hex digits with no leading zero (so possibly an odd count),
   * which read back to the number.
   */
  lemma EthNumSpec(n: nat)
    ensures EthNum(Absent) == EthNum(Int(0)) == Success("0x0")
    ensures EthNum(Int(n)).Success?
    ensures EthNum(Int(n)).value == "0x0" <==> n == 0
    ensures n > 0 ==>
      var r := EthNum(Int(n)).value;
      && r == "0x" + ToHex(n)
      && r[2] != '0'
      && Radix.AllDigits(r[2..], 16)
      && HexToNumber(r) == Success(n)
  {
    if n > 0 {
      StripZerosOfHex(EvenPadWidth(n), n);
      var hex := ToHex(n);
      assert hex[0] != '0';
      assert Radix.IsDigit(hex[0], 16);
      if |hex| >= 2 { assert Radix.IsDigit(hex[1], 16); }
      assert !Has0x(hex);
      var r := "0x" + hex;
      assert r[2..] == hex;
      Radix.ParseNatToString(n, 16);
      assert r != "0x0" by { assert r[2] != '0'; }
    }
  }

  /** A string given to `ethNum` is always hex: `"10"` means sixteen, as does `"0x10"`. */
  lemma EthNumReadsTextAsHex(n: nat)
    ensures EthNum(Text(ToHex(n))) == EthNum(Int(n))
    ensures EthNum(Text("0x" + ToHex(n))) == EthNum(Int(n))
  {
    PaddedHexReadsBack(0, n);
    assert Radix.Zeros(0) + ToHex(n) == ToHex(n);
    assert ("0x" + ToHex(n))[2..] == ToHex(n);
    Radix.ParseNatToString(n, 16);
  }

  /** The stripping of leading zeros can leave an odd digit count: 15 is `0xf`, and `"10"` is `0x10`. */
  lemma EthNumExamples()
    ensures EthNum(Int(15)) == Success("0xf")
    ensures EthNum(Int(255)) == Success("0xff")
    ensures EthNum(Text("10")) == Success("0x10")
  {
    assert ToHex(15) == "f";
    assert ToHex(255) == ToHex(15) + "f" == "ff";
    assert ToHex(16) == ToHex(1) + "0" == "10";
    assert "0x" + "f" == "0xf";
    assert "0x" + "ff" == "0xff";
    assert "0x" + "10" == "0x10";
    EthNumSpec(15);
    EthNumSpec(255);
    EthNumReadsTextAsHex(16);
    EthNumSpec(16);
  }

  /** On strings `fromNum` agrees with `BigInt`: its `0x` branch reads the same number. */
  lemma FromNumTextIsBigInt(s: string)
    ensures FromNum(Text(s)) == ParseBigInt(s)
  {
    if StartsWith(s, "0x") {
      assert s[0] == '0' && s[1] == 'x';
    }
  }

  /** `fromNum` reads `0x`-prefixed hex and plain decimal back to the number written, and passes numbers through. */
  lemma FromNumSpec(n: nat, i: int)
    ensures FromNum(Int(n)) == Success(n)
    ensures FromNum(Text("0x" + ToHex(n))) == Success(n)
    ensures FromNum(Text(IntToString(i))) == Success(i)
    ensures FromNum(Text("")) == Success(0)
  {
    var s := "0x" + ToHex(n);
    assert s[..2] == "0x" && s[2..] == ToHex(n);
    Radix.ParseNatToString(n, 16);
    FromNumTextIsBigInt(IntToString(i));
    IntToStringRoundTrip(i);
  }
}
