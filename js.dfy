/**
 * The JavaScript values and built-in conversions the client relies on:
 * truthiness, `String(v)` (also what a template literal inserts), property
 * reads on parsed JSON, ASCII `toLowerCase` and `BigInt(string)`.
 */
module Js {
  import opened Wrappers
  import Radix

  /**
   * A parsed JSON value, plus `undefined`. Numbers are integers; an object
   * lists its own properties in insertion order, each key once (the order
   * in which they are enumerated is `PropertyOrder`).
   */
  datatype Value =
    | Undefined
    | Null
    | Bool(b: bool)
    | Num(n: int)
    | Str(s: string)
    | Arr(items: seq<Value>)
    | Obj(fields: seq<(string, Value)>)

  /** What a call can throw. `Error(m)` is `new Error(m)`. */
  datatype Error =
    | Error(message: string)
    | TypeError
    | SyntaxError

  /** JavaScript's `!!v`. */
  predicate Truthy(v: Value) {
    match v
    case Undefined => false
    case Null => false
    case Bool(b) => b
    case Num(n) => n != 0
    case Str(s) => s != ""
    case Arr(_) => true
    case Obj(_) => true
  }

  /** Whether reading a property of `v` throws a `TypeError`. */
  predicate IsNullish(v: Value) {
    v.Undefined? || v.Null?
  }

  function Lookup(fields: seq<(string, Value)>, key: string): Value {
    if fields == [] then Undefined
    else if fields[0].0 == key then fields[0].1
    else Lookup(fields[1..], key)
  }

  /** `v[key]` for a value that is not nullish: only objects carry the properties read here. */
  function Prop(v: Value, key: string): Value {
    if v.Obj? then Lookup(v.fields, key) else Undefined
  }

  /** `String(i)` for an integer. */
  function IntToString(i: int): (s: string)
    ensures |s| > 0
  {
    if i < 0 then "-" + Radix.NatToString(-i, 10) else Radix.NatToString(i, 10)
  }

  /** `String(v)`, which a template literal `${v}` also produces. */
  function ToJsString(v: Value): string
    decreases v, 1
  {
    match v
    case Undefined => "undefined"
    case Null => "null"
    case Bool(b) => if b then "true" else "false"
    case Num(n) => IntToString(n)
    case Str(s) => s
    case Arr(items) => JoinItems(items)
    case Obj(_) => "[object Object]"
  }

  /** `items.join(',')`, where `null` and `undefined` elements become empty. */
  function JoinItems(items: seq<Value>): string
    decreases items, 0
  {
    if items == [] then ""
    else
      var head := if IsNullish(items[0]) then "" else ToJsString(items[0]);
      if |items| == 1 then head else head + "," + JoinItems(items[1..])
  }

  /** ASCII `toLowerCase`. */
  function LowerChar(c: char): char {
    if 'A' <= c <= 'Z' then (c as int - 'A' as int + 'a' as int) as char else c
  }

  function ToLower(s: string): (r: string)
    ensures |r| == |s|
    ensures forall i :: 0 <= i < |r| ==> r[i] == LowerChar(s[i])
  {
    seq(|s|, i requires 0 <= i < |s| => LowerChar(s[i]))
  }

  /** `toLowerCase` is idempotent, lowers exactly the letters A to Z and leaves every other character as it is. */
  lemma ToLowerSpec(s: string)
    ensures ToLower(ToLower(s)) == ToLower(s)
    ensures forall i :: 0 <= i < |s| && !('A' <= s[i] <= 'Z') ==> ToLower(s)[i] == s[i]
    ensures forall i :: 0 <= i < |s| && 'A' <= s[i] <= 'Z' ==> 'a' <= ToLower(s)[i] <= 'z' && ToLower(s)[i] as int == s[i] as int + 32
    ensures forall i :: 0 <= i < |s| ==> !('A' <= ToLower(s)[i] <= 'Z')
  {
  }

  predicate StartsWith(s: string, prefix: string) {
    |prefix| <= |s| && s[..|prefix|] == prefix
  }

  /** A `0x`, `0o` or `0b` prefix in either case, which makes `BigInt` read that radix. */
  function RadixPrefix(s: string): (radix: nat)
    ensures radix == 0 || radix == 2 || radix == 8 || radix == 16
  {
    if |s| < 2 || s[0] != '0' then 0
    else if s[1] == 'x' || s[1] == 'X' then 16
    else if s[1] == 'o' || s[1] == 'O' then 8
    else if s[1] == 'b' || s[1] == 'B' then 2
    else 0
  }

  /** `BigInt(s)` for a string with a radix prefix: no sign, at least one digit. */
  function ParsePrefixed(s: string): Result<nat, Error>
    requires RadixPrefix(s) != 0
  {
    match Radix.ParseDigits(s[2..], RadixPrefix(s))
    case Some(n) => Success(n)
    case None => Failure(SyntaxError)
  }

  /** `BigInt(s)`: empty is zero, a radix prefix selects the radix, otherwise a signed decimal. */
  function ParseBigInt(s: string): Result<int, Error> {
    if s == "" then Success(0)
    else if RadixPrefix(s) != 0 then
      match ParsePrefixed(s)
      case Success(n) => var i: int := n; Success(i)
      case Failure(e) => Failure(e)
    else
      var negative := s[0] == '-';
      var digits := if s[0] == '-' || s[0] == '+' then s[1..] else s;
      match Radix.ParseDigits(digits, 10)
      case Some(n) => var i: int := if negative then -(n as int) else n; Success(i)
      case None => Failure(SyntaxError)
  }

  /** The radix prefixes `BigInt` accepts, each with the radix it selects. */
  const Prefixes: seq<(string, nat)> := [("0x", 16), ("0X", 16), ("0o", 8), ("0O", 8), ("0b", 2), ("0B", 2)]

  /** Behind a prefix, `BigInt` reads the rest in that prefix's radix, and throws a `SyntaxError` when the rest is not such digits. */
  lemma PrefixedRadix(k: nat, digits: string)
    requires k < |Prefixes|
    ensures var (prefix, radix) := Prefixes[k];
      ParseBigInt(prefix + digits) ==
        if Radix.ParseDigits(digits, radix).Some? then Success(Radix.ParseDigits(digits, radix).value as int)
        else Failure(SyntaxError)
  {
    var (prefix, radix) := Prefixes[k];
    var s := prefix + digits;
    assert s[0] == '0' && s[1] == prefix[1] && s[2..] == digits;
    assert RadixPrefix(s) == radix;
  }

  /** `0x`, `0o` and `0b` text of `n`, in either case, reads back to `n`; e.g. `0o17` is 15 and `0B101` is 5. */
  lemma PrefixedReadsBack(k: nat, n: nat)
    requires k < |Prefixes|
    ensures ParseBigInt(Prefixes[k].0 + Radix.NatToString(n, Prefixes[k].1)) == Success(n)
  {
    PrefixedRadix(k, Radix.NatToString(n, Prefixes[k].1));
    Radix.ParseNatToString(n, Prefixes[k].1);
  }

  /** Octal and binary text with a prefix in either case: `0o17` is 15 and `0B101` is 5. */
  lemma PrefixExamples()
    ensures ParseBigInt("0o17") == Success(15)
    ensures ParseBigInt("0B101") == Success(5)
  {
    PrefixedRadix(2, "17");
    PrefixedRadix(5, "101");
    assert "0o" + "17" == "0o17" && "0B" + "101" == "0B101";
    assert "17"[..1] == "1" && "1"[..0] == [];
    assert Radix.DigitsValue("17", 8) == 15;
    assert "101"[..2] == "10" && "10"[..1] == "1" && "1"[..0] == [];
    assert Radix.DigitsValue("101", 2) == 5;
  }

  // ---------------------------------------------------------------------------
  // Property enumeration order

  /** An array-index key: canonical decimal (no leading zero) below 2^32 - 1. */
  predicate IsIndexKey(k: string) {
    && |k| > 0 && Radix.AllDigits(k, 10) && (k[0] != '0' || |k| == 1)
    && Radix.DigitsValue(k, 10) < 0xFFFF_FFFF
  }

  function IndexOfKey(k: string): nat {
    if IsIndexKey(k) then Radix.DigitsValue(k, 10) else 0
  }

  /** Each key's index is at most the next one's. */
  predicate IndexSorted(fields: seq<(string, Value)>) {
    forall i :: 0 < i < |fields| ==> IndexOfKey(fields[i - 1].0) <= IndexOfKey(fields[i].0)
  }

  function InsertByIndex(p: (string, Value), sorted: seq<(string, Value)>): (r: seq<(string, Value)>)
    requires IndexSorted(sorted)
    ensures |r| == |sorted| + 1 && (r[0] == p || (|sorted| > 0 && r[0] == sorted[0]))
    ensures IndexSorted(r) && multiset(r) == multiset(sorted) + multiset{p}
  {
    if sorted == [] then [p]
    else if IndexOfKey(p.0) <= IndexOfKey(sorted[0].0) then [p] + sorted
    else
      var tail := InsertByIndex(p, sorted[1..]);
      assert sorted == [sorted[0]] + sorted[1..];
      [sorted[0]] + tail
  }

  function SortByIndex(fields: seq<(string, Value)>): (r: seq<(string, Value)>)
    ensures |r| == |fields|
    ensures IndexSorted(r) && multiset(r) == multiset(fields)
  {
    if fields == [] then []
    else
      assert fields == [fields[0]] + fields[1..];
      InsertByIndex(fields[0], SortByIndex(fields[1..]))
  }

  function IndexKeyed(fields: seq<(string, Value)>): seq<(string, Value)> {
    if fields == [] then []
    else (if IsIndexKey(fields[0].0) then [fields[0]] else []) + IndexKeyed(fields[1..])
  }

  function NamedKeyed(fields: seq<(string, Value)>): seq<(string, Value)> {
    if fields == [] then []
    else (if IsIndexKey(fields[0].0) then [] else [fields[0]]) + NamedKeyed(fields[1..])
  }

  /** The order in which `Object.keys` lists own properties: array indices ascending, then the other keys in insertion order. */
  function PropertyOrder(fields: seq<(string, Value)>): seq<(string, Value)> {
    SortByIndex(IndexKeyed(fields)) + NamedKeyed(fields)
  }

  lemma {:induction false} SplitKeys(fields: seq<(string, Value)>)
    ensures multiset(IndexKeyed(fields)) + multiset(NamedKeyed(fields)) == multiset(fields)
  {
    if fields != [] {
      SplitKeys(fields[1..]);
      assert fields == [fields[0]] + fields[1..];
    }
  }

  lemma {:induction false} KeyedParts(fields: seq<(string, Value)>)
    ensures forall p :: p in IndexKeyed(fields) ==> IsIndexKey(p.0)
    ensures forall p :: p in NamedKeyed(fields) ==> !IsIndexKey(p.0)
  {
    if fields != [] {
      KeyedParts(fields[1..]);
    }
  }

  /** Enumeration lists every own property once: a permutation of the insertion order. */
  lemma PropertyOrderPermutes(fields: seq<(string, Value)>)
    ensures multiset(PropertyOrder(fields)) == multiset(fields)
  {
    SplitKeys(fields);
  }

  /** The array indices come first, in ascending order; the other keys follow in insertion order. */
  lemma PropertyOrderLayout(fields: seq<(string, Value)>)
    ensures var r, n := PropertyOrder(fields), |IndexKeyed(fields)|;
      && (forall i :: 0 <= i < n ==> IsIndexKey(r[i].0))
      && (forall i :: n <= i < |r| ==> !IsIndexKey(r[i].0))
      && (forall i :: 0 < i < n ==> IndexOfKey(r[i - 1].0) <= IndexOfKey(r[i].0))
      && r[n..] == NamedKeyed(fields)
  {
    var sorted, named := SortByIndex(IndexKeyed(fields)), NamedKeyed(fields);
    var r := PropertyOrder(fields);
    SortedIndexKeys(fields);
    KeyedParts(fields);
    assert r == sorted + named;
    assert forall i :: 0 <= i < |sorted| ==> r[i] == sorted[i];
    assert forall i :: |sorted| <= i < |r| ==> r[i] == named[i - |sorted|];
  }

  lemma SortedIndexKeys(fields: seq<(string, Value)>)
    ensures forall p :: p in SortByIndex(IndexKeyed(fields)) ==> IsIndexKey(p.0)
  {
    KeyedParts(fields);
    var sorted := SortByIndex(IndexKeyed(fields));
    forall p | p in sorted ensures IsIndexKey(p.0) {
      assert p in multiset(IndexKeyed(fields));
    }
  }

  /** An object without array-index keys is enumerated in insertion order. */
  lemma PropertyOrderNamed(fields: seq<(string, Value)>)
    requires forall i :: 0 <= i < |fields| ==> !IsIndexKey(fields[i].0)
    ensures PropertyOrder(fields) == fields
  {
    AllNamed(fields);
  }

  lemma {:induction false} AllNamed(fields: seq<(string, Value)>)
    requires forall i :: 0 <= i < |fields| ==> !IsIndexKey(fields[i].0)
    ensures IndexKeyed(fields) == [] && NamedKeyed(fields) == fields
  {
    if fields != [] {
      AllNamed(fields[1..]);
      assert fields == [fields[0]] + fields[1..];
    }
  }

  /** Key `1` is enumerated before key `b` even when inserted after it. */
  lemma IndexKeyFirst(x: Value, y: Value)
    ensures PropertyOrder([("b", x), ("1", y)]) == [("1", y), ("b", x)]
  {
    var b, one := ("b", x), ("1", y);
    var fields := [b, one];
    assert "1"[..0] == [];
    assert Radix.DigitsValue("1", 10) == 1;
    assert IsIndexKey("1");
    assert !Radix.IsDigit("b"[0], 10);
    assert !IsIndexKey("b");
    assert fields[1..] == [one] && [one][1..] == [];
    assert IndexKeyed([one]) == [one] + IndexKeyed([]);
    assert IndexKeyed(fields) == [] + IndexKeyed([one]);
    assert NamedKeyed([one]) == [] + NamedKeyed([]);
    assert NamedKeyed(fields) == [b] + NamedKeyed([one]);
    assert SortByIndex([one]) == InsertByIndex(one, SortByIndex([]));
  }

  /** The text of the errors both transports throw for a remote failure: `${transport}(${code}): ${message}`. */
  function Describe(transport: string, code: Value, message: Value): string {
    transport + "(" + ToJsString(code) + "): " + ToJsString(message)
  }

  /** `String(n)` reads back through `BigInt` to `n`. */
  lemma IntToStringRoundTrip(i: int)
    ensures ParseBigInt(IntToString(i)) == Success(i)
  {
    if i < 0 {
      var d := Radix.NatToString(-i, 10);
      Radix.ParseNatToString(-i, 10);
      assert ("-" + d)[1..] == d;
    } else {
      Radix.ParseNatToString(i, 10);
    }
  }
}
