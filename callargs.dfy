/**
 * `Web3Abstract.callArgs` and the two calls built on it, `ethCall` and
 * `estimateGas`: logical call arguments become the positional parameters
 * `[paramObject, tag]` of `eth_call` / `eth_estimateGas`.
 */
module Web3Args {
  import opened Wrappers
  import opened Js
  import opened HexCodec

  /** A block tag: a block number, or a name such as `latest`, `earliest` or `pending`. */
  datatype Tag = Block(number: nat) | Named(name: string)

  /** `Web3CallArgs`: every field optional. */
  datatype CallArgs = CallArgs(
    to: Option<string>,
    from: Option<string>,
    data: Option<string>,
    nonce: Option<string>,
    value: Option<string>,
    gas: Option<string>,
    gasPrice: Option<string>,
    tag: Option<Tag>)

  /** The properties of a plain object, in insertion order. */
  type Fields = seq<(string, string)>

  const ZeroAddress: string := "0x0000000000000000000000000000000000000000"

  /** The order in which `callArgs` creates the properties of its object. */
  const FieldOrder: seq<string> := ["to", "from", "data", "nonce", "value", "gas", "gasPrice"]

  predicate TagTruthy(t: Tag) {
    match t
    case Block(n) => n != 0
    case Named(name) => name != ""
  }

  function TagValue(t: Tag): Value {
    match t
    case Block(n) => Num(n)
    case Named(name) => Str(name)
  }

  /** The first value stored under `key`. */
  function Get(fields: Fields, key: string): Option<string> {
    if fields == [] then None
    else if fields[0].0 == key then Some(fields[0].1)
    else Get(fields[1..], key)
  }

  /** `a` is `b` with some entries removed, the rest in their order. */
  predicate Subsequence(a: Fields, b: Fields) {
    if a == [] then true
    else if b == [] then false
    else (a[0] == b[0] && Subsequence(a[1..], b[1..])) || Subsequence(a, b[1..])
  }

  /**
   * The object after `for (k in res) if (!res[k]) delete res[k]`: every
   * empty (or undefined) value removed, the remaining properties in their
   * original order.
   */
  function Compact(fields: Fields): (r: Fields)
    ensures Subsequence(r, fields)
    ensures forall i :: 0 <= i < |r| ==> r[i].1 != "" && r[i] in fields
    ensures forall f :: f in fields && f.1 != "" ==> f in r
  {
    if fields == [] then []
    else if fields[0].1 == "" then Compact(fields[1..])
    else [fields[0]] + Compact(fields[1..])
  }

  /** `x?.toLowerCase()`, with `undefined` written as the empty string (both are deleted later). */
  function Lowered(x: Option<string>): string {
    match x
    case None => ""
    case Some(s) => ToLower(s)
  }

  /** `x && x`, with `undefined` written as the empty string. */
  function Given(x: Option<string>): string {
    match x
    case None => ""
    case Some(s) => s
  }

  /** `x && ethNum(x)`: an absent or empty string stays empty; any other is read as hex. */
  function Encoded(x: Option<string>): Result<string, Error> {
    match x
    case None => Success("")
    case Some(s) => if s == "" then Success("") else EthNum(Text(s))
  }

  /** `callArgs(args)`: the parameter object and the block tag, or the error `ethNum` throws. */
  function CallArgsOf(args: CallArgs): Result<(Fields, Tag), Error> {
    var nonce :- Encoded(args.nonce);
    var value :- Encoded(args.value);
    var gas :- Encoded(args.gas);
    var gasPrice :- Encoded(args.gasPrice);
    var from := if Lowered(args.from) == "" then ZeroAddress else Lowered(args.from);
    var res := RawObject([Lowered(args.to), from, Given(args.data), nonce, value, gas, gasPrice]);
    Success((Compact(res), DefaultTag(args.tag)))
  }

  /** `args.tag || 'latest'`. */
  function DefaultTag(tag: Option<Tag>): Tag {
    if tag.Some? && TagTruthy(tag.value) then tag.value else Named("latest")
  }

  /** The object literal of `callArgs`, before its empty properties are deleted. */
  function RawObject(values: seq<string>): (r: Fields)
    requires |values| == |FieldOrder|
    ensures |r| == |FieldOrder|
    ensures forall i :: 0 <= i < |r| ==> r[i] == (FieldOrder[i], values[i])
  {
    seq(|FieldOrder|, i requires 0 <= i < |FieldOrder| => (FieldOrder[i], values[i]))
  }

  function ObjectOf(fields: Fields): (v: Value)
    ensures v.Obj? && |v.fields| == |fields|
  {
    Obj(seq(|fields|, i requires 0 <= i < |fields| => (fields[i].0, Str(fields[i].1))))
  }

  /** The positional parameters of `ethCall(args)` and `estimateGas(args)`: `[object, tag]`. */
  function CallParams(args: CallArgs): Result<seq<Value>, Error> {
    var (fields, tag) :- CallArgsOf(args);
    Success([ObjectOf(fields), TagValue(tag)])
  }

  /** `estimateGas` decodes the node's answer with `hexToNumber`, which throws on a non-string. */
  function DecodeGas(result: Value): Result<nat, Error> {
    if result.Str? then HexToNumber(result.s) else Failure(TypeError)
  }

  // ---------------------------------------------------------------------------
  // Properties

  /** The value `callArgs` stores under a numeric field, if any. */
  function EncodedField(x: Option<string>): Option<string>
    requires Encoded(x).Success?
  {
    if Encoded(x).value == "" then None else Some(Encoded(x).value)
  }

  predicate DistinctKeys(fields: Fields) {
    forall i, j :: 0 <= i < j < |fields| ==> fields[i].0 != fields[j].0
  }

  lemma {:induction false} GetAbsent(fields: Fields, key: string)
    requires forall i :: 0 <= i < |fields| ==> fields[i].0 != key
    ensures Get(fields, key) == None
  {
    if fields != [] { GetAbsent(fields[1..], key); }
  }

  /** After `Compact`, a key of an object with distinct keys holds its old value, unless that was empty. */
  lemma {:induction false} GetCompactAt(fields: Fields, k: nat)
    requires DistinctKeys(fields) && k < |fields|
    ensures Get(Compact(fields), fields[k].0) == if fields[k].1 == "" then None else Some(fields[k].1)
  {
    var key := fields[k].0;
    if k == 0 {
      GetAbsent(Compact(fields[1..]), key);
    } else {
      assert fields[0].0 != key;
      GetCompactAt(fields[1..], k - 1);
    }
  }

  lemma FieldOrderDistinct()
    ensures forall i, j :: 0 <= i < j < |FieldOrder| ==> FieldOrder[i] != FieldOrder[j]
  {
  }

  /** `callArgs` throws exactly when a non-empty numeric field is not hex. */
  lemma CallArgsFailure(args: CallArgs)
    ensures CallArgsOf(args).Failure? <==>
      exists x :: x in [args.nonce, args.value, args.gas, args.gasPrice] && Encoded(x).Failure?
  {
    var xs := [args.nonce, args.value, args.gas, args.gasPrice];
    assert xs[0] == args.nonce && xs[1] == args.value && xs[2] == args.gas && xs[3] == args.gasPrice;
  }

  /**
   * What `callArgs` stores: `from` is always there, lower-cased or the zero
   * address; `to` is lower-cased; `data` passes through; numeric fields are
   * `ethNum`-encoded; empty ones are gone.
   */
  lemma CallArgsSpec(args: CallArgs)
    requires CallArgsOf(args).Success?
    ensures var fields := CallArgsOf(args).value.0;
      && Get(fields, "from") == Some(if Lowered(args.from) == "" then ZeroAddress else ToLower(args.from.value))
      && Get(fields, "to") == (if Lowered(args.to) == "" then None else Some(ToLower(args.to.value)))
      && Get(fields, "data") == (if Given(args.data) == "" then None else args.data)
      && Get(fields, "nonce") == EncodedField(args.nonce)
      && Get(fields, "value") == EncodedField(args.value)
      && Get(fields, "gas") == EncodedField(args.gas)
      && Get(fields, "gasPrice") == EncodedField(args.gasPrice)
  {
    var from := if Lowered(args.from) == "" then ZeroAddress else Lowered(args.from);
    var res := RawObject([Lowered(args.to), from, Given(args.data),
      Encoded(args.nonce).value, Encoded(args.value).value, Encoded(args.gas).value, Encoded(args.gasPrice).value]);
    assert CallArgsOf(args).value.0 == Compact(res);
    FieldOrderDistinct();
    assert DistinctKeys(res);
    assert ZeroAddress != "";
    GetCompactAt(res, 0);
    GetCompactAt(res, 1);
    GetCompactAt(res, 2);
    GetCompactAt(res, 3);
    GetCompactAt(res, 4);
    GetCompactAt(res, 5);
    GetCompactAt(res, 6);
  }

  /** No property with an empty value survives, only the seven known keys appear, and the tag is truthy (`latest` by default). */
  lemma CallArgsShape(args: CallArgs)
    requires CallArgsOf(args).Success?
    ensures var (fields, tag) := CallArgsOf(args).value;
      && DistinctKeys(fields)
      && (forall i :: 0 <= i < |fields| ==> fields[i].1 != "" && fields[i].0 in FieldOrder)
      && Ranked(fields)
      && TagTruthy(tag)
      && (args.tag.None? || !TagTruthy(args.tag.value) ==> tag == Named("latest"))
      && (args.tag.Some? && TagTruthy(args.tag.value) ==> tag == args.tag.value)
  {
    var from := if Lowered(args.from) == "" then ZeroAddress else Lowered(args.from);
    var res := RawObject([Lowered(args.to), from, Given(args.data),
      Encoded(args.nonce).value, Encoded(args.value).value, Encoded(args.gas).value, Encoded(args.gasPrice).value]);
    FieldOrderDistinct();
    CompactKeepsDistinct(res);
    assert forall i :: 0 <= i < |FieldOrder| ==> KeyRank(FieldOrder[i]) == i;
    CompactKeepsRanked(res);
  }

  /**
   * The `delete` loop acts property by property: on a concatenation it is
   * the concatenation of its results, and a single property is kept exactly
   * when its value is non-empty. These two facts determine `Compact`.
   */
  lemma {:induction false} CompactAppend(a: Fields, b: Fields)
    ensures Compact(a + b) == Compact(a) + Compact(b)
    ensures forall f :: Compact([f]) == if f.1 == "" then [] else [f]
  {
    if a != [] {
      assert (a + b)[0] == a[0] && (a + b)[1..] == a[1..] + b;
      CompactAppend(a[1..], b);
    } else {
      assert a + b == b;
    }
    forall f ensures Compact([f]) == if f.1 == "" then [] else [f] {
      assert [f][1..] == [];
    }
  }

  /** The position of each known key in the object literal. */
  function KeyRank(key: string): nat {
    if key == "to" then 0 else if key == "from" then 1 else if key == "data" then 2
    else if key == "nonce" then 3 else if key == "value" then 4 else if key == "gas" then 5 else 6
  }

  /** Keys in the order to, from, data, nonce, value, gas, gasPrice. */
  predicate Ranked(fields: Fields) {
    forall i, j :: 0 <= i < j < |fields| ==> KeyRank(fields[i].0) < KeyRank(fields[j].0)
  }

  lemma {:induction false} CompactKeepsRanked(fields: Fields)
    requires Ranked(fields)
    ensures Ranked(Compact(fields))
  {
    if fields != [] {
      CompactKeepsRanked(fields[1..]);
      var rest := Compact(fields[1..]);
      forall i | 0 <= i < |rest| ensures KeyRank(fields[0].0) < KeyRank(rest[i].0) {
        var j :| 0 <= j < |fields[1..]| && fields[1..][j] == rest[i];
        assert fields[j + 1] == rest[i];
      }
    }
  }

  /** None of the known keys is an array index, so an object of them is enumerated in insertion order. */
  lemma FieldOrderNotIndex(key: string)
    requires key in FieldOrder
    ensures !IsIndexKey(key)
  {
    assert !Radix.IsDigit(key[0], 10);
  }

  lemma {:induction false} CompactKeepsDistinct(fields: Fields)
    requires DistinctKeys(fields)
    ensures DistinctKeys(Compact(fields))
  {
    if fields != [] {
      CompactKeepsDistinct(fields[1..]);
      var rest := Compact(fields[1..]);
      forall i | 0 <= i < |rest| ensures rest[i].0 != fields[0].0 {
        var j :| 0 <= j < |fields[1..]| && fields[1..][j] == rest[i];
        assert fields[j + 1] == rest[i];
      }
    }
  }

  /** An encoded numeric field is a canonical quantity: `0x` and hex digits without a leading zero, or `0x0`. */
  lemma EncodedIsQuantity(s: string)
    requires s != "" && HexToNumber(s).Success?
    ensures var n := HexToNumber(s).value;
      && Encoded(Some(s)) == Success(Quantity(n))
      && HexToNumber(Encoded(Some(s)).value) == Success(n)
  {
    EthNumSpec(HexToNumber(s).value);
  }

  predicate NoUpperCase(s: string) {
    forall i :: 0 <= i < |s| ==> !('A' <= s[i] <= 'Z')
  }

  lemma ToLowerNoUpperCase(s: string)
    ensures NoUpperCase(ToLower(s))
  {
  }

  lemma ZeroAddressNoUpperCase()
    ensures NoUpperCase(ZeroAddress)
  {
    var z := ZeroAddress;
    assert forall i :: 0 <= i < |z| ==> z[i] == '0' || z[i] == 'x';
  }

  /** The addresses in the parameter object carry no upper-case letter. */
  lemma CallArgsLowerCase(args: CallArgs)
    requires CallArgsOf(args).Success?
    ensures var fields := CallArgsOf(args).value.0;
      && Get(fields, "from").Some? && NoUpperCase(Get(fields, "from").value)
      && (Get(fields, "to").Some? ==> NoUpperCase(Get(fields, "to").value))
  {
    CallArgsSpec(args);
    ZeroAddressNoUpperCase();
    if args.from.Some? { ToLowerNoUpperCase(args.from.value); }
    if args.to.Some? { ToLowerNoUpperCase(args.to.value); }
  }

  /** `estimateGas` turns a quantity answer back into the number it encodes. */
  lemma DecodeGasOfQuantity(n: nat)
    ensures DecodeGas(Str(Quantity(n))) == Success(n)
  {
    EthNumSpec(n);
    if n == 0 {
      assert ("0x0")[2..] == "0";
    }
  }
}
