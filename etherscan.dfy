/**
 * `EtherscanHTTP.call` up to its request: the table of supported methods,
 * the translation of a method and its positional parameters into an
 * explorer module, action and query, and the classification of the
 * explorer's answer.
 */
module Etherscan {
  import opened Wrappers
  import opened Js
  import Web3Args

  /** `ETHERSCAN_PARAMS`: the query keys of each table method, in parameter order. */
  const Params: map<string, seq<string>> := map[
    "eth_blockNumber" := [],
    "eth_gasPrice" := [],
    "eth_getBlockByNumber" := ["tag", "boolean"],
    "eth_getBlockTransactionCountByNumber" := ["tag"],
    "eth_getTransactionByHash" := ["txhash"],
    "eth_getTransactionReceipt" := ["txhash"],
    "eth_sendRawTransaction" := ["hex"],
    "eth_getBalance" := ["address", "tag"],
    "eth_getTransactionCount" := ["address", "tag"],
    "eth_getCode" := ["address", "tag"],
    "eth_getStorageAt" := ["address", "position", "tag"],
    "account_txlist" := ["address", "startblock", "page"],
    "account_txlistinternal" := ["address", "startblock"],
    "account_tokentx" := ["address", "startblock"]
  ]

  /** The two methods whose first parameter is an object of query fields. */
  predicate IsObjectMethod(name: string) {
    name == "eth_call" || name == "eth_estimateGas"
  }

  /** The explorer request: `module`, `action` and the `key=value` query parts, in order. */
  datatype Request = Request(apiModule: string, action: string, query: seq<string>)

  /** `${key}=${value}`. */
  function Pair(key: string, v: Value): string {
    key + "=" + ToJsString(v)
  }

  /** `params.map((v, i) => `${keys[i]}=${v}`)`: a parameter past the key list goes under `undefined`. */
  function TableQuery(keys: seq<string>, params: seq<Value>): (q: seq<string>)
    ensures |q| == |params|
  {
    seq(|params|, i requires 0 <= i < |params| => Pair(if i < |keys| then keys[i] else "undefined", params[i]))
  }

  /** `Object.keys(v)` with the value under each key, in enumeration order; `undefined` and `null` throw. */
  function Entries(v: Value): Result<seq<(string, Value)>, Error> {
    match v
    case Undefined => Failure(TypeError)
    case Null => Failure(TypeError)
    case Bool(_) => Success([])
    case Num(_) => Success([])
    case Str(s) => Success(seq(|s|, i requires 0 <= i < |s| => (IntToString(i), Str([s[i]]))))
    case Arr(items) => Success(seq(|items|, i requires 0 <= i < |items| => (IntToString(i), items[i])))
    case Obj(fields) => Success(PropertyOrder(fields))
  }

  /** `.filter((k) => obj[k]).map((k) => `${k}=${obj[k]}`)`. */
  function TruthyPairs(entries: seq<(string, Value)>): seq<string> {
    if entries == [] then []
    else if Truthy(entries[0].1) then [Pair(entries[0].0, entries[0].1)] + TruthyPairs(entries[1..])
    else TruthyPairs(entries[1..])
  }

  /** The query of `eth_call` / `eth_estimateGas`: the truthy fields of `params[0]`, then `tag=` if `params[1]` is truthy. */
  function ObjectQuery(params: seq<Value>): Result<seq<string>, Error> {
    var first := if |params| > 0 then params[0] else Undefined;
    var entries :- Entries(first);
    var tag := if |params| > 1 && Truthy(params[1]) then [Pair("tag", params[1])] else [];
    Success(TruthyPairs(entries) + tag)
  }

  /** The module and action: `eth_getBalance` is the account module's `balance`; an `account_` prefix is dropped and selects the account module. */
  function Route(name: string): (string, string) {
    if name == "eth_getBalance" then ("account", "balance")
    else if StartsWith(name, "account_") then ("account", name[8..])
    else ("proxy", name)
  }

  /** The request for `call(method, ...params)`, or the error thrown before any request is made. */
  function Translate(name: string, params: seq<Value>): Result<Request, Error> {
    var query :-
      if name in Params then Success(TableQuery(Params[name], params))
      else if IsObjectMethod(name) then ObjectQuery(params)
      else Failure(Error("Unsupported method"));
    var (apiModule, action) := Route(name);
    Success(Request(apiModule, action, query))
  }

  /**
   * The explorer's answer: `NOTOK` and a nested error object both throw
   * `EtherscanHTTP(code): message`; otherwise the call returns `result`.
   * Reading a property of `null` or `undefined` throws.
   */
  function Classify(res: Value): Result<Value, Error> {
    if IsNullish(res) then Failure(TypeError)
    else if Prop(res, "message") == Str("NOTOK") then
      Failure(Error(Describe("EtherscanHTTP", Prop(res, "status"), Prop(res, "result"))))
    else
      var err := Prop(res, "error");
      if Truthy(err) && Truthy(Prop(err, "message")) then
        Failure(Error(Describe("EtherscanHTTP", Prop(err, "code"), Prop(err, "message"))))
      else Success(Prop(res, "result"))
  }

  // ---------------------------------------------------------------------------
  // The method lookup as written

  /** What every plain object inherits from `Object.prototype`. */
  const PrototypeNames: set<string> := {
    "constructor", "hasOwnProperty", "isPrototypeOf", "propertyIsEnumerable",
    "toLocaleString", "toString", "valueOf", "__proto__",
    "__defineGetter__", "__defineSetter__", "__lookupGetter__", "__lookupSetter__"
  }

  /**
   * `if (ETHERSCAN_PARAMS[method])` as written: the lookup also finds the
   * inherited members, which are truthy and have no numbered elements, so
   * every parameter of such a method goes under the key `undefined`.
   */
  function TranslateAsWritten(name: string, params: seq<Value>): Result<Request, Error> {
    var query :-
      if name in Params then Success(TableQuery(Params[name], params))
      else if name in PrototypeNames then Success(TableQuery([], params))
      else if IsObjectMethod(name) then ObjectQuery(params)
      else Failure(Error("Unsupported method"));
    var (apiModule, action) := Route(name);
    Success(Request(apiModule, action, query))
  }

  /** The lookup as written lets `toString` through to a request; the own-key lookup rejects it. */
  lemma PrototypeMethodNotRejected()
    ensures TranslateAsWritten("toString", [Str("x")]) == Success(Request("proxy", "toString", ["undefined=x"]))
    ensures Translate("toString", [Str("x")]) == Failure(Error("Unsupported method"))
  {
    assert "toString" !in Params;
    assert "toString"[0] != "account_"[0];
    assert TableQuery([], [Str("x")]) == ["undefined" + "=" + "x"];
    assert "undefined" + "=" + "x" == "undefined=x";
  }

  /** Both lookups agree on every name that is not inherited from `Object.prototype`. */
  lemma AsWrittenAgreesElsewhere(name: string, params: seq<Value>)
    requires name !in PrototypeNames
    ensures TranslateAsWritten(name, params) == Translate(name, params)
  {
  }

  // ---------------------------------------------------------------------------
  // Properties

  /** A method outside the table and other than `eth_call` / `eth_estimateGas` is rejected, and only such a method. */
  lemma UnsupportedRejected(name: string, params: seq<Value>)
    ensures Translate(name, params) == Failure(Error("Unsupported method")) <==>
      name !in Params && !IsObjectMethod(name)
  {
    if name in Params || IsObjectMethod(name) {
      assert Params.Keys !! {"eth_call", "eth_estimateGas"};
    }
  }

  /** A table method never fails, keeps one query part per parameter and pairs parameter `i` with key `i`. */
  lemma TableMethodZips(name: string, params: seq<Value>)
    requires name in Params
    ensures Translate(name, params).Success?
    ensures var q := Translate(name, params).value.query;
      && |q| == |params|
      && forall i :: 0 <= i < |params| && i < |Params[name]| ==> q[i] == Params[name][i] + "=" + ToJsString(params[i])
  {
  }

  /** Only the truthy fields of an object become query parts, in their order. */
  lemma {:induction false} TruthyPairsSpec(entries: seq<(string, Value)>)
    ensures forall p :: p in TruthyPairs(entries) <==> exists e :: e in entries && Truthy(e.1) && p == Pair(e.0, e.1)
  {
    if entries != [] {
      TruthyPairsSpec(entries[1..]);
      assert entries == [entries[0]] + entries[1..];
    }
  }

  /** The object path emits the truthy fields of `params[0]` and `tag=` exactly when `params[1]` is truthy. */
  lemma ObjectMethodQuery(name: string, fields: seq<(string, Value)>, rest: seq<Value>)
    requires IsObjectMethod(name)
    ensures var r := Translate(name, [Obj(fields)] + rest);
      && r.Success?
      && r.value == Request("proxy", name,
        TruthyPairs(PropertyOrder(fields)) + if |rest| > 0 && Truthy(rest[0]) then [Pair("tag", rest[0])] else [])
  {
    ObjectMethodNotInTable(name);
    ObjectQueryOf(fields, rest);
    assert name[0] != "account_"[0];
    assert Route(name) == ("proxy", name);
  }

  lemma ObjectMethodNotInTable(name: string)
    requires IsObjectMethod(name)
    ensures name !in Params
  {
  }

  lemma ObjectQueryOf(fields: seq<(string, Value)>, rest: seq<Value>)
    ensures ObjectQuery([Obj(fields)] + rest) == Success(TruthyPairs(PropertyOrder(fields))
      + if |rest| > 0 && Truthy(rest[0]) then [Pair("tag", rest[0])] else [])
  {
    var params := [Obj(fields)] + rest;
    assert params[0] == Obj(fields);
    assert |rest| > 0 ==> params[1] == rest[0];
    assert Entries(Obj(fields)) == Success(PropertyOrder(fields));
  }

  /** `eth_call` and `eth_estimateGas` with no parameters throw reading `Object.keys(undefined)`. */
  lemma ObjectMethodNeedsObject(name: string)
    requires IsObjectMethod(name)
    ensures Translate(name, []) == Failure(TypeError)
  {
  }

  /** The module is `proxy` unless the method is `eth_getBalance` or starts with `account_`, which select `account`. */
  lemma RouteSpec(name: string)
    ensures Route(name).0 == "account" <==> name == "eth_getBalance" || StartsWith(name, "account_")
    ensures Route(name).0 == "proxy" ==> Route(name).1 == name
    ensures StartsWith(name, "account_") ==> name == "account_" + Route(name).1
  {
    if StartsWith(name, "account_") {
      assert name == name[..8] + name[8..];
      assert "eth_getBalance"[0] != "account_"[0];
    }
  }

  lemma RouteExamples()
    ensures Translate("eth_getBalance", [Str("0xab"), Str("latest")]).value
      == Request("account", "balance", ["address=0xab", "tag=latest"])
    ensures Translate("account_txlist", []).value == Request("account", "txlist", [])
    ensures Translate("eth_blockNumber", []).value == Request("proxy", "eth_blockNumber", [])
  {
    assert StartsWith("account_txlist", "account_");
    assert "account_txlist"[8..] == "txlist";
    assert "eth_blockNumber"[0] != "account_"[0];
    assert "address" + "=" + "0xab" == "address=0xab";
    assert "tag" + "=" + "latest" == "tag=latest";
  }

  /**
   * `ethCall(args)` through the explorer: every property `callArgs` kept is
   * sent, in order, and the tag is always sent.
   */
  lemma EthCallQuery(args: Web3Args.CallArgs)
    requires Web3Args.CallParams(args).Success?
    ensures var (fields, tag) := Web3Args.CallArgsOf(args).value;
      Translate("eth_call", Web3Args.CallParams(args).value) == Success(Request("proxy", "eth_call",
        seq(|fields|, i requires 0 <= i < |fields| => fields[i].0 + "=" + fields[i].1)
        + [Pair("tag", Web3Args.TagValue(tag))]))
  {
    var (fields, tag) := Web3Args.CallArgsOf(args).value;
    Web3Args.CallArgsShape(args);
    var obj := Web3Args.ObjectOf(fields);
    assert Web3Args.CallParams(args).value == [obj] + [Web3Args.TagValue(tag)];
    ObjectMethodQuery("eth_call", obj.fields, [Web3Args.TagValue(tag)]);
    forall i | 0 <= i < |obj.fields| ensures !IsIndexKey(obj.fields[i].0) {
      Web3Args.FieldOrderNotIndex(fields[i].0);
    }
    PropertyOrderNamed(obj.fields);
    AllTruthyPairs(fields);
  }

  /** An array-index key is queried before the other keys, whatever the object's insertion order: `1=y` before `b=x`. */
  lemma IndexKeysQueriedFirst(x: Value, y: Value)
    requires Truthy(x) && Truthy(y)
    ensures ObjectQuery([Obj([("b", x), ("1", y)])]) == Success([Pair("1", y), Pair("b", x)])
  {
    var b, one := ("b", x), ("1", y);
    IndexKeyFirst(x, y);
    TwoTruthyPairs(one, b);
    var params := [Obj([b, one])];
    assert params[0] == Obj([b, one]) && |params| == 1;
    assert Entries(params[0]) == Success([one, b]);
    assert ObjectQuery(params) == Success(TruthyPairs([one, b]) + []);
    assert TruthyPairs([one, b]) + [] == TruthyPairs([one, b]);
  }

  lemma TwoTruthyPairs(e1: (string, Value), e2: (string, Value))
    requires Truthy(e1.1) && Truthy(e2.1)
    ensures TruthyPairs([e1, e2]) == [Pair(e1.0, e1.1), Pair(e2.0, e2.1)]
  {
    assert [e1, e2][1..] == [e2] && [e2][1..] == [];
    assert TruthyPairs([e2]) == [Pair(e2.0, e2.1)] + TruthyPairs([]);
    assert TruthyPairs([e1, e2]) == [Pair(e1.0, e1.1)] + TruthyPairs([e2]);
  }

  lemma {:induction false} AllTruthyPairs(fields: Web3Args.Fields)
    requires forall i :: 0 <= i < |fields| ==> fields[i].1 != ""
    ensures TruthyPairs(Web3Args.ObjectOf(fields).fields)
      == seq(|fields|, i requires 0 <= i < |fields| => fields[i].0 + "=" + fields[i].1)
  {
    if fields != [] {
      AllTruthyPairs(fields[1..]);
      assert Web3Args.ObjectOf(fields).fields[1..] == Web3Args.ObjectOf(fields[1..]).fields;
    }
  }

  /**
   * The explorer's answer is returned exactly when it is an object that is
   * not `NOTOK` and carries no error message; the value is its `result`.
   */
  lemma ClassifySpec(res: Value)
    ensures Classify(res).Success? <==>
      && !IsNullish(res)
      && Prop(res, "message") != Str("NOTOK")
      && !(Truthy(Prop(res, "error")) && Truthy(Prop(Prop(res, "error"), "message")))
    ensures Classify(res).Success? ==> Classify(res).value == Prop(res, "result")
    ensures !IsNullish(res) && Prop(res, "message") == Str("NOTOK") ==>
      Classify(res) == Failure(Error(Describe("EtherscanHTTP", Prop(res, "status"), Prop(res, "result"))))
    ensures (!IsNullish(res) && Prop(res, "message") != Str("NOTOK") && Truthy(Prop(res, "error"))
      && Truthy(Prop(Prop(res, "error"), "message"))) ==>
      Classify(res) == Failure(Error(Describe("EtherscanHTTP", Prop(Prop(res, "error"), "code"), Prop(Prop(res, "error"), "message"))))
  {
  }
}
