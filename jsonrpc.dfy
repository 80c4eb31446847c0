/**
 * The JSON-RPC transport of `jsonrpc(url, opt)`: request envelopes with
 * per-client increasing ids, the batch queue, the table of outstanding
 * handlers keyed by id, the parsing of a response body into response
 * elements, the settlement of each handler by id (`process`, `processAll`)
 * and the mapping of a remote error object to a thrown error.
 */
module JsonRpc {
  import opened Wrappers
  import opened Js
  import Radix
  import Etherscan

  /** `{ method, params, id, jsonrpc: '2.0' }`. */
  datatype Envelope = Envelope(name: string, params: seq<Value>, id: nat, version: string)

  /** What one `send` puts on the wire: one envelope, or the array of a batch. */
  datatype Wire = Single(envelope: Envelope) | Batch(envelopes: seq<Envelope>)

  /** One line of a body that is not a single JSON text: empty, parsed, or not JSON. */
  datatype Line = Blank | Parsed(v: Value) | Malformed

  /** A response body: one JSON text, or (when that fails to parse) its lines. */
  datatype Body = Whole(v: Value) | Streamed(lines: seq<Line>)

  /** How a handler was settled: resolved with its response element, or rejected. */
  datatype Outcome = Resolved(response: Value) | Rejected(error: Error)

  /** The handler table (`handlers`) and the settlements delivered so far, both keyed by property key. */
  datatype Table = Table(handlers: map<string, Envelope>, settled: map<string, Outcome>)

  // ---------------------------------------------------------------------------
  // parseResp

  /** `Array.isArray(v) ? v : [v]`. */
  function AsArray(v: Value): seq<Value> {
    if v.Arr? then v.items else [v]
  }

  /** The line fallback: empty lines dropped, each value wrapped as an array, the arrays concatenated. */
  function FlattenLines(lines: seq<Line>): seq<Value> {
    if lines == [] then []
    else (if lines[0].Parsed? then AsArray(lines[0].v) else []) + FlattenLines(lines[1..])
  }

  /** `parseResp(data)`: always an array of response elements, or the `SyntaxError` of a line that is not JSON. */
  function ParseResp(body: Body): Result<seq<Value>, Error> {
    match body
    case Whole(v) => Success(AsArray(v))
    case Streamed(lines) => if Malformed in lines then Failure(SyntaxError) else Success(FlattenLines(lines))
  }

  // ---------------------------------------------------------------------------
  // The handler table

  /** The property key of numeric id `id`: `handlers[id]` stores under `String(id)`. */
  function IdKey(id: nat): string {
    Radix.NatToString(id, 10)
  }

  /** A key that `IdKey` produced for an id below `nextId`. */
  predicate Issued(key: string, nextId: nat) {
    |key| > 0 && Radix.AllDigits(key, 10) && Radix.DigitsValue(key, 10) < nextId
  }

  /** The key `processAll` settles for response element `d`: `String(d.id)`; reading `.id` of `null` throws. */
  function ResponseKey(d: Value): Result<string, Error> {
    if IsNullish(d) then Failure(TypeError) else Success(ToJsString(Prop(d, "id")))
  }

  /** `process(key, ...)`: settles the handler under `key` and deletes it; a missing handler throws. */
  function Settle(t: Table, key: string, o: Outcome): Result<Table, Error> {
    if key !in t.handlers then Failure(TypeError)
    else Success(Table(t.handlers - {key}, t.settled[key := o]))
  }

  /** `processAll(data)`: settles element by element, stopping at the first that throws. */
  function Dispatch(t: Table, data: seq<Value>): (Table, Option<Error>)
    decreases |data|
  {
    if data == [] then (t, None)
    else
      match ResponseKey(data[0])
      case Failure(e) => (t, Some(e))
      case Success(key) =>
        match Settle(t, key, Resolved(data[0]))
        case Failure(e) => (t, Some(e))
        case Success(t') => Dispatch(t', data[1..])
  }

  /** `processAll(undefined, err)`: every outstanding handler rejected with `err`. */
  function RejectAll(t: Table, err: Error): Table {
    Table(map[], t.settled + RejectedOn(t.handlers.Keys, err))
  }

  /** The rejection of every key of `keys` with `err`. */
  function RejectedOn(keys: set<string>, err: Error): (m: map<string, Outcome>)
    ensures m.Keys == keys
  {
    map k | k in keys :: Rejected(err)
  }

  /** What `send` does with a body: `processAll(parseResp(body))`, and anything thrown there rejects all that remain. */
  function Receive(t: Table, body: Body): Table {
    match ParseResp(body)
    case Failure(e) => RejectAll(t, e)
    case Success(items) =>
      var (t', err) := Dispatch(t, items);
      if err.Some? then RejectAll(t', err.value) else t'
  }

  /** What the caller of `call(method, ...params)` gets from its response element. */
  function RpcResult(res: Value): Result<Value, Error> {
    if Truthy(res) && Truthy(Prop(res, "error")) && Truthy(Prop(Prop(res, "error"), "message")) then
      Failure(Error(Describe("JsonRPC", Prop(Prop(res, "error"), "code"), Prop(Prop(res, "error"), "message"))))
    else if IsNullish(res) then Failure(TypeError)
    else Success(Prop(res, "result"))
  }

  /** What the caller gets from its settlement. */
  function CallResult(o: Outcome): Result<Value, Error> {
    match o
    case Resolved(res) => RpcResult(res)
    case Rejected(e) => Failure(e)
  }

  /** The lock key of the `n`-th client: `JsonRPC_batch${n}`. */
  function BatchLockKey(n: nat): string {
    "JsonRPC_batch" + Radix.NatToString(n, 10)
  }

  // ---------------------------------------------------------------------------
  // The client

  /** The state `jsonrpc(url, opt)` closes over. */
  class RpcClient {
    const batch: bool
    const lockKey: string
    var nextId: nat
    var handlers: map<string, Envelope>
    var queue: seq<Envelope>
    var settled: map<string, Outcome>

    /** No key is both outstanding and settled, and every key is an id already handed out. */
    ghost predicate Valid()
      reads this
    {
      && handlers.Keys !! settled.Keys
      && (forall k :: k in handlers ==> Issued(k, nextId))
      && (forall k :: k in settled ==> Issued(k, nextId))
    }

    function State(): Table
      reads this
    {
      Table(handlers, settled)
    }

    constructor (batch: bool, lockKey: string)
      ensures Valid() && this.batch == batch && this.lockKey == lockKey
      ensures nextId == 0 && handlers == map[] && queue == [] && settled == map[]
    {
      this.batch := batch;
      this.lockKey := lockKey;
      nextId := 0;
      handlers := map[];
      queue := [];
      settled := map[];
    }

    /**
     * `call(method, ...params)`: a new envelope under the next id, whose key
     * is neither outstanding nor settled; its handler is registered, and the
     * envelope is queued for the batch or returned to be sent alone.
     */
    method Call(name: string, params: seq<Value>) returns (env: Envelope, sent: Option<Wire>)
      requires Valid()
      modifies this
      ensures Valid()
      ensures env == Envelope(name, params, old(nextId), "2.0") && nextId == old(nextId) + 1
      ensures IdKey(env.id) !in old(handlers) && IdKey(env.id) !in old(settled)
      ensures handlers == old(handlers)[IdKey(env.id) := env] && settled == old(settled)
      ensures sent == if batch then None else Some(Single(env))
      ensures queue == if batch then old(queue) + [env] else old(queue)
    {
      env := Envelope(name, params, nextId, "2.0");
      var key := IdKey(nextId);
      Radix.NatToStringRoundTrip(nextId, 10);
      assert !Issued(key, nextId);
      handlers := handlers[key := env];
      nextId := nextId + 1;
      if batch {
        queue := queue + [env];
        sent := None;
      } else {
        sent := Some(Single(env));
      }
    }

    /** The flush task run under the batch lock: nothing when the queue is empty, otherwise the whole queue, swapped for an empty one. */
    method TakeBatch() returns (wire: Option<Wire>)
      modifies this
      ensures queue == [] && nextId == old(nextId) && handlers == old(handlers) && settled == old(settled)
      ensures wire.None? <==> old(queue) == []
      ensures wire.Some? ==> wire.value == Batch(old(queue))
    {
      if queue == [] {
        return None;
      }
      var q := queue;
      queue := [];
      wire := Some(Batch(q));
    }

    /** `process(key, ...)`: settles and deletes exactly that handler; `ok` is false (a `TypeError`) when there is none. */
    method Process(key: string, o: Outcome) returns (ok: bool)
      requires Valid()
      modifies this
      ensures Valid() && nextId == old(nextId) && queue == old(queue)
      ensures ok <==> key in old(handlers)
      ensures ok ==> handlers == old(handlers) - {key} && settled == old(settled)[key := o]
      ensures ok ==> State() == Settle(old(State()), key, o).value
      ensures !ok ==> State() == old(State())
    {
      if key !in handlers {
        return false;
      }
      handlers := handlers - {key};
      settled := settled[key := o];
      ok := true;
    }

    /** `processAll(data)`: each element settles the handler of its id, until one throws. */
    method ProcessAll(data: seq<Value>) returns (err: Option<Error>)
      requires Valid()
      modifies this
      ensures Valid() && nextId == old(nextId) && queue == old(queue)
      ensures (State(), err) == Dispatch(old(State()), data)
    {
      var i := 0;
      while i < |data|
        invariant i <= |data|
        invariant Valid() && nextId == old(nextId) && queue == old(queue)
        invariant Dispatch(old(State()), data) == Dispatch(State(), data[i..])
      {
        assert data[i..][1..] == data[i + 1..];
        var key := ResponseKey(data[i]);
        if key.Failure? {
          return Some(key.error);
        }
        var ok := Process(key.value, Resolved(data[i]));
        if !ok {
          return Some(TypeError);
        }
        i := i + 1;
      }
      err := None;
    }

    /** `processAll(undefined, err)`: rejects every outstanding handler with `err` and empties the table. */
    method RejectAllWith(err: Error)
      requires Valid()
      modifies this
      ensures Valid() && nextId == old(nextId) && queue == old(queue)
      ensures State() == RejectAll(old(State()), err)
    {
      ghost var t0 := State();
      ghost var done: set<string> := {};
      while handlers != map[]
        invariant Valid() && nextId == old(nextId) && queue == old(queue)
        invariant done <= t0.handlers.Keys
        invariant handlers == t0.handlers - done
        invariant settled == t0.settled + RejectedOn(done, err)
        decreases |handlers|
      {
        var k :| k in handlers;
        var ok := Process(k, Rejected(err));
        RejectStep(t0, done, k, err);
        done := done + {k};
      }
      RejectDone(t0, done, err);
    }

    /** `send`'s handling of a body: parse it and settle by id; whatever throws on the way rejects all that remain. */
    method HandleBody(body: Body)
      requires Valid()
      modifies this
      ensures Valid() && nextId == old(nextId) && queue == old(queue)
      ensures State() == Receive(old(State()), body)
    {
      var items := ParseResp(body);
      if items.Failure? {
        RejectAllWith(items.error);
        return;
      }
      var err := ProcessAll(items.value);
      if err.Some? {
        RejectAllWith(err.value);
      }
    }
  }

  /** One step of `RejectAllWith`: rejecting `k` moves it from the outstanding part to the rejected part. */
  lemma RejectStep(t0: Table, done: set<string>, k: string, err: Error)
    ensures (t0.handlers - done) - {k} == t0.handlers - (done + {k})
    ensures (t0.settled + RejectedOn(done, err))[k := Rejected(err)] == t0.settled + RejectedOn(done + {k}, err)
  {
  }

  /** The end of `RejectAllWith`: once nothing is outstanding, every handler has been rejected. */
  lemma RejectDone(t0: Table, done: set<string>, err: Error)
    requires done <= t0.handlers.Keys && t0.handlers - done == map[]
    ensures RejectedOn(done, err) == RejectedOn(t0.handlers.Keys, err)
  {
    assert forall k :: k in t0.handlers ==> k in t0.handlers - done || k in done;
  }

  /** The module-wide count of clients created (`jsonrpc_cnt`), which numbers their batch locks. */
  class RpcFactory {
    var created: nat

    constructor ()
      ensures created == 0
    {
      created := 0;
    }

    /** `jsonrpc(url, opt)`: batching unless `opt.batch` says otherwise; only `http...` urls are accepted, after the count is taken. */
    method Open(url: string, batchOption: Option<bool>) returns (r: Result<RpcClient, Error>)
      modifies this
      ensures created == old(created) + 1
      ensures r.Failure? <==> !StartsWith(url, "http")
      ensures r.Failure? ==> r.error == Error("Wrong protocol")
      ensures r.Success? ==> fresh(r.value) && r.value.Valid()
      ensures r.Success? ==> r.value.lockKey == BatchLockKey(old(created))
      ensures r.Success? ==> r.value.batch == (batchOption.None? || batchOption.value)
      ensures r.Success? ==> r.value.nextId == 0 && r.value.handlers == map[] && r.value.queue == [] && r.value.settled == map[]
    {
      var n := created;
      created := created + 1;
      if !StartsWith(url, "http") {
        return Failure(Error("Wrong protocol"));
      }
      var c := new RpcClient(batchOption.None? || batchOption.value, BatchLockKey(n));
      r := Success(c);
    }
  }

  // ---------------------------------------------------------------------------
  // Properties

  /** Every element of the line fallback comes from a parsed line, and every value of a parsed line is there. */
  lemma {:induction false} FlattenLinesMembers(lines: seq<Line>)
    ensures forall x :: x in FlattenLines(lines) <==> exists l :: l in lines && l.Parsed? && x in AsArray(l.v)
  {
    if lines != [] {
      FlattenLinesMembers(lines[1..]);
      assert lines == [lines[0]] + lines[1..];
    }
  }

  /** The line fallback concatenates line by line, so an empty line contributes nothing. */
  lemma {:induction false} FlattenLinesAppend(a: seq<Line>, b: seq<Line>)
    ensures FlattenLines(a + b) == FlattenLines(a) + FlattenLines(b)
  {
    if a != [] {
      assert (a + b)[0] == a[0] && (a + b)[1..] == a[1..] + b;
      FlattenLinesAppend(a[1..], b);
    } else {
      assert a + b == b;
    }
  }

  /** `parseResp`: an array stays as it is, any other value is wrapped; the fallback fails on a non-JSON line and flattens one level. */
  lemma ParseRespSpec(v: Value, lines: seq<Line>, xs: seq<Value>)
    ensures ParseResp(Whole(Arr(xs))) == Success(xs)
    ensures !v.Arr? ==> ParseResp(Whole(v)) == Success([v])
    ensures ParseResp(Streamed(lines)).Failure? <==> Malformed in lines
    ensures ParseResp(Streamed(lines + [Blank])) == ParseResp(Streamed(lines))
    ensures ParseResp(Streamed([Parsed(Arr(xs))] + lines)) == ParseResp(Streamed(lines)).MapValue(r => xs + r)
  {
    FlattenLinesAppend(lines, [Blank]);
    assert FlattenLines([Blank]) == [] + FlattenLines([Blank][1..]);
    assert FlattenLines(lines + [Blank]) == FlattenLines(lines);
    assert ([Parsed(Arr(xs))] + lines)[1..] == lines;
    assert Malformed in lines + [Blank] <==> Malformed in lines;
  }

  /** Settlement never loses a call: every handler is still outstanding or now settled, nothing settled before changes. */
  lemma {:induction false} DispatchConserves(t: Table, data: seq<Value>)
    requires t.handlers.Keys !! t.settled.Keys
    decreases |data|
    ensures var r := Dispatch(t, data).0;
      && r.handlers.Keys !! r.settled.Keys
      && r.handlers.Keys <= t.handlers.Keys
      && r.handlers.Keys + r.settled.Keys == t.handlers.Keys + t.settled.Keys
      && forall k :: k in t.settled ==> k in r.settled && r.settled[k] == t.settled[k]
  {
    if data != [] {
      match ResponseKey(data[0])
      case Failure(_) =>
      case Success(key) =>
        match Settle(t, key, Resolved(data[0]))
        case Failure(_) =>
        case Success(t') => DispatchConserves(t', data[1..]);
    }
  }

  /** Each element's key, in order. */
  predicate Answers(t: Table, data: seq<Value>) {
    && (forall i :: 0 <= i < |data| ==> ResponseKey(data[i]).Success? && ResponseKey(data[i]).value in t.handlers)
    && (forall i, j :: 0 <= i < j < |data| ==> ResponseKey(data[i]) != ResponseKey(data[j]))
  }

  /**
   * When every element answers a distinct outstanding id, nothing throws:
   * each of those handlers is resolved with its own element and removed,
   * and no other handler is touched.
   */
  lemma {:induction false} DispatchAnswersEach(t: Table, data: seq<Value>)
    requires Answers(t, data)
    decreases |data|
    ensures Dispatch(t, data).1 == None
    ensures var r := Dispatch(t, data).0;
      && r.handlers.Keys <= t.handlers.Keys
      && (forall i :: 0 <= i < |data| ==>
            var k := ResponseKey(data[i]).value; k !in r.handlers && k in r.settled && r.settled[k] == Resolved(data[i]))
      && (forall k :: k in t.handlers && (forall i :: 0 <= i < |data| ==> ResponseKey(data[i]).value != k) ==>
            k in r.handlers && r.handlers[k] == t.handlers[k])
      && (forall k :: k in t.settled && k !in t.handlers ==> k in r.settled && r.settled[k] == t.settled[k])
  {
    if data != [] {
      var key := ResponseKey(data[0]).value;
      var t' := Settle(t, key, Resolved(data[0])).value;
      var rest := data[1..];
      assert Answers(t', rest) by {
        forall i | 0 <= i < |rest| ensures ResponseKey(rest[i]).value in t'.handlers {
          assert rest[i] == data[i + 1];
        }
        forall i, j | 0 <= i < j < |rest| ensures ResponseKey(rest[i]) != ResponseKey(rest[j]) {
          assert rest[i] == data[i + 1] && rest[j] == data[j + 1];
        }
      }
      DispatchAnswersEach(t', rest);
      var r := Dispatch(t', rest).0;
      forall i | 0 <= i < |data|
        ensures var k := ResponseKey(data[i]).value; k !in r.handlers && k in r.settled && r.settled[k] == Resolved(data[i])
      {
        if i > 0 {
          assert data[i] == rest[i - 1];
        } else {
          forall j | 0 <= j < |rest| ensures ResponseKey(rest[j]).value != key {
            assert rest[j] == data[j + 1];
          }
        }
      }
      forall k | k in t.handlers && (forall i :: 0 <= i < |data| ==> ResponseKey(data[i]).value != k)
        ensures k in r.handlers && r.handlers[k] == t.handlers[k]
      {
        assert ResponseKey(data[0]).value != k;
        forall i | 0 <= i < |rest| ensures ResponseKey(rest[i]).value != k {
          assert rest[i] == data[i + 1];
        }
      }
    }
  }

  /** An element whose id is not outstanding stops `processAll` with a `TypeError`, touching nothing. */
  lemma DispatchUnknownId(t: Table, d: Value, rest: seq<Value>)
    requires ResponseKey(d).Success? && ResponseKey(d).value !in t.handlers
    ensures Dispatch(t, [d] + rest) == (t, Some(TypeError))
  {
  }

  /** A transport failure, or anything thrown while settling, rejects every outstanding handler with the same error. */
  lemma RejectAllFansOut(t: Table, err: Error)
    requires t.handlers.Keys !! t.settled.Keys
    ensures RejectAll(t, err).handlers == map[]
    ensures forall k :: k in t.handlers ==> RejectAll(t, err).settled[k] == Rejected(err)
    ensures forall k :: k in t.handlers ==> CallResult(RejectAll(t, err).settled[k]) == Failure(err)
    ensures forall k :: k in t.settled ==> RejectAll(t, err).settled[k] == t.settled[k]
    ensures RejectAll(t, err).settled.Keys == t.handlers.Keys + t.settled.Keys
  {
  }

  /** A batch answered element by element resolves each call with the element carrying its id. */
  lemma ReceiveAnswers(t: Table, responses: seq<Value>)
    requires Answers(t, responses)
    ensures var r := Receive(t, Whole(Arr(responses)));
      forall i :: 0 <= i < |responses| ==>
        var k := ResponseKey(responses[i]).value;
        k in r.settled && r.settled[k] == Resolved(responses[i]) && CallResult(r.settled[k]) == RpcResult(responses[i])
  {
    DispatchAnswersEach(t, responses);
  }

  /** After any body, no handler is both outstanding and settled, and none is lost. */
  lemma ReceiveConserves(t: Table, body: Body)
    requires t.handlers.Keys !! t.settled.Keys
    ensures var r := Receive(t, body);
      && r.handlers.Keys !! r.settled.Keys
      && r.handlers.Keys + r.settled.Keys == t.handlers.Keys + t.settled.Keys
      && forall k :: k in t.settled ==> k in r.settled && r.settled[k] == t.settled[k]
  {
    match ParseResp(body)
    case Failure(e) =>
    case Success(items) =>
      DispatchConserves(t, items);
  }

  /**
   * A remote error object: `JsonRPC(code): message` when its message is
   * truthy, otherwise the caller gets `result`; the explorer throws the
   * same text under its own name for the same object.
   */
  lemma RpcResultSpec(res: Value)
    ensures RpcResult(res).Success? <==>
      !IsNullish(res) && !(Truthy(res) && Truthy(Prop(res, "error")) && Truthy(Prop(Prop(res, "error"), "message")))
    ensures RpcResult(res).Success? ==> RpcResult(res).value == Prop(res, "result")
    ensures res.Obj? && Prop(res, "message") != Str("NOTOK") && Truthy(Prop(res, "error")) && Truthy(Prop(Prop(res, "error"), "message")) ==>
      var code, message := Prop(Prop(res, "error"), "code"), Prop(Prop(res, "error"), "message");
      && RpcResult(res) == Failure(Error(Describe("JsonRPC", code, message)))
      && Etherscan.Classify(res) == Failure(Error(Describe("EtherscanHTTP", code, message)))
  {
  }

  /** Distinct clients get distinct batch locks. */
  lemma BatchLockKeysDistinct(a: nat, b: nat)
    ensures BatchLockKey(a) == BatchLockKey(b) ==> a == b
  {
    if BatchLockKey(a) == BatchLockKey(b) {
      var p := "JsonRPC_batch";
      assert BatchLockKey(a)[|p|..] == Radix.NatToString(a, 10);
      assert BatchLockKey(b)[|p|..] == Radix.NatToString(b, 10);
      Radix.NatToStringInjective(a, b, 10);
    }
  }

  /**
   * Calls issued in one turn on a batching client leave in one request that
   * holds all of them, in order, under ids 0, 1, ...; the next flush sends
   * nothing; a failure of that request rejects every one of them.
   */
  method SameTurnCallsBatch(names: seq<string>, failure: Error) returns (first: Option<Wire>, second: Option<Wire>, outcomes: seq<Outcome>)
    requires |names| > 0
    ensures first.Some? && first.value.Batch? && |first.value.envelopes| == |names|
    ensures forall i :: 0 <= i < |names| ==>
      first.value.envelopes[i] == Envelope(names[i], [], i, "2.0")
    ensures second.None?
    ensures |outcomes| == |names| && forall i :: 0 <= i < |names| ==> outcomes[i] == Rejected(failure)
  {
    var c := new RpcClient(true, BatchLockKey(0));
    var i := 0;
    while i < |names|
      invariant i <= |names|
      invariant c.Valid() && c.batch && c.nextId == i && c.settled == map[]
      invariant |c.queue| == i && forall j :: 0 <= j < i ==> c.queue[j] == Envelope(names[j], [], j, "2.0")
      invariant forall j :: 0 <= j < i ==> IdKey(j) in c.handlers
    {
      var env, sent := c.Call(names[i], []);
      i := i + 1;
    }
    first := c.TakeBatch();
    second := c.TakeBatch();
    c.RejectAllWith(failure);
    var settled := c.settled;
    outcomes := [];
    while |outcomes| < |names|
      invariant |outcomes| <= |names|
      invariant forall j :: 0 <= j < |outcomes| ==> outcomes[j] == Rejected(failure)
    {
      outcomes := outcomes + [settled[IdKey(|outcomes|)]];
    }
  }
}
