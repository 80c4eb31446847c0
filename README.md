# micro-web3-net, modelled in Dafny

A model of the core of `micro-web3-net`, a minimal Ethereum client library.
It has two transports: a JSON-RPC node and the Etherscan HTTP explorer.
The model covers:

- **The numeric codec** (`radix.dfy`, `js.dfy`, `codec.dfy`). This is
  `numberToHex`, `add0x`, `numberToHexUnpadded`, `hexToNumber`, `ethNum`
  and `fromNum`. The parts of JavaScript they rely on are modelled too:
  `toString(16)`, `padStart`, `BigInt(string)` with its `0x`/`0o`/`0b`
  prefixes, truthiness, `String(value)` and property access.
- **Call arguments** (`callargs.dfy`). `Web3Abstract.callArgs` turns
  `Web3CallArgs` into the positional parameters `[object, tag]` of
  `eth_call` and `eth_estimateGas`. `estimateGas` decodes the answer.
- **The Etherscan transport** (`etherscan.dfy`). It covers the
  `ETHERSCAN_PARAMS` table and the translation of a method and its
  parameters into an explorer module, action and query. It also covers the
  classification of the explorer's answer.
- **The JSON-RPC transport** (`jsonrpc.dfy`). It covers the request
  envelopes and the per-client id counter, and the batch queue and its
  swap. The table of outstanding handlers is keyed by id.
  - `parseResp` has a line-by-line fallback.
  - `process` and `processAll` settle handlers by response id.
  - A transport or settlement failure rejects every handler that is still
    outstanding.
  - A remote error object is mapped to a thrown error.
  - The module-wide client counter numbers the batch locks.
  - The mutable state of one client is the class `JsonRpc.RpcClient`. The
    specification of its methods is the set of functions on `JsonRpc.Table`.
- **The lock registry** (`lock.dfy`). `lock(key, wrapper)` keeps a FIFO
  queue per key in the class `LockQueue.LockTable`.
  - The first call on a free key becomes the runner and drains the queue.
  - A call on a held key is appended to the queue.
  - The key is deleted once the queue is empty.

Asynchrony is modelled by making the interleaving a parameter. In `Lock`,
`arrivals[i]` lists the `lock` calls on the same key that are made while
the i-th task of the drain is awaited. Those calls run through `Lock`
itself and take its append branch.

Some behaviour of the code that is easy to miss:

- `callArgs` tests the string it is given (`args.nonce && ethNum(args.nonce)`),
  not the number it encodes. The string `"0"` is truthy, so a nonce of
  `"0"` is kept as `"0x0"` (`Web3Args.CallArgsSpec`). Only an absent or
  empty field is dropped.
- `fromNum` passes any string without a lower-case `0x` to `BigInt`. `BigInt`
  also reads `0X`, `0o` and `0b` prefixes (in either case) and a sign
  (`HexCodec.FromNumTextIsBigInt`, `Js.PrefixedReadsBack`).
- `Object.keys` lists array-index keys (canonical decimal below 2^32 - 1)
  first, in ascending order, and then the other keys in insertion order
  (`Js.PropertyOrder`). The explorer query of `eth_call` follows that order
  (`Etherscan.IndexKeysQueriedFirst`).
- The table of outstanding handlers is a JavaScript record, so its keys
  are strings. The model keys handlers by the decimal string of the id
  (`JsonRpc.IdKey`). A response's `id` is converted with `String(id)`
  (`JsonRpc.ResponseKey`).

## Model

| member | source | states |
|---|---|---|
| Radix.NatToString | micro-web3-net/index.ts:146 | `n.toString(radix)` is a non-empty string of digits in lower case. It starts with `0` exactly when `n` is zero. |
| Radix.NatToStringRoundTrip | micro-web3-net/index.ts:146 | Reading the digits of `n.toString(radix)` gives back `n`. |
| Radix.ParseNatToString | micro-web3-net/index.ts:165 | Parsing `n.toString(radix)` succeeds with `n`. |
| Radix.NatToStringInjective | micro-web3-net/index.ts:146 | Different numbers have different digit strings. |
| Radix.LeadingZeros | micro-web3-net/index.ts:147-148 | Zeros put in front of a digit string, as `padStart` does, leave its value unchanged. |
| Radix.DigitsValueSnoc | micro-web3-net/index.ts:165 | Appending a digit multiplies the value by the radix and adds the digit. |
| Js.IntToStringRoundTrip | micro-web3-net/index.ts:176 | `BigInt` of the decimal text of any integer, negative ones included, gives back that integer. |
| Js.ToLowerSpec | micro-web3-net/index.ts:186-187 | `toLowerCase` is idempotent and leaves no upper-case letter. `A`-`Z` become `a`-`z`, and every other character is unchanged. |
| Js.PrefixedRadix | micro-web3-net/index.ts:165 | `BigInt` reads the digits after `0x`/`0X` in radix 16, after `0o`/`0O` in radix 8 and after `0b`/`0B` in radix 2. It throws a `SyntaxError` when a character is not a digit of that radix. |
| Js.PrefixedReadsBack | micro-web3-net/index.ts:176 | For each of the six prefixes, `BigInt` of the prefix followed by `n.toString(radix)` gives back `n`. |
| Js.PrefixExamples | micro-web3-net/index.ts:176 | `BigInt("0o17")` is 15 and `BigInt("0B101")` is 5. |
| Js.InsertByIndex | micro-web3-net/index.ts:251 | Inserting a property into a list sorted by index keeps it sorted, adds exactly that property, and puts it or the old head first. |
| Js.SortByIndex | micro-web3-net/index.ts:251 | The properties come out in ascending index order, as a permutation of the input. |
| Js.PropertyOrderPermutes | micro-web3-net/index.ts:251 | `Object.keys` lists every property exactly once. |
| Js.PropertyOrderLayout | micro-web3-net/index.ts:251 | The array-index keys come first, in ascending order. They are followed by the other keys in insertion order. |
| Js.PropertyOrderNamed | micro-web3-net/index.ts:251 | An object without array-index keys is listed in insertion order. |
| Js.IndexKeyFirst | micro-web3-net/index.ts:251 | An object built as `{b, 1}` lists `1` before `b`. |
| HexCodec.NumberToHexSpec | micro-web3-net/index.ts:144-149 | It fails exactly when `byteLength` is 0. Otherwise the length is `max(2*byteLength, even-padded digit count)`, because `padStart` never truncates. The length is even and the string reads back to `n`. |
| HexCodec.NumberToHexLength | micro-web3-net/index.ts:147-148 | For a positive `byteLength`, the padded length is the larger of `2*byteLength` and the unpadded length, and it is even. |
| HexCodec.EvenPad | micro-web3-net/index.ts:147 | Prefixing one `0` to an odd-length digit string makes its length even. |
| HexCodec.Add0x | micro-web3-net/index.ts:151-153 | The result always starts with `0x` or `0X`. |
| HexCodec.Add0xSpec | micro-web3-net/index.ts:151-153 | The prefix is added exactly when no `0x` or `0X` (any case) is present. Applying `add0x` twice is the same as applying it once. |
| HexCodec.NumberToHexUnpaddedSpec | micro-web3-net/index.ts:155-159 | The digit count is even, and the digits read back to `n` with or without `0x`. |
| HexCodec.HexDigitsReadBack | micro-web3-net/index.ts:161-166 | A bare string of hex digits is read as hex by `hexToNumber`. |
| HexCodec.PaddedHexReadsBack | micro-web3-net/index.ts:161-166 | Hex digits with leading zeros read back to the same number. |
| HexCodec.HexToNumberEmpty | micro-web3-net/index.ts:165 | `hexToNumber("")` is 0 and does not throw. |
| HexCodec.StripZerosOfHex | micro-web3-net/index.ts:170 | Removing leading zeros from the padded digits of a positive number leaves exactly `n.toString(16)`. |
| HexCodec.EthNumSpec | micro-web3-net/index.ts:168-171 | `undefined` and 0 give `0x0`. The result is `0x0` exactly when the number is 0. A positive number gives `0x` followed by its minimal hex digits: no leading zero, lower case, reading back to the number. |
| HexCodec.EthNumReadsTextAsHex | micro-web3-net/index.ts:169 | A string is always read as hex. `"10"` and `"0x10"` both mean sixteen. |
| HexCodec.EthNumExamples | micro-web3-net/index.ts:168-171 | `ethNum(15)` is `0xf` (an odd digit count is kept), `ethNum(255)` is `0xff`, and `ethNum("10")` is `0x10`. |
| HexCodec.FromNumTextIsBigInt | micro-web3-net/index.ts:173-179 | On any string, `fromNum` agrees with `BigInt`. |
| HexCodec.FromNumSpec | micro-web3-net/index.ts:173-179 | Numbers pass through. `0x`-prefixed hex and signed decimal read back to the value written, and `""` is 0. |
| Web3Args.Compact | micro-web3-net/index.ts:194 | After the `delete` loop, the remaining properties are a subsequence of the object, so their order is kept. Every remaining property is non-empty, and every non-empty one remains. |
| Web3Args.CompactAppend | micro-web3-net/index.ts:194 | The loop deletes each property on its own merits: compacting a concatenation is compacting each part. |
| Web3Args.CompactKeepsRanked | micro-web3-net/index.ts:194 | Deleting properties keeps the keys in the order to, from, data, nonce, value, gas, gasPrice. |
| Web3Args.FieldOrderNotIndex | micro-web3-net/index.ts:185-193 | None of the seven keys is an array index, so `Object.keys` lists them in insertion order. |
| Web3Args.ObjectOf | micro-web3-net/index.ts:201 | The parameter object has one string property per field. |
| Web3Args.CallArgsFailure | micro-web3-net/index.ts:189-192 | `callArgs` throws exactly when one of nonce, value, gas or gasPrice is a non-empty string that is not hex. |
| Web3Args.CallArgsSpec | micro-web3-net/index.ts:184-196 | Each of the seven keys holds what `callArgs` puts there. `from` is lower-cased, or the zero address when absent. `to` is lower-cased. `data` passes through. The numeric fields are `ethNum`-encoded. Empty fields are absent. |
| Web3Args.CallArgsShape | micro-web3-net/index.ts:185-195 | The keys are distinct and all known, and they come in the order to, from, data, nonce, value, gas, gasPrice. No value is empty. The tag is the given truthy tag, otherwise `latest`. |
| Web3Args.CompactKeepsDistinct | micro-web3-net/index.ts:194 | Deleting properties keeps the keys distinct. |
| Web3Args.GetCompactAt | micro-web3-net/index.ts:194 | After the `delete` loop, a key holds its original value, or is absent when that value was empty. |
| Web3Args.EncodedIsQuantity | micro-web3-net/index.ts:189-192 | A non-empty hex field is stored as the canonical quantity of its number and reads back to that number. |
| Web3Args.CallArgsLowerCase | micro-web3-net/index.ts:186-187 | `from` and `to` contain no upper-case letter. |
| Web3Args.ToLowerNoUpperCase | micro-web3-net/index.ts:186 | `toLowerCase` leaves no upper-case letter. |
| Web3Args.DecodeGasOfQuantity | micro-web3-net/index.ts:203-205 | `estimateGas` decodes the quantity of `n` back to `n`. |
| Etherscan.TableQuery | micro-web3-net/index.ts:249 | The query has one `key=value` part per parameter. |
| Etherscan.UnsupportedRejected | micro-web3-net/index.ts:248-255 | `Unsupported method` is thrown exactly for a method that is neither an own key of the table nor `eth_call` or `eth_estimateGas`. |
| Etherscan.TableMethodZips | micro-web3-net/index.ts:248-249 | A table method pairs the i-th parameter with the i-th key, and the query has one part per parameter. |
| Etherscan.TruthyPairsSpec | micro-web3-net/index.ts:251-253 | A query part exists exactly for each truthy property of the first parameter. |
| Etherscan.ObjectMethodQuery | micro-web3-net/index.ts:250-254 | `eth_call` and `eth_estimateGas` query the truthy fields of the object in `Object.keys` order, then `tag=` when the second parameter is truthy. |
| Etherscan.ObjectMethodNeedsObject | micro-web3-net/index.ts:251 | With no first parameter, `Object.keys(undefined)` throws a `TypeError`. |
| Etherscan.IndexKeysQueriedFirst | micro-web3-net/index.ts:251-253 | For an object built as `{b: x, 1: y}`, the query lists `1=y` before `b=x`. |
| Etherscan.RouteSpec | micro-web3-net/index.ts:256-258 | The account module is chosen exactly for `eth_getBalance` and `account_` methods. An `account_` method's action is its name without the prefix. Any other method goes to `proxy` unchanged. |
| Etherscan.RouteExamples | micro-web3-net/index.ts:256-258 | `eth_getBalance` becomes account/balance with `address=` and `tag=`. `account_txlist` becomes account/txlist. |
| Etherscan.EthCallQuery | micro-web3-net/index.ts:200-201 | For `ethCall`, the query is exactly the fields `callArgs` kept, in order, followed by the tag. |
| Etherscan.AllTruthyPairs | micro-web3-net/index.ts:252-253 | Fields with non-empty string values all pass the truthiness filter. |
| Etherscan.ClassifySpec | micro-web3-net/index.ts:265-268 | The call returns `result` exactly when the answer is an object that is not `NOTOK` and has no error with a truthy message. `NOTOK` throws `EtherscanHTTP(status): result`. An error object throws `EtherscanHTTP(code): message`. |
| Etherscan.PrototypeMethodNotRejected | micro-web3-net/index.ts:248-249 | As written, `toString` is accepted and queried as `undefined=x`. The corrected lookup rejects it. |
| Etherscan.AsWrittenAgreesElsewhere | micro-web3-net/index.ts:248-255 | Apart from the inherited names, the lookup as written and the corrected lookup agree. |
| JsonRpc.FlattenLinesMembers | micro-web3-net/index.ts:85-90 | An element of the line fallback comes from exactly one of two places: a parsed non-array line, or an element of a parsed array line. |
| JsonRpc.FlattenLinesAppend | micro-web3-net/index.ts:85-90 | The fallback concatenates line by line. |
| JsonRpc.ParseRespSpec | micro-web3-net/index.ts:79-94 | An array body is kept, and any other value is wrapped. The fallback fails on a non-JSON line, ignores empty lines and flattens one level. |
| JsonRpc.DispatchConserves | micro-web3-net/index.ts:75-78 | `processAll` never loses a call. Each handler stays outstanding or is settled, earlier settlements do not change, and no key is both outstanding and settled. |
| JsonRpc.DispatchAnswersEach | micro-web3-net/index.ts:71-78 | When the elements answer distinct outstanding ids, nothing throws. Each such handler is resolved with its own element and removed, and the others are untouched. |
| JsonRpc.DispatchUnknownId | micro-web3-net/index.ts:71-72 | An element whose id has no handler throws a `TypeError` and changes nothing. |
| JsonRpc.RejectAllFansOut | micro-web3-net/index.ts:76 | `processAll(undefined, err)` rejects every outstanding handler with `err` and empties the table, so each such caller gets `err`. Earlier settlements stay. |
| JsonRpc.RejectedOn | micro-web3-net/index.ts:76 | The rejections cover exactly the handlers' keys. |
| JsonRpc.ReceiveAnswers | micro-web3-net/index.ts:105 | A batch answer resolves each call with the element carrying its id. That caller then gets what the element's `result` or `error` gives. |
| JsonRpc.ReceiveConserves | micro-web3-net/index.ts:97-109 | Whatever body arrives, no call is lost or settled twice. |
| JsonRpc.RpcResultSpec | micro-web3-net/index.ts:137-140 | The caller gets `result` exactly when the answer is not nullish and has no error with a truthy message. An error throws `JsonRPC(code): message`. For the same object, the explorer throws the same text under its own name. |
| JsonRpc.BatchLockKeysDistinct | micro-web3-net/index.ts:67 | Distinct clients get distinct batch lock keys. |
| JsonRpc.RpcClient.constructor | micro-web3-net/index.ts:69-70 | A client starts at id 0 with no handlers and an empty queue. |
| JsonRpc.RpcClient.Call | micro-web3-net/index.ts:114-135 | The envelope is `{method, params, id, jsonrpc: '2.0'}` under the next id. That id is neither outstanding nor settled, and the counter is incremented. The handler is registered. The envelope is queued when batching and nothing is sent. Otherwise the envelope is sent alone, as a single request. |
| JsonRpc.RpcClient.TakeBatch | micro-web3-net/index.ts:120-127 | An empty queue sends nothing. Otherwise the whole queue is sent as one batch and replaced by `[]`. |
| JsonRpc.RpcClient.Process | micro-web3-net/index.ts:71-74 | `process` settles and deletes exactly that id's handler, and throws when there is none. |
| JsonRpc.RpcClient.ProcessAll | micro-web3-net/index.ts:77 | The loop does what `processAll(data)` specifies, including stopping at the first element that throws. |
| JsonRpc.RpcClient.RejectAllWith | micro-web3-net/index.ts:76 | The loop rejects every outstanding handler with the error and leaves the table empty. |
| JsonRpc.RpcClient.HandleBody | micro-web3-net/index.ts:97-109 | `send` parses the body and settles handlers by id. Anything thrown on the way rejects every handler that remains. |
| JsonRpc.RpcFactory.Open | micro-web3-net/index.ts:59-112 | The client counter is incremented even for a rejected url. Only `http` urls are accepted, otherwise `Wrong protocol` is thrown. Batching is on unless `batch` is given. The lock key is `JsonRPC_batch` followed by the count. |
| JsonRpc.SameTurnCallsBatch | micro-web3-net/index.ts:113-130 | Calls in one turn leave as one batch, in order, with ids 0, 1, ... . The next flush sends nothing, and a failure of that batch rejects every call in it. |
| LockQueue.LockTable.Lock | micro-web3-net/index.ts:38-57 | A call on a held key is appended and runs nothing. A call on a free key is the runner: it runs its own call, then each arrival in FIFO order, until the queue is empty. It settles each call by its own task and deletes the key. |
| LockQueue.LockTable.Await | micro-web3-net/index.ts:40 | Calls made while a task is awaited are appended to the held key's queue in order. |
| LockQueue.LockTable.constructor | micro-web3-net/index.ts:37 | The registry starts empty. |
| LockQueue.EnqueuedPrefix | micro-web3-net/index.ts:40-43 | FIFO: whatever is queued stays at the head of the queue, in the same order, as more calls arrive. |
| LockQueue.EnqueuedStep | micro-web3-net/index.ts:40-47 | Each finished task adds exactly the calls that arrived during it. |
| LockQueue.FlattenPrefix | micro-web3-net/index.ts:40 | Earlier arrivals form a prefix of all arrivals. |
| LockQueue.DrainDetermined | micro-web3-net/index.ts:42 | The drain stops at the first point the queue is empty, so the arrivals determine the length of the run. |
| LockQueue.SettlementsSpec | micro-web3-net/index.ts:45-49 | Each call is settled once, in the order the calls ran: resolved when its task returns, rejected when it throws. |
| LockQueue.TwoCalls | micro-web3-net/index.ts:38-57 | When a second call arrives while the first runs, the first call runs both in order and settles both, and the key is freed. |

## Left out

- Network I/O is not modelled: `fetch`, the Etherscan URL string with its
  `apikey`, request headers and TLS options. The explorer request is
  modelled as its module, action and query parts. `autocomplete` is
  network-only and is left out.
- Asynchrony is not modelled: `nextTick`, the tick-stability loop that
  closes a batch, and the interleaving of promises. The lock's interleaving
  is the `arrivals` parameter, and the batch flush is `TakeBatch`.
- `LockQueue.LockTable.Lock`: a task that calls `lock` on a different key
  while it runs is not modelled. Only arrivals on the same key are.
- `LockQueue.LockTable.Lock`: its two internal `throw`s cannot occur in the
  model, so they are not modelled. The postcondition proves the queue is
  empty at the end and the key is deleted.
- Lock keys and Etherscan method names that are `Object.prototype` member
  names are out of scope for `lock`. For `lock`, `locks[key]` would find
  an inherited function. For the explorer they are the finding below.
- `JSON.parse` and `JSON.stringify` are replaced by pre-parsed values.
  `JsonRpc.Body` and `JsonRpc.Line` say which lines parse.
- The `customMsg` option of `jsonrpc` is left out. It replaces the
  envelope and the error mapping with a caller-supplied function.
- `JsonRpc.RpcFactory.Open`: an explicitly `undefined` `batch` option is
  not modelled. The spread lets it switch batching off.
- `Js.Value`: numbers are unbounded integers, not IEEE doubles. In
  JavaScript, `String(n)` of a number of 1e21 or more uses exponent form, a
  fraction has a decimal point, and an id counter stops growing at 2^53.
  The model's explorer query text (`${v}`) and `String(d.id)` use plain
  decimal digits.
- Negative numbers and fractional JavaScript numbers are left out of the
  codec, which works on natural numbers. `toString(16)` of a negative
  number has a `-` sign, and `BigInt` of a fraction throws.
- `BigInt(string)` trims whitespace, which the model does not do.
- `toLowerCase` is modelled for ASCII letters only.
- The `typeof hex !== 'string'` check of `hexToNumber` is not modelled.
  Argument types are fixed in the model.
- The option checks in the `Web3` and `EtherscanHTTP` constructors are not
  modelled. Neither is `web3Call`, which only forwards its arguments.
- `src/contracts/erc20.ts` and the decimal helpers it uses are not part of
  this model.
- `processAll(undefined, err)` converts each key with `+k` and back to a
  string. The model keeps the key itself. The two are the same for the
  canonical decimal keys `call` issues.

## Findings

| source | as written | input that shows it | evidently intended | confidence | as-written member | corrected member |
|---|---|---|---|---|---|---|
| micro-web3-net/index.ts:248-249 | `ETHERSCAN_PARAMS[method]` also finds the members every object inherits from `Object.prototype`. Those are truthy, so the method is not rejected, and each parameter is sent under the key `undefined`. | method `toString` with parameter `"x"` gives the request `proxy`/`toString` with query `undefined=x` | `Unsupported method` for every name that is not an own key of the table (`Object.hasOwn`) | not executed | Etherscan.PrototypeMethodNotRejected | Etherscan.UnsupportedRejected |
