# TxListener, modelled in Dafny

A model of `TxListener`, the component of the Remix IDE that watches the blocks of an
Ethereum execution environment and labels each transaction with a call description: which
compiled contract it targets, which function it calls, and the decoded arguments. For a
contract creation, it records the constructor and the address the contract was deployed at.

The model follows the source's own structure:

- `Listener.TxListener` is the object itself. It is a class whose fields are the ones the source
  updates in place: the block log `blocks`, `lastBlock`, the session `loopId`, and the two caches.
  The caches are `resolvedContracts` (address to contract name) and `resolvedTransactions`
  (transaction hash to call record). Its methods are `init`, `startListening`, `stopListening`,
  one firing of the polling timer (`Tick`), `_newBlock`, the two lookups, `_tryResolveContract`,
  `_decodeInputParams`, `_resolveFunction` and `_resolveTx`. Each loop of the source stays a loop.
- Each method is proved against a specification function of the old state and the inputs.
  `TickSpec` is in `Scheduler`. `MatchContract` and `SelectorMatch` are in `Artifacts`.
  `FindFunction`, `ConstructorInterface` and `DecodeParams` are in `Abi`. `ResolveFunctionSpec`
  and `ResolveTxSpec` are in `Resolution`. The properties are proved about these functions:
  their own `ensures` clauses, and the lemmas in `Scheduler` and `ResolutionFacts`.
- `getFunction` and `getConstructorInterface`, which are module-level functions in the source, are
  the methods `Abi.GetFunction` and `Abi.GetConstructorInterface`.
- The two foreign libraries are uninterpreted functions, passed to the constructor as constants.
  `codeUtil.compareByteCode` is `compareByteCode`. `ethJSABI.rawDecode` applied to
  `ethJSUtil.toBuffer('0x' + data)` is `rawDecode`. The answers of the environment are method
  parameters: the height from `getBlockNumber`, the value of `contracts()`, the created address
  from `resolveReceipt`, and the deployed code from `getCode`.

JavaScript behaviour that the model keeps as written:

- `!this.lastBlock` is true for `null` and for `0`. A `lastBlock` of 0 therefore counts as unset.
  From 0, a jump to height h dispatches block h alone, and blocks 1 .. h-1 are never dispatched
  (`Scheduler.ZeroLastBlockDispatchesOnlyHeight`). While the height stays 0, block 0 is dispatched
  on every tick (`Scheduler.HeightZeroDispatchedEveryTick`).
- `tx.input.replace('0x', '')` removes the first occurrence of "0x", wherever it is.
- `substring(0, 8)` clamps to the string, so an input shorter than 8 hex digits is compared
  whole against the selectors.
- `!tx.to`, `if (contractName)` and `if (code)` treat the empty string as absent.
- `contracts()` short-circuits only when it returns nothing. An empty set of contracts still
  goes on to `getCode` and the matching.
- An absent `bytecode` field is concatenated as `"0xundefined"` before it is compared.
- `_resolveFunction` throws in four cases, and the model returns each as `Failure`:
  - the indexed name is no longer in the compiled set;
  - `getFunction` returned null;
  - the ABI entry has no `inputs`;
  - the decoder throws.
  When it throws, nothing is stored at `tx.hash`. The address was already written to
  `resolvedContracts` before the call, and it stays written.

- The caches are not write-once: `_resolvedTransactions[tx.hash]` is overwritten on every
  resolution. What holds is idempotence: resolving the same transaction again, with the same
  answers, reports the same outcome and changes nothing (`ResolutionFacts.ResolveTxIdempotent`).
- Constructor arguments are decoded whenever `bytecode` is non-empty, also when the contract
  declares no constructor. They are then decoded against an empty type list.
- Blocks are skipped after a `lastBlock` of 0, as described above. Once a block above 0 has been
  seen, no block is skipped or repeated (`Scheduler.SessionDispatchesEachBlockOnce`). Right after
  `startListening`, a first height h of 1 or more starts an unbroken run from h
  (`Scheduler.SessionFromReset`).

## Model

| member | source | states |
|---|---|---|
| `Search.FirstIndex` | src/app/execution/txListener.js:238-243 | the first position whose element satisfies the test, and that no earlier one does; None exactly when no element does |
| `JsStrings.RemoveFirstHexMarker` | src/app/execution/txListener.js:201 | an input starting with "0x" loses exactly that prefix; an input without "0x" is unchanged; otherwise exactly two characters are removed |
| `JsStrings.SubstringTo` | src/app/execution/txListener.js:204 | `substring(0, n)` is a prefix of the string, of length n or the whole string when it is shorter |
| `JsStrings.SubstringFrom` | src/app/execution/txListener.js:209 | `substring(n)`, also used for the constructor arguments at line 225, is what follows `substring(0, n)`: the two put back together give the string, and past its end the rest is empty |
| `JsStrings.BeforeFirst` | src/app/execution/txListener.js:270 | the result is a prefix of the name without '(' in it, and either the whole name or followed by '(' in it |
| `Abi.FindFunction` | src/app/execution/txListener.js:269-277 | the first ABI entry whose name equals the signature's part before '('; null exactly when no entry has that name |
| `Abi.GetFunction` | src/app/execution/txListener.js:269-277 | the loop returns exactly `FindFunction` |
| `Abi.ConstructorInterface` | src/app/execution/txListener.js:257-267 | a constructor entry named "" whose inputs are those of the first `constructor` entry; `[]` when that entry has none or there is no constructor |
| `Abi.GetConstructorInterface` | src/app/execution/txListener.js:257-267 | the loop with `break` returns exactly `ConstructorInterface` |
| `Abi.InputTypes` | src/app/execution/txListener.js:248-251 | the declared types of the inputs, one per input, in declaration order |
| `Abi.DecodeParams` | src/app/execution/txListener.js:246-253 | throws on a null entry or an entry without inputs; otherwise succeeds exactly with what the decoder returns for the declared types, and throws when the decoder does |
| `Artifacts.FieldCode` | src/app/execution/txListener.js:239 | the compared string starts with "0x" and continues with the selected bytecode field. An absent field gives "0xundefined" |
| `Artifacts.MatchContract` | src/app/execution/txListener.js:237-244 | the first contract key, in iteration order, whose selected bytecode field compares equal to the code; null exactly when no key does |
| `Artifacts.SelectorMatch` | src/app/execution/txListener.js:203-204 | the first `functionHashes` entry whose selector equals the given one; none exactly when no entry does |
| `Resolution.IsCreation` | src/app/execution/txListener.js:153 | `!tx.to` holds exactly for a null and for an empty `to` |
| `Resolution.HasBytecode` | src/app/execution/txListener.js:224 | `bytecode && bytecode.length` holds exactly when the field is present and non-empty |
| `Resolution.ResolveFunctionSpec` | src/app/execution/txListener.js:199-235 | the rules for one contract: an unknown name throws; a call takes the FIRST entry whose selector equals the first 8 hex digits, with the rest decoded against that function's ABI; no match gives the fallback with null params; a constructor has no `to`, null params without bytecode, and otherwise the input after the bytecode decoded against the constructor's inputs |
| `Resolution.FinishCall` | src/app/execution/txListener.js:182-193 | once the name of `tx.to` is known, the address is indexed under it and the record stored at `tx.hash` is the one reported |
| `Resolution.FinishCreation` | src/app/execution/txListener.js:160-171 | once the contract and the created address are known, the address is indexed under the name, also when `_resolveFunction` throws. The stored and reported record is the constructor record with the created address added |
| `Resolution.ResolveCreation` | src/app/execution/txListener.js:153-172 | the creation path keeps the shape of every resolution described in `StepShape` |
| `Resolution.ResolveCall` | src/app/execution/txListener.js:173-196 | the call path keeps the shape described in `StepShape` |
| `Resolution.ResolveTxSpec` | src/app/execution/txListener.js:148-197 | with no contracts nothing happens. Every path changes at most `tx.hash` and one address, and removes no address from the index. When nothing resolved, neither cache changes; when `_resolveFunction` threw, nothing is stored and the index changed at one address at most. A success stores the record it reports and indexes its contract's address. A creation is the constructor with no `to`, carrying the created address. A call keeps `tx.to` |
| `ResolutionFacts.KnownAddressIgnoresCode` | src/app/execution/txListener.js:175-194 | a call to an indexed address resolves with the indexed name, leaves the index unchanged, and gives the same result whatever the deployed code and receipt |
| `ResolutionFacts.CreationIndexesReceiptAddress` | src/app/execution/txListener.js:157-168 | a matched creation with a receipt indexes the receipt's address under the contract name. Its record is the constructor with no `to`, carrying the created address, and is the one stored. Without bytecode its params are null |
| `ResolutionFacts.CallIndexesDeployedAddress` | src/app/execution/txListener.js:177-185 | a call to an unindexed address whose deployed code matches a runtime bytecode indexes `tx.to` under that contract's name |
| `ResolutionFacts.FinishCallIdempotent` | src/app/execution/txListener.js:182-193 | finishing the same call again on the caches it left changes nothing |
| `ResolutionFacts.FinishCreationIdempotent` | src/app/execution/txListener.js:160-171 | finishing the same creation again on the caches it left changes nothing |
| `ResolutionFacts.CreationIdempotent` | src/app/execution/txListener.js:157-172 | resolving a creation twice gives the same outcome and caches as once |
| `ResolutionFacts.CallIdempotent` | src/app/execution/txListener.js:173-196 | resolving a call twice gives the same outcome and caches as once. Whenever the first time got as far as `_resolveFunction`, `tx.to` is indexed with a non-empty name afterwards, so the second time takes the name from the index without `getCode` |
| `ResolutionFacts.ResolveTxIdempotent` | src/app/execution/txListener.js:148-197 | resolving any transaction a second time on the caches the first left, with the same answers, reports the same outcome and leaves the caches as they were |
| `ResolutionFacts.FooBarResolves` | src/app/execution/txListener.js:201-212 | for input 0x2fbebd38 followed by the arguments, contract Foo resolves to `bar(uint256)` with the decoded arguments |
| `ResolutionFacts.SelectorScenario` | src/app/execution/txListener.js:175-212 | a call to Foo's indexed address with selector 2fbebd38 is reported as `{contractName: Foo, fn: bar(uint256), params: [5]}` and stored at its hash |
| `ResolutionFacts.FallbackScenario` | src/app/execution/txListener.js:214-220 | the same call with input 0xffffffff is reported as Foo's fallback with null params |
| `Scheduler.Unset` | src/app/execution/txListener.js:69-70 | `!this.lastBlock` holds exactly for null and for 0; any other number, negative included, is set |
| `Scheduler.Range` | src/app/execution/txListener.js:71-80 | the numbers lo .. hi, in increasing order, one per position |
| `Scheduler.TickSpec` | src/app/execution/txListener.js:65-81 | a tick has no effect when there is no polling session (stopped or VM), the height is an error, the tick is stale, or the height is not above a set `lastBlock`. An accepted tick dispatches `lastBlock`+1 .. height, or only the height when `lastBlock` is null or 0. It then sets `lastBlock` to the height |
| `Scheduler.TickDispatchesIncreasing` | src/app/execution/txListener.js:71-80 | the blocks one tick dispatches are strictly increasing and none is above the height. Once a block above 0 has been seen, all are above `lastBlock` |
| `Scheduler.SessionDispatchesEachBlockOnce` | src/app/execution/txListener.js:64-83 | once a block above 0 has been seen, the ticks of a session together dispatch every following block exactly once, in order, up to the final `lastBlock` |
| `Scheduler.SessionFromReset` | src/app/execution/txListener.js:58-83 | after `startListening` resets `lastBlock`, a session whose first height is h >= 1 dispatches exactly h, h+1, ... up to the final `lastBlock`, each once and in order |
| `Scheduler.ZeroLastBlockDispatchesOnlyHeight` | src/app/execution/txListener.js:69-72 | with `lastBlock` 0, a tick at height h > 1 dispatches h alone and none of 1 .. h-1 |
| `Scheduler.HeightZeroDispatchedEveryTick` | src/app/execution/txListener.js:69-72 | with `lastBlock` null or 0 and height 0, a tick dispatches block 0 again |
| `Listener.TxListener.constructor` | src/app/execution/txListener.js:18-23 | both caches and the log start empty, `lastBlock` is null and no session runs |
| `Listener.TxListener.Init` | src/app/execution/txListener.js:47-50 | the log is empty and `lastBlock` null; nothing else changes |
| `Listener.TxListener.StartListening` | src/app/execution/txListener.js:58-85 | the log is empty, `lastBlock` null, the session is 'vm-listener' or the new timer, and both caches are unchanged. A polling timer's id must be one setInterval has not handed out before; it is recorded, so no tick of an earlier session matches the new one |
| `Listener.TxListener.StopListening` | src/app/execution/txListener.js:101-106 | `loopId` is null afterwards; nothing else changes |
| `Listener.TxListener.Tick` | src/app/execution/txListener.js:65-81 | `lastBlock` and the dispatched numbers are exactly `TickSpec`'s; only `lastBlock` changes |
| `Listener.TxListener.NewBlock` | src/app/execution/txListener.js:128-129 | exactly the given block is appended to the log |
| `Listener.TxListener.ResolvedContract` | src/app/execution/txListener.js:114-116 | the name indexed for the address, absent exactly when the address is not indexed |
| `Listener.TxListener.ResolvedTransaction` | src/app/execution/txListener.js:124-126 | the record stored for the hash, absent exactly when none is stored |
| `Listener.TxListener.TryResolveContract` | src/app/execution/txListener.js:237-244 | the loop returns exactly `MatchContract` |
| `Listener.TxListener.DecodeInputParams` | src/app/execution/txListener.js:246-253 | the type list the loop builds is `InputTypes`, so the result is exactly `DecodeParams` |
| `Listener.TxListener.ResolveFunction` | src/app/execution/txListener.js:199-235 | returns exactly `ResolveFunctionSpec`, and stores the returned record at `tx.hash` (only that key) or nothing when it throws |
| `Listener.TxListener.ResolveTx` | src/app/execution/txListener.js:148-197 | the outcome and both caches afterwards are exactly `ResolveTxSpec` of the caches before |
| `Listener.TxListener.ResolveCreationTx` | src/app/execution/txListener.js:153-172 | the creation branch: outcome and caches are exactly `ResolveCreation` |
| `Listener.TxListener.ResolveCallTx` | src/app/execution/txListener.js:173-196 | the call branch: outcome and caches are exactly `ResolveCall` |

## Left out

- The 2-second `setInterval` timer and `clearInterval` (txListener.js:64, 83, 102-104) are not modelled. Each firing of the timer is an explicit call to `Tick`. The id `setInterval` returns is the `timer` parameter of `StartListening`. The ghost field `issuedTimers` records the ids handed out, and each new id must be fresh.
- `executionContext.getProvider() === 'vm'` is the `isVm` parameter of `StartListening`.
- `_resolve` is not modelled: its `async.each` fan-out over a block's transactions, the completion barrier, and the double callback on error (txListener.js:135-146). This is callback concurrency. `_newBlock` is modelled as the append to the log only. Each `_resolveTx` is modelled as one atomic step on the caches as they were when it began. In the source, the `resolveReceipt` and `getCode` callbacks (txListener.js:160, 177) run later, and other transactions of the block may have written the caches in between.
- The event emitter and its `newBlock`, `txResolved` and `newTransaction` notifications are not modelled (txListener.js:19, 131, 139-140).
- The `contextChanged` and `transactionExecuted` registrations are not modelled (txListener.js:24-41). They include the synthetic one-transaction VM block and the `getTransaction` call that fetches its transaction (txListener.js:32). This is wiring to other components; the block they build is an ordinary `Block` value with origin `VM` and number -1.
- `_manageBlock` is not modelled (txListener.js:87-93). It is the `getBlock` I/O followed by `_newBlock`. `Tick` returns the numbers it would be called with. The `try`/`catch` around it is left out too.
- The environment's answers are not computed: `getBlockNumber`, `getCode`, `resolveReceipt` and `contracts()` are parameters. Their errors are the `FetchFailed` case.
- The bytecode comparison is uninterpreted: `codeUtil.compareByteCode`, including its tolerance of compiler metadata.
- ABI decoding is uninterpreted: `ethJSABI.rawDecode` and `ethJSUtil.toBuffer` together form one function of the type list and the hex digits.
- `JSON.parse` of the contract interface is not modelled. The ABI is a sequence of entries that is already parsed, so a malformed interface string, which would throw, cannot occur.
- The ABI entries' `outputs` field is not modelled, because nothing in the listener reads it. Neither is the `outputs: []` of the entry that `getConstructorInterface` builds.
- The order of the keys of `contracts()` and of `functionHashes` is not computed from JavaScript object rules. It is given as the order of the sequences.
- `console.log` calls are not modelled.
- The exception `_resolveFunction` throws is not propagated. Inside the asynchronous callbacks nothing in the source catches it; the model reports it as the outcome `Threw`.
- JsStrings.RemoveFirstHexMarker: its contract pins the result down only when the input starts with "0x" or has no "0x" at all. For a "0x" further inside, it states only that two characters are removed. Its body removes exactly the first occurrence.
