/**
 * The TxListener object: its block log, scheduling state and the two resolution caches,
 * with the methods that update them in place.
 */
module Listener {
  import opened Wrappers
  import opened JsStrings
  import opened Abi
  import opened Artifacts
  import opened Resolution
  import opened Scheduler

  /** Where a block came from: fetched over web3, or synthesised for one VM transaction. */
  datatype BlockOrigin = Web3 | VM

  /** A block as appended to the log; VM blocks carry number -1 and one transaction. */
  datatype Block = Block(origin: BlockOrigin, number: int, transactions: seq<Tx>)

  class TxListener {
    /** codeUtil.compareByteCode. */
    const compareByteCode: ByteCodeComparer
    /** ethJSABI.rawDecode applied to ethJSUtil.toBuffer('0x' + data). */
    const rawDecode: Decoder

    var blocks: seq<Block>
    var lastBlock: Option<int>
    var loopId: LoopId
    var resolvedContracts: map<string, string>
    var resolvedTransactions: map<string, ResolvedCall>
    /** The ids setInterval has handed out so far; it never hands out one twice. */
    ghost var issuedTimers: set<nat>

    /** Empty caches, then init(); no session is running. */
    constructor (compareByteCode: ByteCodeComparer, rawDecode: Decoder)
      ensures this.compareByteCode == compareByteCode && this.rawDecode == rawDecode
      ensures blocks == [] && lastBlock == None && loopId == NoLoop
      ensures resolvedContracts == map[] && resolvedTransactions == map[]
      ensures issuedTimers == {}
    {
      this.compareByteCode := compareByteCode;
      this.rawDecode := rawDecode;
      resolvedTransactions := map[];
      resolvedContracts := map[];
      loopId := NoLoop;
      blocks := [];
      lastBlock := None;
      issuedTimers := {};
    }

    /** init: forget the recorded blocks and the last height seen. */
    method Init()
      modifies this`blocks, this`lastBlock
      ensures blocks == [] && lastBlock == None
    {
      blocks := [];
      lastBlock := None;
    }

    /**
     * startListening: stop any session, reset the log, and start a new session, on the VM
     * (`isVm`) or as a polling timer whose id `timer` is a fresh one from setInterval. The
     * caches survive, and a tick of an earlier session can no longer match the new one.
     */
    method StartListening(isVm: bool, timer: nat)
      requires !isVm ==> timer !in issuedTimers
      modifies this`blocks, this`lastBlock, this`loopId, this`issuedTimers
      ensures blocks == [] && lastBlock == None
      ensures loopId == if isVm then VmListener else Interval(timer)
      ensures issuedTimers == if isVm then old(issuedTimers) else old(issuedTimers) + {timer}
      ensures forall t :: t in old(issuedTimers) ==> loopId != Interval(t)
      ensures resolvedContracts == old(resolvedContracts) && resolvedTransactions == old(resolvedTransactions)
    {
      StopListening();
      Init();
      if isVm {
        loopId := VmListener;
      } else {
        loopId := Interval(timer);
        issuedTimers := issuedTimers + {timer};
      }
    }

    /** stopListening: the session ends; log and caches are kept. */
    method StopListening()
      modifies this`loopId
      ensures loopId == NoLoop
    {
      loopId := NoLoop;
    }

    /**
     * One firing of the polling timer: `captured` is the session when it fired, `height` what
     * getBlockNumber answered. Returns the block numbers handed to _manageBlock, in order.
     */
    method Tick(captured: LoopId, height: Fetch<int>) returns (dispatched: seq<int>)
      modifies this`lastBlock
      ensures TickResult(lastBlock, dispatched) == TickSpec(loopId, old(lastBlock), captured, height)
    {
      dispatched := [];
      if loopId == NoLoop || loopId == VmListener {
        return;
      }
      if height.FetchFailed? {
        return;
      }
      var blockNumber := height.value;
      if captured == loopId && (Unset(lastBlock) || blockNumber > lastBlock.value) {
        if Unset(lastBlock) {
          lastBlock := Some(blockNumber - 1);
        }
        var current := lastBlock.value + 1;
        ghost var start := current;
        lastBlock := Some(blockNumber);
        while blockNumber >= current
          invariant start <= current <= blockNumber + 1
          invariant dispatched == Range(start, current - 1)
          decreases blockNumber - current
        {
          dispatched := dispatched + [current];
          current := current + 1;
        }
      }
    }

    /** _newBlock: append the block to the log. */
    method NewBlock(block: Block)
      modifies this`blocks
      ensures blocks == old(blocks) + [block]
    {
      blocks := blocks + [block];
    }

    /** resolvedContract: the contract name indexed for `address`, if any. */
    function ResolvedContract(address: string): (r: Option<string>)
      reads this
      ensures r.Some? <==> address in resolvedContracts
      ensures r.Some? ==> r.value == resolvedContracts[address]
    {
      if address in resolvedContracts then Some(resolvedContracts[address]) else None
    }

    /** resolvedTransaction: the call recorded for `txHash`, if any. */
    function ResolvedTransaction(txHash: string): (r: Option<ResolvedCall>)
      reads this
      ensures r.Some? <==> txHash in resolvedTransactions
      ensures r.Some? ==> r.value == resolvedTransactions[txHash]
    {
      if txHash in resolvedTransactions then Some(resolvedTransactions[txHash]) else None
    }

    /** _tryResolveContract: the first key whose `field` compares equal to `codeToResolve`. */
    method TryResolveContract(codeToResolve: string, contracts: Contracts, field: CodeField) returns (r: Option<string>)
      requires contracts.Valid()
      ensures r == MatchContract(codeToResolve, contracts, field, compareByteCode)
    {
      var i := 0;
      while i < |contracts.names|
        invariant 0 <= i <= |contracts.names|
        invariant forall j :: 0 <= j < i ==>
                    !compareByteCode(codeToResolve, FieldCode(contracts.table[contracts.names[j]], field))
      {
        var k := contracts.names[i];
        if compareByteCode(codeToResolve, FieldCode(contracts.table[k], field)) {
          MatchContractAt(codeToResolve, contracts, field, compareByteCode, i);
          return Some(k);
        }
        i := i + 1;
      }
      return None;
    }

    /** _decodeInputParams: collect the declared input types of `abi`, then decode `data` against them. */
    method DecodeInputParams(data: string, abi: Option<AbiEntry>) returns (r: Result<seq<AbiValue>, Exception>)
      ensures r == DecodeParams(rawDecode, data, abi)
    {
      if abi.None? {
        return Failure(NoAbiEntry);
      }
      if abi.value.inputs.None? {
        return Failure(NoInputs);
      }
      var inputs := abi.value.inputs.value;
      var inputTypes: seq<string> := [];
      var i := 0;
      while i < |inputs|
        invariant 0 <= i <= |inputs|
        invariant |inputTypes| == i
        invariant forall k :: 0 <= k < i ==> inputTypes[k] == inputs[k].typ
      {
        inputTypes := inputTypes + [inputs[i].typ];
        i := i + 1;
      }
      assert inputTypes == InputTypes(inputs);
      match rawDecode(inputTypes, data)
      case Decoded(values) => return Success(values);
      case DecodeError => return Failure(Malformed);
    }

    /**
     * _resolveFunction: identify the function (or fallback, or constructor) `tx` calls on the
     * contract `contractName`, store the record at `tx.hash` and return it; or throw, storing nothing.
     */
    method ResolveFunction(contracts: Contracts, contractName: string, tx: Tx, isCtor: bool)
      returns (r: Result<ResolvedCall, Exception>)
      modifies this`resolvedTransactions
      ensures r == ResolveFunctionSpec(contracts, contractName, tx, isCtor, rawDecode)
      ensures resolvedTransactions ==
                if r.Success? then old(resolvedTransactions)[tx.hash := r.value] else old(resolvedTransactions)
    {
      if contractName !in contracts.table {
        return Failure(UnknownContract);
      }
      var compiled := contracts.table[contractName];
      var abi := compiled.abi;
      var inputData := RemoveFirstHexMarker(tx.input);
      if !isCtor {
        var hashes := compiled.functionHashes;
        var i := 0;
        while i < |hashes|
          invariant 0 <= i <= |hashes|
          invariant forall j :: 0 <= j < i ==> hashes[j].selector != SubstringTo(inputData, 8)
        {
          if hashes[i].selector == SubstringTo(inputData, 8) {
            var fn := hashes[i].signature;
            var funAbi := GetFunction(abi, fn);
            var params := DecodeInputParams(SubstringFrom(inputData, 8), funAbi);
            if params.Failure? {
              return Failure(params.error);
            }
            var call := ResolvedCall(contractName, tx.to, fn, Some(params.value), None);
            resolvedTransactions := resolvedTransactions[tx.hash := call];
            return Success(call);
          }
          i := i + 1;
        }
        // fallback function
        var call := ResolvedCall(contractName, tx.to, "(fallback)", None, None);
        resolvedTransactions := resolvedTransactions[tx.hash := call];
        return Success(call);
      } else {
        var params: Option<seq<AbiValue>> := None;
        if compiled.bytecode.Some? && |compiled.bytecode.value| > 0 {
          var ctorAbi := GetConstructorInterface(abi);
          var decoded := DecodeInputParams(SubstringFrom(inputData, |compiled.bytecode.value|), Some(ctorAbi));
          if decoded.Failure? {
            return Failure(decoded.error);
          }
          params := Some(decoded.value);
        }
        var call := ResolvedCall(contractName, None, "(constructor)", params, None);
        resolvedTransactions := resolvedTransactions[tx.hash := call];
        return Success(call);
      }
    }

    /**
     * _resolveTx: resolve one transaction, given what `contracts()`, `resolveReceipt` and
     * `getCode(tx.to)` answer, updating both caches.
     */
    method ResolveTx(tx: Tx, contracts: Option<Contracts>, receipt: Fetch<string>, code: Fetch<string>)
      returns (outcome: TxOutcome)
      requires contracts.Some? ==> contracts.value.Valid()
      modifies this`resolvedContracts, this`resolvedTransactions
      ensures TxStep(outcome, resolvedContracts, resolvedTransactions) ==
                ResolveTxSpec(old(resolvedContracts), old(resolvedTransactions), tx, contracts, receipt, code,
                              compareByteCode, rawDecode)
    {
      if contracts.None? {
        return NoResolution;
      }
      if IsCreation(tx) {
        outcome := ResolveCreationTx(tx, contracts.value, receipt);
      } else {
        outcome := ResolveCallTx(tx, contracts.value, code);
      }
    }

    /** The creation branch of _resolveTx: resolve using the creation bytecode. */
    method ResolveCreationTx(tx: Tx, cs: Contracts, receipt: Fetch<string>) returns (outcome: TxOutcome)
      requires cs.Valid() && IsCreation(tx)
      modifies this`resolvedContracts, this`resolvedTransactions
      ensures TxStep(outcome, resolvedContracts, resolvedTransactions) ==
                ResolveCreation(old(resolvedContracts), old(resolvedTransactions), tx, cs, receipt,
                                compareByteCode, rawDecode)
    {
      var contractName := TryResolveContract(tx.input, cs, Bytecode);
      if contractName.Some? && Truthy(contractName.value) {
        match receipt
        case FetchFailed =>
          return IoFailure;
        case Fetched(address) =>
          resolvedContracts := resolvedContracts[address := contractName.value];
          var fun := ResolveFunction(cs, contractName.value, tx, true);
          assert ResolveCreation(old(resolvedContracts), old(resolvedTransactions), tx, cs, receipt, compareByteCode, rawDecode)
              == FinishCreation(fun, tx, contractName.value, address, old(resolvedContracts), old(resolvedTransactions));
          if fun.Failure? {
            return Threw(fun.error);
          }
          // the stored record and `fun` are one object: both gain the address
          var stored := fun.value.(contractAddress := Some(address));
          ghost var before := old(resolvedTransactions);
          assert resolvedTransactions == before[tx.hash := fun.value];
          if tx.hash in resolvedTransactions {
            resolvedTransactions := resolvedTransactions[tx.hash := stored];
          }
          OverwriteTwice(before, tx.hash, fun.value, stored);
          return Resolved(ResolvedData(None, contractName.value, stored, Some(address)));
      }
      return NoResolution;
    }

    /** The call branch of _resolveTx: check the address index, else resolve against the runtime bytecode. */
    method ResolveCallTx(tx: Tx, cs: Contracts, code: Fetch<string>) returns (outcome: TxOutcome)
      requires cs.Valid() && !IsCreation(tx)
      modifies this`resolvedContracts, this`resolvedTransactions
      ensures TxStep(outcome, resolvedContracts, resolvedTransactions) ==
                ResolveCall(old(resolvedContracts), old(resolvedTransactions), tx, cs, code,
                            compareByteCode, rawDecode)
    {
      var to := tx.to.value;
      var known := ResolvedContract(to);
      if known.None? || !Truthy(known.value) {
        match code
        case FetchFailed =>
          return IoFailure;
        case Fetched(deployed) =>
          if Truthy(deployed) {
            var contractName := TryResolveContract(deployed, cs, RuntimeBytecode);
            if contractName.Some? && Truthy(contractName.value) {
              resolvedContracts := resolvedContracts[to := contractName.value];
              var fun := ResolveFunction(cs, contractName.value, tx, false);
              assert ResolveCall(old(resolvedContracts), old(resolvedTransactions), tx, cs, code, compareByteCode, rawDecode)
                  == FinishCall(fun, tx, contractName.value, old(resolvedContracts), old(resolvedTransactions));
              if fun.Failure? {
                return Threw(fun.error);
              }
              return Resolved(ResolvedData(tx.to, contractName.value, fun.value, None));
            }
          }
          return NoResolution;
      }
      assert resolvedContracts[to := known.value] == resolvedContracts;
      var fun := ResolveFunction(cs, known.value, tx, false);
      assert ResolveCall(old(resolvedContracts), old(resolvedTransactions), tx, cs, code, compareByteCode, rawDecode)
          == FinishCall(fun, tx, known.value, old(resolvedContracts), old(resolvedTransactions));
      if fun.Failure? {
        return Threw(fun.error);
      }
      return Resolved(ResolvedData(tx.to, known.value, fun.value, None));
    }
  }
}
