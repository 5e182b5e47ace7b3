/**
 * Resolution of one transaction into a call description, as pure functions of the two
 * caches and of what the environment answered: _resolveFunction and _resolveTx.
 */
module Resolution {
  import opened Wrappers
  import opened JsStrings
  import opened Abi
  import opened Artifacts

  /** The fields of a transaction the listener reads; `to` is null for a contract creation. */
  datatype Tx = Tx(hash: string, to: Option<string>, input: string)

  /**
   * The record stored in `_resolvedTransactions`. `fn` is a signature, "(fallback)" or
   * "(constructor)"; `params` is null for the fallback and for a constructor without bytecode;
   * `contractAddress` is only ever set, on creation, by _resolveTx.
   */
  datatype ResolvedCall = ResolvedCall(
    contractName: string,
    to: Option<string>,
    fn: string,
    params: Option<seq<AbiValue>>,
    contractAddress: Option<string>)

  /** The object _resolveTx hands to its callback on success. */
  datatype ResolvedData = ResolvedData(
    to: Option<string>,
    contractName: string,
    call: ResolvedCall,
    creationAddress: Option<string>)

  /**
   * How _resolveTx ends: `cb()` (nothing found), `cb(error)` (an environment call failed),
   * an exception thrown by _resolveFunction, or `cb(null, data)`.
   */
  datatype TxOutcome = NoResolution | IoFailure | Threw(error: Exception) | Resolved(data: ResolvedData)

  /** The outcome together with the two caches afterwards. */
  datatype TxStep = TxStep(outcome: TxOutcome, contracts: map<string, string>, transactions: map<string, ResolvedCall>)

  /** `!tx.to`: a contract creation. */
  predicate IsCreation(tx: Tx)
    ensures IsCreation(tx) <==> tx.to in {None, Some("")}
  {
    tx.to.None? || !Truthy(tx.to.value)
  }

  /** `tx.input.replace('0x', '')`. */
  function InputData(tx: Tx): string {
    RemoveFirstHexMarker(tx.input)
  }

  /** `inputData.substring(0, 8)`: the selector of a call. */
  function SelectorOf(tx: Tx): string {
    SubstringTo(InputData(tx), 8)
  }

  /** `inputData.substring(8)`: the encoded arguments of a call. */
  function ArgumentsOf(tx: Tx): string {
    SubstringFrom(InputData(tx), 8)
  }

  /** Is `bytecode` present and non-empty (`bytecode && bytecode.length`)? */
  predicate HasBytecode(c: CompiledContract)
    ensures HasBytecode(c) <==> c.bytecode !in {None, Some("")}
  {
    c.bytecode.Some? && |c.bytecode.value| > 0
  }

  /** On a constructor, the encoded arguments that follow the creation bytecode. */
  function ConstructorArgumentsOf(tx: Tx, c: CompiledContract): string
    requires HasBytecode(c)
  {
    SubstringFrom(InputData(tx), |c.bytecode.value|)
  }

  /** The record of a call to function `fn` with decoded `params`, or the error decoding threw. */
  function CallRecord(name: string, tx: Tx, fn: string, params: Result<seq<AbiValue>, Exception>): Result<ResolvedCall, Exception> {
    match params
    case Success(vs) => Success(ResolvedCall(name, tx.to, fn, Some(vs), None))
    case Failure(e) => Failure(e)
  }

  /**
   * _resolveFunction, as a specification: the record it stores at `tx.hash` and returns,
   * or the exception it throws (in which case it stores nothing).
   */
  function ResolveFunctionSpec(contracts: Contracts, name: string, tx: Tx, isCtor: bool, decode: Decoder): (r: Result<ResolvedCall, Exception>)
    ensures name !in contracts.table ==> r == Failure(UnknownContract)
    ensures r.Success? ==> r.value.contractName == name && r.value.contractAddress.None?
    ensures !isCtor && r.Success? ==> r.value.to == tx.to
    // a call whose selector matches no functionHashes entry is the fallback
    ensures (name in contracts.table && !isCtor &&
             forall j :: 0 <= j < |contracts.table[name].functionHashes| ==>
               contracts.table[name].functionHashes[j].selector != SelectorOf(tx)) ==>
              r == Success(ResolvedCall(name, tx.to, "(fallback)", None, None))
    // otherwise the FIRST matching entry names the function, and the rest of the input is decoded
    ensures forall i ::
              (name in contracts.table && !isCtor &&
               0 <= i < |contracts.table[name].functionHashes| &&
               contracts.table[name].functionHashes[i].selector == SelectorOf(tx) &&
               forall j :: 0 <= j < i ==> contracts.table[name].functionHashes[j].selector != SelectorOf(tx)) ==>
              var fn := contracts.table[name].functionHashes[i].signature;
              r == CallRecord(name, tx, fn, DecodeParams(decode, ArgumentsOf(tx), FindFunction(contracts.table[name].abi, fn)))
    // a constructor is recorded with no `to`; its arguments are decoded only when there is bytecode
    ensures isCtor && r.Success? ==> r.value.to.None? && r.value.fn == "(constructor)"
    ensures (isCtor && name in contracts.table && !HasBytecode(contracts.table[name])) ==>
              r == Success(ResolvedCall(name, None, "(constructor)", None, None))
    ensures (isCtor && name in contracts.table && HasBytecode(contracts.table[name])) ==>
              var params := DecodeParams(decode, ConstructorArgumentsOf(tx, contracts.table[name]),
                                         Some(ConstructorInterface(contracts.table[name].abi)));
              (r.Success? <==> params.Success?) &&
              (r.Success? ==> r.value.params == Some(params.value)) &&
              (r.Failure? ==> r.error == params.error)
  {
    if name !in contracts.table then Failure(UnknownContract)
    else
      var c := contracts.table[name];
      if !isCtor then
        match SelectorMatch(c.functionHashes, SelectorOf(tx))
        case Some(i) =>
          var fn := c.functionHashes[i].signature;
          CallRecord(name, tx, fn, DecodeParams(decode, ArgumentsOf(tx), FindFunction(c.abi, fn)))
        case None => Success(ResolvedCall(name, tx.to, "(fallback)", None, None))
      else if HasBytecode(c) then
        match DecodeParams(decode, ConstructorArgumentsOf(tx, c), Some(ConstructorInterface(c.abi)))
        case Success(vs) => Success(ResolvedCall(name, None, "(constructor)", Some(vs), None))
        case Failure(e) => Failure(e)
      else Success(ResolvedCall(name, None, "(constructor)", None, None))
  }

  /** The address a resolution indexed: the created address, or the address called. */
  function IndexedAddress(d: ResolvedData): string {
    if d.creationAddress.Some? then d.creationAddress.value
    else d.to.GetOr("")
  }

  /** Is `a` an address `after` indexes with a name `before` did not give it? */
  predicate IndexChanged(before: map<string, string>, after: map<string, string>, a: string) {
    a in after && (a !in before || before[a] != after[a])
  }

  /** `after` differs from `before` at no more than one address. */
  ghost predicate AtMostOneIndexed(before: map<string, string>, after: map<string, string>) {
    forall a, b :: IndexChanged(before, after, a) && IndexChanged(before, after, b) ==> a == b
  }

  /**
   * What every path of _resolveTx guarantees about its outcome and the caches afterwards: only
   * `tx.hash` and one address can change; a success stores, at `tx.hash`, the very record it
   * reports and indexes the contract's address under its name; a creation is reported as the
   * constructor with no `to`; a call keeps `tx.to`; nothing is stored unless something resolved;
   * an exception leaves the record cache as it was and the address index changed at one address.
   */
  ghost predicate StepShape(rc: map<string, string>, rt: map<string, ResolvedCall>, tx: Tx, r: TxStep) {
    && ((r.outcome.NoResolution? || r.outcome.IoFailure?) ==> r.contracts == rc && r.transactions == rt)
    && (r.outcome.Threw? ==> r.transactions == rt && AtMostOneIndexed(rc, r.contracts))
    && (r.outcome.Resolved? ==>
          var d := r.outcome.data;
          && r.transactions == rt[tx.hash := d.call]
          && r.contracts == rc[IndexedAddress(d) := d.contractName]
          && d.call.contractName == d.contractName
          && (IsCreation(tx) <==> d.creationAddress.Some?)
          && (IsCreation(tx) ==> d.to.None? && d.call.fn == "(constructor)" && d.call.contractAddress == d.creationAddress)
          && (!IsCreation(tx) ==> d.to == tx.to && d.call.to == tx.to))
    && (forall h :: h != tx.hash ==> (h in r.transactions <==> h in rt) && (h in rt ==> r.transactions[h] == rt[h]))
    && rc.Keys <= r.contracts.Keys
  }

  /**
   * The end of the call path of _resolveTx, once `name` is known for `tx.to`: index the address
   * (a no-op when it came from the index), then report what _resolveFunction gave.
   */
  function FinishCall(call: Result<ResolvedCall, Exception>, tx: Tx, name: string,
                      rc: map<string, string>, rt: map<string, ResolvedCall>): (r: TxStep)
    requires !IsCreation(tx)
    requires call.Success? ==> call.value.contractName == name && call.value.to == tx.to && call.value.contractAddress.None?
    ensures StepShape(rc, rt, tx, r)
    ensures r.contracts == rc[tx.to.value := name]
  {
    var rc' := rc[tx.to.value := name];
    match call
    case Failure(e) => TxStep(Threw(e), rc', rt)
    case Success(rec) => TxStep(Resolved(ResolvedData(tx.to, name, rec, None)), rc', rt[tx.hash := rec])
  }

  /**
   * The end of the creation path of _resolveTx, once `name` and the created `address` are known:
   * index the address (before _resolveFunction runs, so also when it throws), then store the
   * constructor record with the address added.
   */
  function FinishCreation(call: Result<ResolvedCall, Exception>, tx: Tx, name: string, address: string,
                          rc: map<string, string>, rt: map<string, ResolvedCall>): (r: TxStep)
    requires IsCreation(tx)
    requires call.Success? ==> call.value.contractName == name && call.value.to.None? && call.value.fn == "(constructor)"
    ensures StepShape(rc, rt, tx, r)
    ensures r.contracts == rc[address := name]
  {
    var rc' := rc[address := name];
    match call
    case Failure(e) => TxStep(Threw(e), rc', rt)
    case Success(rec) =>
      var stored := rec.(contractAddress := Some(address));
      TxStep(Resolved(ResolvedData(None, name, stored, Some(address))), rc', rt[tx.hash := stored])
  }

  /**
   * The creation path of _resolveTx: identify the contract from the creation bytecode, index
   * the address the receipt gives, and record the constructor call.
   */
  function ResolveCreation(rc: map<string, string>, rt: map<string, ResolvedCall>, tx: Tx,
                           cs: Contracts, receipt: Fetch<string>,
                           compare: ByteCodeComparer, decode: Decoder): (r: TxStep)
    requires cs.Valid() && IsCreation(tx)
    ensures StepShape(rc, rt, tx, r)
  {
    var name := MatchContract(tx.input, cs, Bytecode, compare);
    if name.None? || !Truthy(name.value) then TxStep(NoResolution, rc, rt)
    else
      match receipt
      case FetchFailed => TxStep(IoFailure, rc, rt)
      case Fetched(address) =>
        FinishCreation(ResolveFunctionSpec(cs, name.value, tx, true, decode), tx, name.value, address, rc, rt)
  }

  /**
   * The call path of _resolveTx: take the contract name from the address index, or else
   * identify it from the deployed code and index it; then record the function called.
   */
  function ResolveCall(rc: map<string, string>, rt: map<string, ResolvedCall>, tx: Tx,
                       cs: Contracts, code: Fetch<string>,
                       compare: ByteCodeComparer, decode: Decoder): (r: TxStep)
    requires cs.Valid() && !IsCreation(tx)
    ensures StepShape(rc, rt, tx, r)
  {
    var to := tx.to.value;
    if to in rc && Truthy(rc[to]) then
      FinishCall(ResolveFunctionSpec(cs, rc[to], tx, false, decode), tx, rc[to], rc, rt)
    else
      match code
      case FetchFailed => TxStep(IoFailure, rc, rt)
      case Fetched(deployed) =>
        if !Truthy(deployed) then TxStep(NoResolution, rc, rt)
        else
          var name := MatchContract(deployed, cs, RuntimeBytecode, compare);
          if name.None? || !Truthy(name.value) then TxStep(NoResolution, rc, rt)
          else FinishCall(ResolveFunctionSpec(cs, name.value, tx, false, decode), tx, name.value, rc, rt)
  }

  /**
   * _resolveTx, as a specification. `contracts` is what `contracts()` returned, `receipt` what
   * `resolveReceipt` gave (the created address), `code` what `getCode(tx.to)` gave; the last two
   * are only used on the paths that make those calls.
   */
  function ResolveTxSpec(rc: map<string, string>, rt: map<string, ResolvedCall>, tx: Tx,
                         contracts: Option<Contracts>, receipt: Fetch<string>, code: Fetch<string>,
                         compare: ByteCodeComparer, decode: Decoder): (r: TxStep)
    requires contracts.Some? ==> contracts.value.Valid()
    ensures contracts.None? ==> r == TxStep(NoResolution, rc, rt)
    ensures StepShape(rc, rt, tx, r)
  {
    if contracts.None? then TxStep(NoResolution, rc, rt)
    else if IsCreation(tx) then ResolveCreation(rc, rt, tx, contracts.value, receipt, compare, decode)
    else ResolveCall(rc, rt, tx, contracts.value, code, compare, decode)
  }
}
