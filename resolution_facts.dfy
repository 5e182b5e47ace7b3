/** Properties of transaction resolution that relate several calls or several inputs. */
module ResolutionFacts {
  import opened Wrappers
  import opened JsStrings
  import opened Abi
  import opened Artifacts
  import opened Resolution

  /**
   * A call to an address already in the index resolves with the indexed name, leaves the
   * index as it is, and does not depend on the deployed code (nor on any receipt).
   */
  lemma KnownAddressIgnoresCode(rc: map<string, string>, rt: map<string, ResolvedCall>, tx: Tx, cs: Contracts,
                                receipt1: Fetch<string>, code1: Fetch<string>,
                                receipt2: Fetch<string>, code2: Fetch<string>,
                                compare: ByteCodeComparer, decode: Decoder)
    requires cs.Valid() && !IsCreation(tx)
    requires tx.to.value in rc && Truthy(rc[tx.to.value])
    ensures ResolveTxSpec(rc, rt, tx, Some(cs), receipt1, code1, compare, decode)
         == ResolveTxSpec(rc, rt, tx, Some(cs), receipt2, code2, compare, decode)
    ensures var r := ResolveTxSpec(rc, rt, tx, Some(cs), receipt1, code1, compare, decode);
            && r.contracts == rc
            && (r.outcome.Resolved? ==> r.outcome.data.contractName == rc[tx.to.value])
            && (r.outcome.Resolved? || r.outcome.Threw?)
  {
    assert rc[tx.to.value := rc[tx.to.value]] == rc;
  }

  /**
   * A creation whose input matches a compiled contract's creation bytecode, with a receipt,
   * indexes the created address under that contract's name and, unless decoding the
   * constructor arguments throws, records the constructor call with no `to`.
   */
  lemma CreationIndexesReceiptAddress(rc: map<string, string>, rt: map<string, ResolvedCall>, tx: Tx, cs: Contracts,
                                      address: string, code: Fetch<string>, name: string,
                                      compare: ByteCodeComparer, decode: Decoder)
    requires cs.Valid() && IsCreation(tx)
    requires MatchContract(tx.input, cs, Bytecode, compare) == Some(name) && Truthy(name)
    ensures var r := ResolveTxSpec(rc, rt, tx, Some(cs), Fetched(address), code, compare, decode);
            && r.contracts == rc[address := name]
            && (r.outcome.Resolved? || r.outcome.Threw?)
            && (r.outcome.Resolved? ==>
                  var call := r.outcome.data.call;
                  && call.contractName == name && call.to.None? && call.fn == "(constructor)"
                  && call.contractAddress == Some(address)
                  && r.transactions == rt[tx.hash := call])
            && (!HasBytecode(cs.table[name]) ==>
                  r.outcome.Resolved? && r.outcome.data.call == ResolvedCall(name, None, "(constructor)", None, Some(address)))
  {
  }

  /**
   * A call to an address not yet indexed whose deployed code matches a compiled contract's
   * runtime bytecode indexes that address under the contract's name.
   */
  lemma CallIndexesDeployedAddress(rc: map<string, string>, rt: map<string, ResolvedCall>, tx: Tx, cs: Contracts,
                                   receipt: Fetch<string>, deployed: string, name: string,
                                   compare: ByteCodeComparer, decode: Decoder)
    requires cs.Valid() && !IsCreation(tx)
    requires tx.to.value !in rc || !Truthy(rc[tx.to.value])
    requires Truthy(deployed) && MatchContract(deployed, cs, RuntimeBytecode, compare) == Some(name) && Truthy(name)
    ensures var r := ResolveTxSpec(rc, rt, tx, Some(cs), receipt, Fetched(deployed), compare, decode);
            && r.contracts == rc[tx.to.value := name]
            && (r.outcome.Resolved? || r.outcome.Threw?)
            && (r.outcome.Resolved? ==> r.outcome.data.call.contractName == name)
  {
    var call := ResolveFunctionSpec(cs, name, tx, false, decode);
    assert ResolveTxSpec(rc, rt, tx, Some(cs), receipt, Fetched(deployed), compare, decode)
        == FinishCall(call, tx, name, rc, rt);
  }

  /** Finishing the same creation twice, the second time on the caches the first left, changes nothing. */
  lemma FinishCreationIdempotent(call: Result<ResolvedCall, Exception>, tx: Tx, name: string, address: string,
                                 rc: map<string, string>, rt: map<string, ResolvedCall>)
    requires IsCreation(tx)
    requires call.Success? ==> call.value.contractName == name && call.value.to.None? && call.value.fn == "(constructor)"
    ensures var first := FinishCreation(call, tx, name, address, rc, rt);
            FinishCreation(call, tx, name, address, first.contracts, first.transactions) == first
  {
    var first := FinishCreation(call, tx, name, address, rc, rt);
    assert first.contracts[address := name] == first.contracts;
    if call.Success? {
      var stored := call.value.(contractAddress := Some(address));
      assert first.transactions[tx.hash := stored] == first.transactions;
    }
  }

  /** ResolveTxIdempotent on the creation path. */
  lemma CreationIdempotent(rc: map<string, string>, rt: map<string, ResolvedCall>, tx: Tx, cs: Contracts,
                           receipt: Fetch<string>, compare: ByteCodeComparer, decode: Decoder)
    requires cs.Valid() && IsCreation(tx)
    ensures var first := ResolveCreation(rc, rt, tx, cs, receipt, compare, decode);
            ResolveCreation(first.contracts, first.transactions, tx, cs, receipt, compare, decode) == first
  {
    var name := MatchContract(tx.input, cs, Bytecode, compare);
    if name.Some? && Truthy(name.value) && receipt.Fetched? {
      var call := ResolveFunctionSpec(cs, name.value, tx, true, decode);
      FinishCreationIdempotent(call, tx, name.value, receipt.value, rc, rt);
    }
  }

  /** Finishing the same call twice, the second time on the caches the first left, changes nothing. */
  lemma FinishCallIdempotent(call: Result<ResolvedCall, Exception>, tx: Tx, name: string,
                             rc: map<string, string>, rt: map<string, ResolvedCall>)
    requires !IsCreation(tx)
    requires call.Success? ==> call.value.contractName == name && call.value.to == tx.to && call.value.contractAddress.None?
    ensures var first := FinishCall(call, tx, name, rc, rt);
            FinishCall(call, tx, name, first.contracts, first.transactions) == first
  {
    var first := FinishCall(call, tx, name, rc, rt);
    assert first.contracts[tx.to.value := name] == first.contracts;
    if call.Success? {
      assert first.transactions[tx.hash := call.value] == first.transactions;
    }
  }

  /** ResolveTxIdempotent on the call path: the second time, the address comes from the index. */
  lemma CallIdempotent(rc: map<string, string>, rt: map<string, ResolvedCall>, tx: Tx, cs: Contracts,
                       code: Fetch<string>, compare: ByteCodeComparer, decode: Decoder)
    requires cs.Valid() && !IsCreation(tx)
    ensures var first := ResolveCall(rc, rt, tx, cs, code, compare, decode);
            ResolveCall(first.contracts, first.transactions, tx, cs, code, compare, decode) == first
    // the second time the name comes from the address index, without getCode
    ensures var first := ResolveCall(rc, rt, tx, cs, code, compare, decode);
            (first.outcome.Resolved? || first.outcome.Threw?) ==>
              tx.to.value in first.contracts && Truthy(first.contracts[tx.to.value])
  {
    var first := ResolveCall(rc, rt, tx, cs, code, compare, decode);
    var to := tx.to.value;
    var name;
    if to in rc && Truthy(rc[to]) {
      name := rc[to];
    } else if first.outcome.Resolved? || first.outcome.Threw? {
      name := MatchContract(code.value, cs, RuntimeBytecode, compare).value;
    } else {
      return;
    }
    var call := ResolveFunctionSpec(cs, name, tx, false, decode);
    assert first == FinishCall(call, tx, name, rc, rt);
    FinishCallIdempotent(call, tx, name, rc, rt);
    assert first.contracts[to] == name;
    assert ResolveCall(first.contracts, first.transactions, tx, cs, code, compare, decode)
        == FinishCall(call, tx, name, first.contracts, first.transactions);
  }

  /**
   * Resolving the same transaction again, against the caches the first resolution left and
   * with the same answers from the environment, reports the same outcome and changes nothing:
   * the caches are idempotent upserts.
   */
  lemma ResolveTxIdempotent(rc: map<string, string>, rt: map<string, ResolvedCall>, tx: Tx,
                            contracts: Option<Contracts>, receipt: Fetch<string>, code: Fetch<string>,
                            compare: ByteCodeComparer, decode: Decoder)
    requires contracts.Some? ==> contracts.value.Valid()
    ensures var first := ResolveTxSpec(rc, rt, tx, contracts, receipt, code, compare, decode);
            ResolveTxSpec(first.contracts, first.transactions, tx, contracts, receipt, code, compare, decode) == first
  {
    if contracts.Some? {
      if IsCreation(tx) {
        CreationIdempotent(rc, rt, tx, contracts.value, receipt, compare, decode);
      } else {
        CallIdempotent(rc, rt, tx, contracts.value, code, compare, decode);
      }
    }
  }

  /** The compiled set of one contract "Foo" with one function `bar(uint256)`, selector 2fbebd38. */
  function FooContracts(): (cs: Contracts)
    ensures cs.Valid()
  {
    var bar := AbiEntry(Some("bar"), "function", Some([AbiParam("x", "uint256")]));
    var foo := CompiledContract([bar], Some("6080"), Some("6080"), [FunctionHash("bar(uint256)", "2fbebd38")]);
    Contracts(["Foo"], map["Foo" := foo])
  }

  /** An input "0x" + an 8-digit selector + arguments splits back into that selector and those arguments. */
  lemma SplitInput(tx: Tx, selector: string, args: string)
    requires |selector| == 8 && tx.input == "0x" + selector + args
    ensures SelectorOf(tx) == selector && ArgumentsOf(tx) == args
  {
    assert tx.input[..2] == "0x";
    assert InputData(tx) == selector + args;
  }

  /** The function name in the signature `bar(uint256)` is `bar`. */
  lemma BarSignatureName()
    ensures BeforeFirst("bar(uint256)", '(') == "bar"
  {
    assert "bar(uint256)" == "bar" + ['('] + "uint256)";
    BeforeFirstOfSplit("bar(uint256)", '(', "bar", "uint256)");
  }

  /** On Foo, _resolveFunction picks `bar(uint256)` for input 0x2fbebd38... and decodes the rest. */
  lemma FooBarResolves(tx: Tx, args: string, decode: Decoder)
    requires tx.input == "0x2fbebd38" + args
    requires decode(["uint256"], args) == Decoded([UInt(5)])
    ensures ResolveFunctionSpec(FooContracts(), "Foo", tx, false, decode)
         == Success(ResolvedCall("Foo", tx.to, "bar(uint256)", Some([UInt(5)]), None))
  {
    var foo := FooContracts().table["Foo"];
    SplitInput(tx, "2fbebd38", args);
    assert SelectorMatch(foo.functionHashes, SelectorOf(tx)) == Some(0);
    var entry := FindFunction(foo.abi, "bar(uint256)");
    assert entry == Some(foo.abi[0]) by {
      BarSignatureName();
    }
    assert DecodeParams(decode, ArgumentsOf(tx), entry) == Success([UInt(5)]) by {
      assert InputTypes(foo.abi[0].inputs.value) == ["uint256"];
    }
  }

  /**
   * A call to Foo's indexed address whose input starts with 0x2fbebd38 resolves to `bar(uint256)`
   * with the arguments the decoder reads, for `uint256`, from the rest of the input.
   */
  lemma SelectorScenario(rt: map<string, ResolvedCall>, hash: string, address: string, args: string,
                         code: Fetch<string>, receipt: Fetch<string>,
                         compare: ByteCodeComparer, decode: Decoder)
    requires Truthy(address)
    requires decode(["uint256"], args) == Decoded([UInt(5)])
    ensures var tx := Tx(hash, Some(address), "0x2fbebd38" + args);
            var r := ResolveTxSpec(map[address := "Foo"], rt, tx, Some(FooContracts()), receipt, code, compare, decode);
            && r.outcome == Resolved(ResolvedData(Some(address), "Foo",
                                                  ResolvedCall("Foo", Some(address), "bar(uint256)", Some([UInt(5)]), None), None))
            && r.transactions == rt[hash := r.outcome.data.call]
  {
    var tx := Tx(hash, Some(address), "0x2fbebd38" + args);
    FooBarResolves(tx, args, decode);
    var call := ResolveFunctionSpec(FooContracts(), "Foo", tx, false, decode);
    var index := map[address := "Foo"];
    assert ResolveTxSpec(index, rt, tx, Some(FooContracts()), receipt, code, compare, decode)
        == FinishCall(call, tx, "Foo", index, rt);
  }

  /** The same call with input 0xffffffff matches no selector and resolves to Foo's fallback. */
  lemma FallbackScenario(rt: map<string, ResolvedCall>, hash: string, address: string,
                         code: Fetch<string>, receipt: Fetch<string>,
                         compare: ByteCodeComparer, decode: Decoder)
    requires Truthy(address)
    ensures var tx := Tx(hash, Some(address), "0xffffffff");
            var r := ResolveTxSpec(map[address := "Foo"], rt, tx, Some(FooContracts()), receipt, code, compare, decode);
            r.outcome.Resolved? && r.outcome.data.call == ResolvedCall("Foo", Some(address), "(fallback)", None, None)
  {
    var tx := Tx(hash, Some(address), "0xffffffff");
    SplitInput(tx, "ffffffff", "");
    var foo := FooContracts().table["Foo"];
    assert SelectorMatch(foo.functionHashes, "ffffffff") == None;
    var call := ResolveFunctionSpec(FooContracts(), "Foo", tx, false, decode);
    assert call == Success(ResolvedCall("Foo", Some(address), "(fallback)", None, None));
    var index := map[address := "Foo"];
    assert ResolveTxSpec(index, rt, tx, Some(FooContracts()), receipt, code, compare, decode)
        == FinishCall(call, tx, "Foo", index, rt);
  }
}
