/**
 * The compiled contracts the listener receives from its API, and the two first-match rules
 * over them: which contract a piece of bytecode belongs to, and which function a selector names.
 */
module Artifacts {
  import opened Wrappers
  import opened Search
  import opened Abi

  /** One entry of `functionHashes`: a signature such as "bar(uint256)" and its 8-hex-digit selector. */
  datatype FunctionHash = FunctionHash(signature: string, selector: string)

  /**
   * One compiled contract: its parsed `interface`, its `bytecode` and `runtimeBytecode`
   * (hex without "0x", either possibly absent), and `functionHashes` in iteration order.
   */
  datatype CompiledContract = CompiledContract(
    abi: seq<AbiEntry>,
    bytecode: Option<string>,
    runtimeBytecode: Option<string>,
    functionHashes: seq<FunctionHash>)

  /** Which bytecode field a lookup compares against. */
  datatype CodeField = Bytecode | RuntimeBytecode

  /**
   * The object returned by `contracts()`: its keys in iteration order, and the value of each key.
   */
  datatype Contracts = Contracts(names: seq<string>, table: map<string, CompiledContract>) {
    /** The keys of a JavaScript object: each listed once, and exactly the keys of the table. */
    ghost predicate Valid() {
      && (forall i :: 0 <= i < |names| ==> names[i] in table)
      && (forall k :: k in table ==> k in names)
      && (forall i, j :: 0 <= i < j < |names| ==> names[i] != names[j])
    }
  }

  /** `'0x' + compiledContracts[k][type]`; an absent field concatenates as "undefined". */
  function FieldCode(c: CompiledContract, field: CodeField): (r: string)
    ensures |r| >= 2 && r[..2] == "0x"
    ensures field == Bytecode && c.bytecode.Some? ==> r[2..] == c.bytecode.value
    ensures field == RuntimeBytecode && c.runtimeBytecode.Some? ==> r[2..] == c.runtimeBytecode.value
    ensures ((field == Bytecode && c.bytecode.None?) || (field == RuntimeBytecode && c.runtimeBytecode.None?)) ==>
              r == "0xundefined"
  {
    "0x" + (match field
            case Bytecode => c.bytecode.GetOr("undefined")
            case RuntimeBytecode => c.runtimeBytecode.GetOr("undefined"))
  }

  /** codeUtil.compareByteCode, uninterpreted: (code to resolve, "0x" + compiled code) -> same contract? */
  type ByteCodeComparer = (string, string) -> bool

  /** Does the contract named `k` match `code` on `field`? */
  function CodeMatches(code: string, contracts: Contracts, field: CodeField, compare: ByteCodeComparer): string -> bool {
    (k: string) => k in contracts.table && compare(code, FieldCode(contracts.table[k], field))
  }

  /**
   * _tryResolveContract, as a specification: the first key, in iteration order, whose
   * selected bytecode field compares equal to `code`, or None when no key does.
   */
  function MatchContract(code: string, contracts: Contracts, field: CodeField, compare: ByteCodeComparer): (r: Option<string>)
    requires contracts.Valid()
    ensures r.None? <==>
              forall i :: 0 <= i < |contracts.names| ==>
                !compare(code, FieldCode(contracts.table[contracts.names[i]], field))
    ensures r.Some? ==>
              exists i :: 0 <= i < |contracts.names| && contracts.names[i] == r.value &&
                          compare(code, FieldCode(contracts.table[r.value], field)) &&
                          forall j :: 0 <= j < i ==> !compare(code, FieldCode(contracts.table[contracts.names[j]], field))
    ensures r.Some? ==> r.value in contracts.table
  {
    match FirstIndex(contracts.names, CodeMatches(code, contracts, field, compare))
    case None => None
    case Some(i) => Some(contracts.names[i])
  }

  /** A key that compares equal, with none before it that does, is the one MatchContract finds. */
  lemma MatchContractAt(code: string, contracts: Contracts, field: CodeField, compare: ByteCodeComparer, i: nat)
    requires contracts.Valid() && i < |contracts.names|
    requires compare(code, FieldCode(contracts.table[contracts.names[i]], field))
    requires forall j :: 0 <= j < i ==> !compare(code, FieldCode(contracts.table[contracts.names[j]], field))
    ensures MatchContract(code, contracts, field, compare) == Some(contracts.names[i])
  {
    var p := CodeMatches(code, contracts, field, compare);
    assert p(contracts.names[i]);
    var f := FirstIndex(contracts.names, p);
    assert f.Some? && f.value <= i;
  }

  /** Does this `functionHashes` entry carry `selector`? */
  function SelectorIs(selector: string): FunctionHash -> bool {
    (h: FunctionHash) => h.selector == selector
  }

  /**
   * The selector loop of _resolveFunction, as a specification: the position of the first
   * `functionHashes` entry whose selector equals `selector`, or None.
   */
  function SelectorMatch(hashes: seq<FunctionHash>, selector: string): (r: Option<nat>)
    ensures r.None? <==> forall j :: 0 <= j < |hashes| ==> hashes[j].selector != selector
    ensures r.Some? ==>
              r.value < |hashes| && hashes[r.value].selector == selector &&
              forall j :: 0 <= j < r.value ==> hashes[j].selector != selector
  {
    FirstIndex(hashes, SelectorIs(selector))
  }
}
