/**
 * The parsed contract ABI as the listener reads it, the foreign ABI decoder it calls,
 * and the two module-level lookups `getFunction` and `getConstructorInterface`.
 */
module Abi {
  import opened Wrappers
  import opened Search
  import opened JsStrings

  /** One declared input of a function or constructor; only `type` is ever read. */
  datatype AbiParam = AbiParam(name: string, typ: string)

  /**
   * One entry of a JSON ABI. `name` is absent for constructors and the fallback,
   * `inputs` may be absent altogether; `kind` is the entry's `type` field.
   */
  datatype AbiEntry = AbiEntry(name: Option<string>, kind: string, inputs: Option<seq<AbiParam>>)

  /** Values the decoder produces; they are never inspected by the listener. */
  datatype AbiValue =
    | UInt(n: int)
    | Int(i: int)
    | Bool(b: bool)
    | Address(hex: string)
    | Bytes(data: string)
    | Str(text: string)
    | List(items: seq<AbiValue>)

  /** What `ethJSABI.rawDecode(types, ethJSUtil.toBuffer('0x' + data))` gives: values, or a throw. */
  datatype DecodeResult = Decoded(values: seq<AbiValue>) | DecodeError

  /** The foreign decoder, uninterpreted: a function of the type list and the hex digits. */
  type Decoder = (seq<string>, string) -> DecodeResult

  /** Why decoding the arguments of a call throws. */
  datatype Exception =
    | NoAbiEntry       // getFunction returned null, and `null.inputs` throws
    | NoInputs         // the entry has no `inputs`, and `undefined.length` throws
    | Malformed        // rawDecode threw on the given bytes
    | UnknownContract  // the contract name is not in the compiled set any more

  /** Does this entry carry the name `n`? */
  function NamedAs(n: string): AbiEntry -> bool {
    (e: AbiEntry) => e.name == Some(n)
  }

  /** Is this entry the constructor? */
  function IsConstructor(e: AbiEntry): bool {
    e.kind == "constructor"
  }

  /** getFunction, as a specification: the first entry named like the signature's prefix before '('. */
  function FindFunction(abi: seq<AbiEntry>, fnName: string): (r: Option<AbiEntry>)
    ensures r.None? <==> forall j :: 0 <= j < |abi| ==> abi[j].name != Some(BeforeFirst(fnName, '('))
    ensures r.Some? ==>
              exists i :: 0 <= i < |abi| && r.value == abi[i] &&
                          abi[i].name == Some(BeforeFirst(fnName, '(')) &&
                          forall j :: 0 <= j < i ==> abi[j].name != Some(BeforeFirst(fnName, '('))
  {
    match FirstIndex(abi, NamedAs(BeforeFirst(fnName, '(')))
    case None => None
    case Some(i) => Some(abi[i])
  }

  /**
   * getConstructorInterface, as a specification: a fresh constructor entry named "",
   * whose inputs are those of the first constructor of `abi` (`[]` when that constructor
   * declares none, or when there is no constructor).
   */
  function ConstructorInterface(abi: seq<AbiEntry>): (r: AbiEntry)
    ensures r.name == Some("") && r.kind == "constructor" && r.inputs.Some?
    ensures (forall j :: 0 <= j < |abi| ==> !IsConstructor(abi[j])) ==> r.inputs == Some([])
    ensures forall i ::
              (0 <= i < |abi| && IsConstructor(abi[i]) && forall j :: 0 <= j < i ==> !IsConstructor(abi[j])) ==>
              r.inputs == Some(abi[i].inputs.GetOr([]))
  {
    match FirstIndex(abi, IsConstructor)
    case None => AbiEntry(Some(""), "constructor", Some([]))
    case Some(i) => AbiEntry(Some(""), "constructor", Some(abi[i].inputs.GetOr([])))
  }

  /** The declared types of `inputs`, in declaration order. */
  function InputTypes(inputs: seq<AbiParam>): (r: seq<string>)
    ensures |r| == |inputs|
    ensures forall k :: 0 <= k < |inputs| ==> r[k] == inputs[k].typ
  {
    if inputs == [] then [] else [inputs[0].typ] + InputTypes(inputs[1..])
  }

  /**
   * _decodeInputParams, as a specification: throws for a missing entry or missing inputs,
   * otherwise hands the declared types and the data to the decoder.
   */
  function DecodeParams(decode: Decoder, data: string, entry: Option<AbiEntry>): (r: Result<seq<AbiValue>, Exception>)
    ensures entry.None? ==> r == Failure(NoAbiEntry)
    ensures entry.Some? && entry.value.inputs.None? ==> r == Failure(NoInputs)
    ensures r.Success? ==>
              entry.Some? && entry.value.inputs.Some? &&
              decode(InputTypes(entry.value.inputs.value), data) == Decoded(r.value)
    ensures (r.Failure? && entry.Some? && entry.value.inputs.Some?) ==>
              r == Failure(Malformed) && decode(InputTypes(entry.value.inputs.value), data) == DecodeError
  {
    match entry
    case None => Failure(NoAbiEntry)
    case Some(e) =>
      match e.inputs
      case None => Failure(NoInputs)
      case Some(inputs) =>
        match decode(InputTypes(inputs), data)
        case Decoded(vs) => Success(vs)
        case DecodeError => Failure(Malformed)
  }

  /** getFunction: scans `abi` for the first entry whose name is the signature's prefix before '('. */
  method GetFunction(abi: seq<AbiEntry>, fnName: string) returns (r: Option<AbiEntry>)
    ensures r == FindFunction(abi, fnName)
  {
    var name := BeforeFirst(fnName, '(');
    var i := 0;
    while i < |abi|
      invariant 0 <= i <= |abi|
      invariant forall j :: 0 <= j < i ==> abi[j].name != Some(name)
    {
      if abi[i].name == Some(name) {
        return Some(abi[i]);
      }
      i := i + 1;
    }
    return None;
  }

  /** getConstructorInterface: starts from an empty constructor entry and copies the first constructor's inputs. */
  method GetConstructorInterface(abi: seq<AbiEntry>) returns (funAbi: AbiEntry)
    ensures funAbi == ConstructorInterface(abi)
  {
    funAbi := AbiEntry(Some(""), "constructor", Some([]));
    var i := 0;
    while i < |abi|
      invariant 0 <= i <= |abi|
      invariant forall j :: 0 <= j < i ==> !IsConstructor(abi[j])
      invariant funAbi == AbiEntry(Some(""), "constructor", Some([]))
    {
      if abi[i].kind == "constructor" {
        funAbi := funAbi.(inputs := Some(abi[i].inputs.GetOr([])));
        return;
      }
      i := i + 1;
    }
  }
}
