/** Encoding jobs for Cairo and decoding proof outputs, crates/soul-prover/src/statement.rs and its second
    copy in crates/soul-wasm/src/lib.rs. The copies differ in the width of `usize`, a parameter here. */
module Statement {
  import opened Wrappers
  import opened Felt
  import opened Bytes
  import opened Types
  import opened Cairo

  const USIZE_MAX_NATIVE: int := 0xffff_ffff_ffff_ffff
  const USIZE_MAX_WASM: int := 0xffff_ffff

  datatype StatementError =
    | InvalidInput(error: ValidationError)
    | InvalidOutput(reason: string)
    | InvalidStatementShape(reason: string)

  function ServiceId(service: ServiceType): (id: U8) {
    match service
    case Fibonacci => FIBONACCI_SERVICE
    case HashVerify => HASH_VERIFY_SERVICE
    case MerkleProof => MERKLE_PROOF_SERVICE
  }

  function Values(texts: seq<FeltHex>): (r: seq<Felt>)
    ensures |r| == |texts|
  {
    seq(|texts|, i requires 0 <= i < |texts| => FeltValue(texts[i]))
  }

  function Texts(values: seq<Felt>): (r: seq<FeltHex>)
    ensures |r| == |values|
  {
    seq(|values|, i requires 0 <= i < |values| => FeltText(values[i]))
  }

  lemma ValuesOfTexts(values: seq<Felt>)
    ensures Values(Texts(values)) == values
  {
    forall i | 0 <= i < |values| ensures Values(Texts(values))[i] == values[i] {
      ValueThenText(values[i]);
    }
  }

  lemma TextsOfValues(texts: seq<FeltHex>)
    ensures Texts(Values(texts)) == texts
  {
    forall i | 0 <= i < |texts| ensures Texts(Values(texts))[i] == texts[i] {
      TextThenValue(texts[i]);
    }
  }

  /** The Cairo call a job means: public arguments first, the private witness apart. */
  function CallOf(input: JobInput): Call {
    match input
    case FibonacciInput(n) => Call(FIBONACCI_SERVICE, [n], [])
    case HashVerifyInput(hash, preimage) => Call(HASH_VERIFY_SERVICE, [FeltValue(hash)], [FeltValue(preimage)])
    case MerkleProofInput(root, leaf, proof, index) =>
      Call(MERKLE_PROOF_SERVICE, [FeltValue(root), FeltValue(leaf), index], Values(proof))
  }

  /** Flatten a job. Cairo's deserialiser reads back exactly the call the job means. */
  method EncodeJob(input: JobInput) returns (r: Result<seq<Felt>, StatementError>)
    ensures r.Failure? <==> input.Validate().Failure?
    ensures r.Failure? ==> r.error == InvalidInput(input.Validate().error)
    ensures r.Success? ==> DeserializeCall(r.value) == Some(CallOf(input))
  {
    var valid := input.Validate();
    if valid.Failure? {
      return Failure(InvalidInput(valid.error));
    }
    var encoded: seq<Felt> := [];
    match input {
      case FibonacciInput(n) =>
        encoded := encoded + [FIBONACCI_SERVICE, 1, n, 0];
      case HashVerifyInput(hash, preimage) =>
        encoded := encoded + [HASH_VERIFY_SERVICE, 1, FeltValue(hash), 1, FeltValue(preimage)];
      case MerkleProofInput(root, leaf, proof, index) =>
        encoded := encoded + [MERKLE_PROOF_SERVICE, 3, FeltValue(root), FeltValue(leaf), index, |proof|];
        encoded := encoded + Values(proof);
    }
    assert encoded == SerializeCall(CallOf(input));
    DeserializeSerializedCall(CallOf(input));
    return Success(encoded);
  }

  // ---- decoding ----------------------------------------------------------

  method FieldToFelt(x: Felt) returns (r: Result<FeltHex, StatementError>)
    ensures r == Success(FeltText(x))
  {
    FieldToFeltIsFeltText(x);
    match Parse("0x" + HexEncode(BytesBE(x, 32))) {
      case Some(text) => r := Success(text);
      case None => r := Failure(InvalidOutput("field element is not canonical"));
    }
  }

  method TakeU64(output: seq<Felt>, cursor: nat, missing: string)
    returns (r: Result<U64, StatementError>, next: nat)
    requires cursor <= |output|
    ensures cursor <= next <= |output|
    ensures r.Success? <==> cursor < |output| && output[cursor] < U64_LIMIT
    ensures r.Success? ==> r.value == output[cursor] && next == cursor + 1
  {
    next := cursor;
    if cursor >= |output| {
      return Failure(InvalidOutput(missing)), next;
    }
    var value := output[cursor];
    next := cursor + 1;
    var bytes := BytesBE(value, 32);
    LeadingZerosMeanU64(value);
    if !AllZero(bytes[..24]) {
      return Failure(InvalidOutput("integer output does not fit u64")), next;
    }
    return Success(FromBytesBE(bytes[24..])), next;
  }

  method TakeLen(output: seq<Felt>, cursor: nat, usizeMax: nat, missing: string)
    returns (r: Result<nat, StatementError>, next: nat)
    requires cursor <= |output|
    ensures cursor <= next <= |output|
    ensures r.Success? <==> cursor < |output| && output[cursor] < U64_LIMIT && output[cursor] <= usizeMax
    ensures r.Success? ==> r.value == output[cursor] && next == cursor + 1
  {
    var value;
    value, next := TakeU64(output, cursor, missing);
    if value.Failure? {
      return Failure(value.error), next;
    }
    if value.value > usizeMax {
      return Failure(InvalidOutput("array length is too large")), next;
    }
    return Success(value.value), next;
  }

  method TakeFelts(output: seq<Felt>, cursor: nat, len: nat, usizeMax: nat, truncated: string)
    returns (r: Result<seq<FeltHex>, StatementError>, next: nat)
    requires cursor <= |output| <= usizeMax
    ensures cursor <= next <= |output|
    ensures r.Success? <==> cursor + len <= |output|
    ensures r.Success? ==> next == cursor + len && r.value == Texts(output[cursor..cursor + len])
  {
    next := cursor;
    if cursor + len > usizeMax {
      return Failure(InvalidOutput("array length overflow")), next;
    }
    var end := cursor + len;
    if end > |output| {
      return Failure(InvalidOutput(truncated)), next;
    }
    var values := output[cursor..end];
    next := end;
    var texts: seq<FeltHex> := [];
    for i := 0 to |values|
      invariant texts == Texts(values)[..i]
    {
      var text := FieldToFelt(values[i]);
      texts := texts + [text.value];
    }
    return Success(texts), next;
  }

  function DecodeBoolean(value: FeltHex): (r: Result<bool, StatementError>) {
    if value == FeltText(0) then Success(false)
    else if value == FeltText(1) then Success(true)
    else Failure(InvalidOutput("boolean output must be zero or one"))
  }

  /** The typed view of the raw arrays, by service id and arity. */
  function TypedOutput(serviceId: U64, publicInput: seq<FeltHex>, publicOutput: seq<FeltHex>)
    : Result<(ServiceType, JobOutput), StatementError>
  {
    if serviceId == FIBONACCI_SERVICE && |publicInput| == 1 && |publicOutput| == 1 then
      Success((Fibonacci, FibonacciOutput(publicOutput[0])))
    else if serviceId == HASH_VERIFY_SERVICE && |publicInput| == 1 && |publicOutput| == 1 then
      var valid :- DecodeBoolean(publicOutput[0]);
      Success((HashVerify, HashVerifyOutput(valid)))
    else if serviceId == MERKLE_PROOF_SERVICE && |publicInput| == 3 && |publicOutput| == 1 then
      var valid :- DecodeBoolean(publicOutput[0]);
      Success((MerkleProof, MerkleProofOutput(valid)))
    else if FIBONACCI_SERVICE <= serviceId <= MERKLE_PROOF_SERVICE then
      Failure(InvalidOutput("service input/output arity mismatch"))
    else
      Failure(InvalidOutput("unsupported service id"))
  }

  /** `validate_statement`: the core validation, then the layout once more. */
  function ValidateStatement(st: ProofStatement): (r: Result<(), StatementError>)
    ensures r.Success? <==> st.Validate().Success?
  {
    if st.Validate().Failure? then Failure(InvalidStatementShape("core statement validation failed"))
    else Need(st.LayoutMatches(), InvalidStatementShape("service, arity, raw output, and typed output disagree"))
  }

  /** The one output a statement flattens to. */
  function Flatten(st: ProofStatement): seq<Felt>
    requires st.Validate().Success?
  {
    SerializeReturn(Return(ServiceId(st.service), Values(st.publicInput), Values(st.publicOutput)))
  }

  ghost predicate IsFlattening(output: seq<Felt>, st: ProofStatement) {
    st.Validate().Success? && output == Flatten(st)
  }

  /** The cursor part of the decoder: service id, two length-prefixed arrays, nothing after them. */
  method TakeParts(output: seq<Felt>, usizeMax: nat)
    returns (r: Result<(U64, seq<FeltHex>, seq<FeltHex>), StatementError>)
    requires |output| <= usizeMax < U64_LIMIT
    ensures r.Success? <==> Reading(output).Some?
    ensures r.Success? ==> r.value == Reading(output).value
  {
    var cursor := 0;
    var serviceId, inputLen, publicInput, outputLen, publicOutput;
    serviceId, cursor := TakeU64(output, cursor, "missing service");
    if serviceId.Failure? {
      return Failure(serviceId.error);
    }
    inputLen, cursor := TakeLen(output, cursor, usizeMax, "missing public input length");
    if inputLen.Failure? {
      return Failure(inputLen.error);
    }
    publicInput, cursor := TakeFelts(output, cursor, inputLen.value, usizeMax, "truncated public input");
    if publicInput.Failure? {
      return Failure(publicInput.error);
    }
    outputLen, cursor := TakeLen(output, cursor, usizeMax, "missing public output length");
    if outputLen.Failure? {
      return Failure(outputLen.error);
    }
    publicOutput, cursor := TakeFelts(output, cursor, outputLen.value, usizeMax, "truncated public output");
    if publicOutput.Failure? {
      return Failure(publicOutput.error);
    }
    if cursor != |output| {
      return Failure(InvalidOutput("trailing output values"));
    }
    assert output[3 + inputLen.value..] == output[3 + inputLen.value..3 + inputLen.value + outputLen.value];
    return Success((serviceId.value, publicInput.value, publicOutput.value));
  }

  /** The decoder accepts an output exactly when it is the flattening of a valid statement, and then returns
      that statement: no trailing data, no second reading, whatever the width of `usize`. */
  method DecodeStatement(output: seq<Felt>, usizeMax: nat) returns (r: Result<ProofStatement, StatementError>)
    requires |output| <= usizeMax < U64_LIMIT
    ensures r.Success? ==> IsFlattening(output, r.value)
    ensures forall st :: IsFlattening(output, st) ==> r == Success(st)
  {
    OnlyReadingFlattens(output);
    var parts := TakeParts(output, usizeMax);
    if parts.Failure? {
      return Failure(parts.error);
    }
    var (serviceId, publicInput, publicOutput) := parts.value;
    var typed := TypedOutput(serviceId, publicInput, publicOutput);
    if typed.Failure? {
      return Failure(typed.error);
    }
    var statement := ProofStatement(typed.value.0, CAIRO_PROGRAM, publicInput, publicOutput, typed.value.1);
    var checked := ValidateStatement(statement);
    if checked.Failure? {
      return Failure(checked.error);
    }
    return Success(statement);
  }

  // ---- what a decodable output looks like --------------------------------

  /** The three parts of an output in `SerializeReturn` form. */
  ghost function Reading(output: seq<Felt>): (r: Option<(U64, seq<FeltHex>, seq<FeltHex>)>) {
    if |output| < 3 || output[0] >= U64_LIMIT || |output| - 3 < output[1] then None
    else
      var n: nat := output[1];
      var m: nat := output[2 + n];
      if |output| != 3 + n + m then None
      else Some((output[0], Texts(output[2..2 + n]), Texts(output[3 + n..])))
  }

  ghost function ReadStatement(output: seq<Felt>): Option<ProofStatement> {
    match Reading(output)
    case None => None
    case Some((id, pi, po)) =>
      match TypedOutput(id, pi, po)
      case Failure(_) => None
      case Success((service, typed)) =>
        var st := ProofStatement(service, CAIRO_PROGRAM, pi, po, typed);
        if st.Validate().Success? then Some(st) else None
  }

  /** The parts of an output put it together again. */
  lemma ReadingIsWhole(output: seq<Felt>)
    requires Reading(output).Some?
    ensures
      var (id, pi, po) := Reading(output).value;
      output == [id] + ([|pi|] + Values(pi)) + ([|po|] + Values(po))
  {
    var n := output[1];
    ValuesOfTexts(output[2..2 + n]);
    ValuesOfTexts(output[3 + n..]);
    hide Values, Texts;
    assert output == [output[0]] + ([n] + output[2..2 + n]) + ([output[2 + n]] + output[3 + n..]);
  }

  lemma TypedNamesService(id: U64, pi: seq<FeltHex>, po: seq<FeltHex>)
    requires TypedOutput(id, pi, po).Success?
    ensures id == ServiceId(TypedOutput(id, pi, po).value.0) && |pi| <= 3 && |po| == 1
  {
    hide DecodeBoolean;
  }

  lemma ReadStatementFlattens(output: seq<Felt>)
    requires ReadStatement(output).Some?
    ensures IsFlattening(output, ReadStatement(output).value)
  {
    var (id, pi, po) := Reading(output).value;
    ReadingIsWhole(output);
    TypedNamesService(id, pi, po);
    hide Reading, Values, Texts, TypedOutput, ProofStatement.Validate;
    assert [id] + ([|pi|] + Values(pi)) + ([|po|] + Values(po)) == SerializeReturn(Return(id, Values(pi), Values(po)));
  }

  lemma ReadingOfReturn(id: U8, pi: seq<FeltHex>, po: seq<FeltHex>)
    requires |pi| < U32_LIMIT && |po| < U32_LIMIT
    ensures Reading(SerializeReturn(Return(id, Values(pi), Values(po)))) == Some((id, pi, po))
  {
    var output := SerializeReturn(Return(id, Values(pi), Values(po)));
    var n := |pi|;
    assert output[1] == n && output[2 + n] == |po|;
    assert output[2..2 + n] == Values(pi) && output[3 + n..] == Values(po);
    TextsOfValues(pi);
    TextsOfValues(po);
  }

  lemma FlatteningIsRead(st: ProofStatement)
    requires st.Validate().Success?
    ensures ReadStatement(Flatten(st)) == Some(st)
  {
    ReadingOfReturn(ServiceId(st.service), st.publicInput, st.publicOutput);
    LayoutDeterminesOutput(st);
  }

  lemma LayoutDeterminesOutput(st: ProofStatement)
    requires st.Validate().Success?
    ensures TypedOutput(ServiceId(st.service), st.publicInput, st.publicOutput) == Success((st.service, st.output))
  {
    ZeroIsNotOne();
    hide FeltText;
    assert st.LayoutMatches();
    match st.output {
      case FibonacciOutput(result) =>
      case HashVerifyOutput(valid) =>
        assert st.publicOutput[0] == FeltText(BoolFelt(valid));
      case MerkleProofOutput(valid) =>
        assert st.publicOutput[0] == FeltText(BoolFelt(valid));
    }
  }

  lemma ZeroIsNotOne()
    ensures FeltText(0) != FeltText(1)
  {
    if FeltText(0) == FeltText(1) {
      FeltTextInjective(0, 1);
    }
  }

  lemma OnlyReadingFlattens(output: seq<Felt>)
    ensures forall st :: IsFlattening(output, st) <==> ReadStatement(output) == Some(st)
  {
    forall st | IsFlattening(output, st) ensures ReadStatement(output) == Some(st) {
      FlatteningIsRead(st);
    }
    if ReadStatement(output).Some? {
      ReadStatementFlattens(output);
    }
  }

  /** An output is the flattening of at most one statement. */
  lemma FlattenInjective(s: ProofStatement, t: ProofStatement)
    requires s.Validate().Success? && t.Validate().Success? && Flatten(s) == Flatten(t)
    ensures s == t
  {
    FlatteningIsRead(s);
    FlatteningIsRead(t);
  }

  /** The native and the browser copy agree on every output that fits the browser's memory. */
  method DecodeBothWidths(output: seq<Felt>)
    returns (native: Result<ProofStatement, StatementError>, wasm: Result<ProofStatement, StatementError>)
    requires |output| <= USIZE_MAX_WASM
    ensures native.Success? <==> wasm.Success?
    ensures native.Success? ==> native.value == wasm.value && IsFlattening(output, native.value)
  {
    native := DecodeStatement(output, USIZE_MAX_NATIVE);
    wasm := DecodeStatement(output, USIZE_MAX_WASM);
  }
}
