/** The proof-statement pipeline end to end: encode, run, flatten, decode. */
module Pipeline {
  import opened Wrappers
  import opened Felt
  import opened Types
  import opened Merkle
  import opened Cairo
  import opened Statement

  /** What each service claims about a job, on the typed values. */
  function SpecifiedOutput(poseidon: Poseidon, input: JobInput): JobOutput
    requires input.Validate().Success?
  {
    match input
    case FibonacciInput(n) =>
      Fibonacci.BoundIsTight(n);
      FibonacciOutput(FeltText(Fibonacci.Fib(n)))
    case HashVerifyInput(hash, preimage) =>
      HashVerifyOutput(FeltText(poseidon([FeltValue(preimage)])) == hash)
    case MerkleProofInput(root, leaf, proof, index) =>
      MerkleProofOutput(FeltText(FoldPath(poseidon, FeltValue(leaf), Values(proof), index)) == root)
  }

  /** A valid job trips no assertion of the Cairo program. */
  lemma ValidJobIsAccepted(input: JobInput)
    requires input.Validate().Success?
    ensures Accepted(CallOf(input))
  {
  }

  /** The statement whose flattening the program returns for a job. */
  ghost predicate ProvenStatement(poseidon: Poseidon, input: JobInput, st: ProofStatement)
    requires input.Validate().Success?
  {
    && st.Validate().Success?
    && StatementMatchesRequest(st, input)
    && st.output == SpecifiedOutput(poseidon, input)
  }

  /** Encoding, executing and decoding a valid job always succeeds, and yields a valid statement that matches
      the request and carries the specified result. An invalid job is refused before execution. */
  method RunJob(poseidon: Poseidon, input: JobInput, usizeMax: nat)
    returns (r: Result<ProofStatement, StatementError>)
    requires USIZE_MAX_WASM <= usizeMax < U64_LIMIT
    ensures r.Success? <==> input.Validate().Success?
    ensures r.Success? ==> ProvenStatement(poseidon, input, r.value)
  {
    var encoded := EncodeJob(input);
    if encoded.Failure? {
      return Failure(encoded.error);
    }
    var call := DeserializeCall(encoded.value);
    var c := call.value;
    ValidJobIsAccepted(input);
    var returned := Execute(poseidon, c.service, c.publicInput, c.privateInput);
    var output := SerializeReturn(returned.value);
    AnswerIsFelt(poseidon, input);
    StatementIsProven(poseidon, input);
    StatementFlattensTo(poseidon, input, returned.value);
    assert IsFlattening(output, StatementOf(poseidon, input));
    r := DecodeStatement(output, usizeMax);
  }

  ghost function StatementOf(poseidon: Poseidon, input: JobInput): ProofStatement
    requires input.Validate().Success? && FeltAnswer(poseidon, input)
  {
    var c := CallOf(input);
    ProofStatement(
      input.Service(), CAIRO_PROGRAM, Texts(c.publicInput), [FeltText(Answer(poseidon, c))],
      SpecifiedOutput(poseidon, input))
  }

  /** The program's answer is a field element: in particular the Fibonacci number has not wrapped. */
  ghost predicate FeltAnswer(poseidon: Poseidon, input: JobInput)
    requires input.Validate().Success?
  {
    0 <= Answer(poseidon, CallOf(input)) < CAIRO_PRIME
  }

  lemma AnswerIsFelt(poseidon: Poseidon, input: JobInput)
    requires input.Validate().Success?
    ensures FeltAnswer(poseidon, input)
  {
    if input.FibonacciInput? {
      Fibonacci.BoundIsTight(input.n);
    }
  }

  /** Comparing texts, as the typed claim does, is comparing the field elements the program compares. */
  lemma SameTextSameValue(x: Felt, text: FeltHex)
    ensures FeltText(x) == text <==> x == FeltValue(text)
  {
    ValueThenText(x);
    TextThenValue(text);
  }

  lemma StatementIsProven(poseidon: Poseidon, input: JobInput)
    requires input.Validate().Success? && FeltAnswer(poseidon, input)
    ensures ProvenStatement(poseidon, input, StatementOf(poseidon, input))
  {
    hide FeltText;
    match input {
      case FibonacciInput(n) =>
      case HashVerifyInput(hash, preimage) =>
        TextThenValue(hash);
        SameTextSameValue(poseidon([FeltValue(preimage)]), hash);
      case MerkleProofInput(root, leaf, proof, index) =>
        TextThenValue(root);
        TextThenValue(leaf);
        SameTextSameValue(FoldPath(poseidon, FeltValue(leaf), Values(proof), index), root);
    }
  }

  lemma StatementFlattensTo(poseidon: Poseidon, input: JobInput, returned: Return)
    requires input.Validate().Success? && FeltAnswer(poseidon, input)
    requires StatementOf(poseidon, input).Validate().Success?
    requires returned.service == ServiceId(input.Service()) && returned.publicInput == CallOf(input).publicInput
    requires |returned.output| == 1 && returned.output[0] == Answer(poseidon, CallOf(input))
    ensures IsFlattening(SerializeReturn(returned), StatementOf(poseidon, input))
  {
    var c := CallOf(input);
    ValuesOfTexts(c.publicInput);
    ValuesOfTexts(returned.output);
    assert StatementOf(poseidon, input).publicOutput == Texts(returned.output);
  }
}
