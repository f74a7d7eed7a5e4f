/** Typed Soul Wire values and their validators, crates/soul-core/src/types.rs and constants.rs. */
module Types {
  import opened Wrappers
  import opened Hex
  import opened Felt

  const SOUL_WIRE_PROTOCOL: string := "soul-society/1"
  const CAIRO_PROGRAM: string := "soul-cairo-v1"
  const PROOF_FORMAT: string := "stwo-cairo-json-v1"
  const PROOF_MEDIA_TYPE: string := "application/vnd.soul-society.stwo-proof+json"
  const PROOF_CHANNEL: string := "blake2s"

  const MAX_FIBONACCI_N: int := 363
  const MAX_MERKLE_DEPTH: int := 32
  const MAX_REQUEST_BYTES: int := 16 * 1024
  const MAX_RESULT_BYTES: int := 32 * 1024
  const MAX_PROOF_BYTES: int := 32 * 1024 * 1024
  const MAX_REQUEST_AGE_SECS: int := 600
  const MAX_FUTURE_SKEW_SECS: int := 300
  const MAX_REQUEST_TTL_SECS: int := 3600
  const MAX_SAFE_INTEGER: int := 9_007_199_254_740_991
  const MAX_ERROR_MESSAGE: int := 160

  function Pow2(n: nat): (p: nat)
    ensures p > 0
  {
    if n == 0 then 1 else 2 * Pow2(n - 1)
  }

  function SaturatingAdd(a: U64, b: U64): U64 {
    if a + b < U64_LIMIT then a + b else U64_LIMIT - 1
  }

  function SaturatingSub(a: U64, b: U64): U64 {
    if a >= b then a - b else 0
  }

  datatype ServiceType = Fibonacci | HashVerify | MerkleProof {
    function AsStr(): string {
      match this
      case Fibonacci => "fibonacci"
      case HashVerify => "hash_verify"
      case MerkleProof => "merkle_proof"
    }

    function RequestKind(): int {
      match this
      case Fibonacci => 5601
      case HashVerify => 5602
      case MerkleProof => 5603
    }

    function ResultKind(): int {
      match this
      case Fibonacci => 6601
      case HashVerify => 6602
      case MerkleProof => 6603
    }
  }

  datatype ValidationError =
    | UnsupportedProtocol
    | ServiceMismatch
    | FibonacciOutOfRange
    | MerkleDepthOutOfRange
    | MerkleIndexOutOfRange
    | Expired
    | InvalidExpiry
    | InvalidStatement
    | InvalidProofDescriptor
    | InvalidResult

  datatype JobInput =
    | FibonacciInput(n: U64)
    | HashVerifyInput(hash: FeltHex, preimage: FeltHex)
    | MerkleProofInput(root: FeltHex, leaf: FeltHex, proof: seq<FeltHex>, index: U64)
  {
    function Service(): ServiceType {
      match this
      case FibonacciInput(_) => Fibonacci
      case HashVerifyInput(_, _) => HashVerify
      case MerkleProofInput(_, _, _, _) => MerkleProof
    }

    /** A shift by at most 32 of a u64 one never loses a bit, so it is `Pow2`. */
    function Validate(): Result<(), ValidationError> {
      match this
      case FibonacciInput(n) =>
        Need(n <= MAX_FIBONACCI_N, FibonacciOutOfRange)
      case HashVerifyInput(_, _) =>
        Success(())
      case MerkleProofInput(_, _, proof, index) =>
        var _ :- Need(|proof| <= MAX_MERKLE_DEPTH, MerkleDepthOutOfRange);
        var fits := if proof == [] then index == 0 else index < Pow2(|proof|);
        Need(fits, MerkleIndexOutOfRange)
    }
  }

  datatype JobRequestContent = JobRequestContent(
    protocol: string, service: ServiceType, input: JobInput, expiresAt: Option<U64>)
  {
    function Validate(createdAt: U64, now: U64): Result<(), ValidationError> {
      var _ :- Need(protocol == SOUL_WIRE_PROTOCOL, UnsupportedProtocol);
      var _ :- Need(service == input.Service(), ServiceMismatch);
      var _ :- input.Validate();
      match expiresAt
      case None => Success(())
      case Some(t) =>
        var _ :- Need(t > now, Expired);
        Need(t >= createdAt && SaturatingSub(t, createdAt) <= MAX_REQUEST_TTL_SECS, InvalidExpiry)
    }
  }

  /** A validated request plus the authenticated event data the provider keeps. */
  datatype JobRequest = JobRequest(
    id: string, service: ServiceType, input: JobInput, bidMsats: U64, customerPubkey: string,
    createdAt: U64, expiresAt: Option<U64>, canonicalInput: string, serializedEvent: string)

  datatype JobOutput =
    | FibonacciOutput(result: FeltHex)
    | HashVerifyOutput(valid: bool)
    | MerkleProofOutput(valid: bool)
  {
    function Service(): ServiceType {
      match this
      case FibonacciOutput(_) => Fibonacci
      case HashVerifyOutput(_) => HashVerify
      case MerkleProofOutput(_) => MerkleProof
    }
  }

  function BoolFelt(b: bool): Felt {
    if b then 1 else 0
  }

  datatype ProofStatement = ProofStatement(
    service: ServiceType, program: string, publicInput: seq<FeltHex>, publicOutput: seq<FeltHex>,
    output: JobOutput)
  {
    function Validate(): Result<(), ValidationError> {
      var _ :- Need(program == CAIRO_PROGRAM && |program| <= 64 && service == output.Service(), InvalidStatement);
      var _ :- Need(
        |publicInput| <= MAX_MERKLE_DEPTH + 4 && |publicOutput| <= MAX_MERKLE_DEPTH + 8, InvalidStatement);
      Need(LayoutMatches(), InvalidStatement)
    }

    /** The service-specific layout test, repeated verbatim by `validate_statement` in both decoders. */
    predicate LayoutMatches() {
      match (service, output)
      case (Fibonacci, FibonacciOutput(result)) =>
        |publicInput| == 1 && publicOutput == [result]
      case (HashVerify, HashVerifyOutput(valid)) =>
        |publicInput| == 1 && publicOutput == [FeltText(BoolFelt(valid))]
      case (MerkleProof, MerkleProofOutput(valid)) =>
        |publicInput| == 3 && publicOutput == [FeltText(BoolFelt(valid))]
      case _ => false
    }
  }

  datatype ProofDescriptor = ProofDescriptor(
    format: string, mediaType: string, url: string, sha256: string, byteSize: U64, programHash: FeltHex,
    channel: string)
  {
    /** `urlAllowed` stands for URL parsing and the scheme and host policy. */
    function Validate(urlAllowed: string -> bool): Result<(), ValidationError> {
      var _ :- Need(
        && format == PROOF_FORMAT && mediaType == PROOF_MEDIA_TYPE && channel == PROOF_CHANNEL
        && 0 < byteSize <= MAX_PROOF_BYTES, InvalidProofDescriptor);
      var _ :- Need(IsLowerHexOfLength(sha256, 64), InvalidProofDescriptor);
      Need(urlAllowed(url), InvalidProofDescriptor)
    }
  }

  datatype JobMetrics = JobMetrics(executionMs: U64, provingMs: U64, verificationMs: U64) {
    function Validate(): Result<(), ValidationError> {
      Need(
        executionMs <= MAX_SAFE_INTEGER && provingMs <= MAX_SAFE_INTEGER && verificationMs <= MAX_SAFE_INTEGER,
        InvalidResult)
    }
  }

  datatype ErrorCode =
    | InvalidRequest | UnsupportedService | ExpiredCode | Duplicate
    | Busy | ProvingFailed | ArtifactUnavailable | Internal

  predicate IsControl(c: char) {
    c < ' ' || 0x7f <= c as int <= 0x9f
  }

  function WithoutControls(s: string): (r: string)
    ensures forall i :: 0 <= i < |r| ==> !IsControl(r[i])
    ensures r == [] <==> forall i :: 0 <= i < |s| ==> IsControl(s[i])
  {
    if s == [] then []
    else if IsControl(s[0]) then WithoutControls(s[1..])
    else [s[0]] + WithoutControls(s[1..])
  }

  datatype JobError = JobError(code: ErrorCode, message: string) {
    static function New(code: ErrorCode, message: string): JobError {
      var bounded := WithoutControls(message);
      JobError(code, if |bounded| <= MAX_ERROR_MESSAGE then bounded else bounded[..MAX_ERROR_MESSAGE])
    }

    predicate Valid() {
      0 < |message| <= MAX_ERROR_MESSAGE && forall i :: 0 <= i < |message| ==> !IsControl(message[i])
    }
  }

  datatype JobResultContent =
    | SuccessResult(protocol: string, requestId: string, statement: ProofStatement, proof: ProofDescriptor,
                    metrics: JobMetrics)
    | ErrorResult(protocol: string, requestId: string, error: JobError)
  {
    function Status(): string {
      if SuccessResult? then "success" else "error"
    }

    function Validate(urlAllowed: string -> bool): Result<(), ValidationError> {
      var _ :- Need(protocol == SOUL_WIRE_PROTOCOL && IsLowerHexOfLength(requestId, 64), InvalidResult);
      match this
      case SuccessResult(_, _, statement, proof, metrics) =>
        var _ :- statement.Validate();
        var _ :- proof.Validate(urlAllowed);
        metrics.Validate()
      case ErrorResult(_, _, error) =>
        Need(error.Valid(), InvalidResult)
    }
  }

  /** `statement_matches_request` of the provider. */
  predicate StatementMatchesRequest(statement: ProofStatement, input: JobInput) {
    && statement.service == input.Service()
    && match input
       case FibonacciInput(n) => statement.publicInput == [FeltText(n)]
       case HashVerifyInput(hash, _) => statement.publicInput == [hash]
       case MerkleProofInput(root, leaf, _, index) => statement.publicInput == [root, leaf, FeltText(index)]
  }

  /** Sanitising drops the control characters and nothing else, and keeps the order: it is the one map on texts that
      respects concatenation, keeps each printable character and drops each control character. */
  lemma {:induction false} WithoutControlsConcat(a: string, b: string)
    ensures WithoutControls(a + b) == WithoutControls(a) + WithoutControls(b)
  {
    if a == [] {
      assert a + b == b;
    } else {
      WithoutControlsConcat(a[1..], b);
      WithoutControlsCons(a[0], a[1..]);
      WithoutControlsCons(a[0], a[1..] + b);
      hide WithoutControls, IsControl;
      assert [a[0]] + a[1..] == a && [a[0]] + (a[1..] + b) == a + b;
    }
  }

  lemma WithoutControlsCons(c: char, s: string)
    ensures WithoutControls([c] + s) == (if IsControl(c) then [] else [c]) + WithoutControls(s)
  {
    assert ([c] + s)[1..] == s;
  }

  lemma WithoutControlsOne(c: char)
    ensures WithoutControls([c]) == if IsControl(c) then [] else [c]
  {
    assert [c][1..] == [];
  }

  lemma {:induction false} PrintableIsKept(s: string)
    requires forall i :: 0 <= i < |s| ==> !IsControl(s[i])
    ensures WithoutControls(s) == s
  {
    if s != [] {
      PrintableIsKept(s[1..]);
      assert s == [s[0]] + s[1..];
    }
  }

  /** A public error has the given code and the first 160 printable characters of the given message, in order: all of
      it, when it is printable and short enough. */
  lemma NewKeepsPrintable(code: ErrorCode, message: string)
    ensures JobError.New(code, message).code == code
    ensures JobError.New(code, message).message <= WithoutControls(message)
    ensures
      || |JobError.New(code, message).message| == 160
      || JobError.New(code, message).message == WithoutControls(message)
    ensures |JobError.New(code, message).message| <= 160
    ensures |message| <= 160 && (forall i :: 0 <= i < |message| ==> !IsControl(message[i])) ==>
      JobError.New(code, message) == JobError(code, message)
  {
    if forall i :: 0 <= i < |message| ==> !IsControl(message[i]) { PrintableIsKept(message); }
  }

  /** A sanitised error is publishable exactly when its raw message had some printable character. */
  lemma ErrorIsValidIffPrintable(code: ErrorCode, message: string)
    ensures JobError.New(code, message).Valid() <==> exists i :: 0 <= i < |message| && !IsControl(message[i])
  {
  }
}
