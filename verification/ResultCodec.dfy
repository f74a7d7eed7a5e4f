/** Result content as JSON, crates/soul-core/src/types.rs:289-536. */
module ResultCodec {
  import opened Wrappers
  import opened Felt
  import opened Types
  import opened Json
  import opened Codec

  function ErrorName(code: ErrorCode): string {
    match code
    case InvalidRequest => "invalid_request"
    case UnsupportedService => "unsupported_service"
    case ExpiredCode => "expired"
    case Duplicate => "duplicate"
    case Busy => "busy"
    case ProvingFailed => "proving_failed"
    case ArtifactUnavailable => "artifact_unavailable"
    case Internal => "internal"
  }

  function ErrorOfName(s: string): Option<ErrorCode> {
    if s == "invalid_request" then Some(InvalidRequest)
    else if s == "unsupported_service" then Some(UnsupportedService)
    else if s == "expired" then Some(ExpiredCode)
    else if s == "duplicate" then Some(Duplicate)
    else if s == "busy" then Some(Busy)
    else if s == "proving_failed" then Some(ProvingFailed)
    else if s == "artifact_unavailable" then Some(ArtifactUnavailable)
    else if s == "internal" then Some(Internal)
    else None
  }

  function OutputMembers(output: JobOutput): seq<Member> {
    [Member("type", Str(output.Service().AsStr())),
     match output
     case FibonacciOutput(result) => Member("result", Str(result))
     case HashVerifyOutput(valid) => Member("valid", Bool(valid))
     case MerkleProofOutput(valid) => Member("valid", Bool(valid))]
  }

  function OutputOfMembers(members: seq<Member>): Option<JobOutput> {
    var service :- GetService(members, "type");
    match service
    case Fibonacci =>
      var _ :- Guard(OnlyKeys(members, ["type", "result"]));
      var result :- GetFelt(members, "result");
      Some(FibonacciOutput(result))
    case HashVerify =>
      var _ :- Guard(OnlyKeys(members, ["type", "valid"]));
      var valid :- GetBool(members, "valid");
      Some(HashVerifyOutput(valid))
    case MerkleProof =>
      var _ :- Guard(OnlyKeys(members, ["type", "valid"]));
      var valid :- GetBool(members, "valid");
      Some(MerkleProofOutput(valid))
  }

  function StatementMembers(st: ProofStatement): seq<Member> {
    [Member("service", Str(st.service.AsStr())), Member("program", Str(st.program)),
     Member("public_input", Arr(FeltItems(st.publicInput))),
     Member("public_output", Arr(FeltItems(st.publicOutput))),
     Member("output", Obj(OutputMembers(st.output)))]
  }

  const STATEMENT_KEYS := ["service", "program", "public_input", "public_output", "output"]

  function StatementOfJson(j: Json): Option<ProofStatement> {
    var members :- Struct(j, STATEMENT_KEYS);
    var service :- GetService(members, "service");
    var program :- GetStr(members, "program");
    var publicInput :- GetFelts(members, "public_input");
    var publicOutput :- GetFelts(members, "public_output");
    var outputJson :- Get(members, "output");
    var _ :- Guard(outputJson.Obj? && DistinctKeys(outputJson.members));
    var output :- OutputOfMembers(outputJson.members);
    Some(ProofStatement(service, program, publicInput, publicOutput, output))
  }

  function ProofMembers(p: ProofDescriptor): seq<Member> {
    [Member("format", Str(p.format)), Member("media_type", Str(p.mediaType)), Member("url", Str(p.url)),
     Member("sha256", Str(p.sha256)), Member("byte_size", Num(p.byteSize)),
     Member("program_hash", Str(p.programHash)), Member("channel", Str(p.channel))]
  }

  const PROOF_KEYS := ["format", "media_type", "url", "sha256", "byte_size", "program_hash", "channel"]

  function ProofOfJson(j: Json): Option<ProofDescriptor> {
    var members :- Struct(j, PROOF_KEYS);
    var format :- GetStr(members, "format");
    var mediaType :- GetStr(members, "media_type");
    var url :- GetStr(members, "url");
    var sha256 :- GetStr(members, "sha256");
    var byteSize :- GetU64(members, "byte_size");
    var programHash :- GetFelt(members, "program_hash");
    var channel :- GetStr(members, "channel");
    Some(ProofDescriptor(format, mediaType, url, sha256, byteSize, programHash, channel))
  }

  function MetricsMembers(m: JobMetrics): seq<Member> {
    [Member("execution_ms", Num(m.executionMs)), Member("proving_ms", Num(m.provingMs)),
     Member("verification_ms", Num(m.verificationMs))]
  }

  function MetricsOfJson(j: Json): Option<JobMetrics> {
    var members :- Struct(j, ["execution_ms", "proving_ms", "verification_ms"]);
    var executionMs :- GetU64(members, "execution_ms");
    var provingMs :- GetU64(members, "proving_ms");
    var verificationMs :- GetU64(members, "verification_ms");
    Some(JobMetrics(executionMs, provingMs, verificationMs))
  }

  function ErrorMembers(e: JobError): seq<Member> {
    [Member("code", Str(ErrorName(e.code))), Member("message", Str(e.message))]
  }

  function ErrorOfJson(j: Json): Option<JobError> {
    var members :- Struct(j, ["code", "message"]);
    var name :- GetStr(members, "code");
    var code :- ErrorOfName(name);
    var message :- GetStr(members, "message");
    Some(JobError(code, message))
  }

  function ResultMembers(r: JobResultContent): seq<Member> {
    [Member("status", Str(r.Status())), Member("protocol", Str(r.protocol)), Member("request_id", Str(r.requestId))] +
    match r
    case SuccessResult(_, _, statement, proof, metrics) =>
      [Member("statement", Obj(StatementMembers(statement))), Member("proof", Obj(ProofMembers(proof))),
       Member("metrics", Obj(MetricsMembers(metrics)))]
    case ErrorResult(_, _, error) =>
      [Member("error", Obj(ErrorMembers(error)))]
  }

  /** The result enum is tagged by `status` and tolerates unknown members; canonical comparison refuses them. */
  function ResultOfJson(j: Json): Option<JobResultContent> {
    var _ :- Guard(j.Obj? && DistinctKeys(j.members));
    var status :- GetStr(j.members, "status");
    var protocol :- GetStr(j.members, "protocol");
    var requestId :- GetStr(j.members, "request_id");
    if status == "success" then
      var statementJson :- Get(j.members, "statement");
      var statement :- StatementOfJson(statementJson);
      var proofJson :- Get(j.members, "proof");
      var proof :- ProofOfJson(proofJson);
      var metricsJson :- Get(j.members, "metrics");
      var metrics :- MetricsOfJson(metricsJson);
      Some(SuccessResult(protocol, requestId, statement, proof, metrics))
    else if status == "error" then
      var errorJson :- Get(j.members, "error");
      var error :- ErrorOfJson(errorJson);
      Some(ErrorResult(protocol, requestId, error))
    else None
  }

  function CanonicalResult(r: JobResultContent): string {
    Print(Obj(ResultMembers(r)))
  }

  function ReadResult(text: string): Option<JobResultContent> {
    var j :- Read(text);
    ResultOfJson(j)
  }

  lemma OutputRoundTrip(output: JobOutput)
    ensures DistinctKeys(OutputMembers(output))
    ensures OutputOfMembers(OutputMembers(output)) == Some(output)
  {
    hide IsFeltText;
    var members := OutputMembers(output);
    NamesAreDistinct(output.Service());
    GetAt(members, 0);
    GetAt(members, 1);
  }

  lemma StatementRoundTrip(st: ProofStatement)
    ensures StatementOfJson(Obj(StatementMembers(st))) == Some(st)
  {
    hide IsFeltText, FeltItems, OutputMembers, OutputOfMembers;
    var members := StatementMembers(st);
    NamesAreDistinct(st.service);
    FeltListOfItems(st.publicInput);
    FeltListOfItems(st.publicOutput);
    OutputRoundTrip(st.output);
    assert DistinctKeys(members) && OnlyKeys(members, STATEMENT_KEYS);
    GetAt(members, 0);
    GetAt(members, 1);
    GetAt(members, 2);
    GetAt(members, 3);
    GetAt(members, 4);
  }

  lemma ProofKeys(p: ProofDescriptor)
    ensures DistinctKeys(ProofMembers(p)) && OnlyKeys(ProofMembers(p), PROOF_KEYS)
  {
    var members := ProofMembers(p);
    assert |members| == |PROOF_KEYS| == 7;
    assert forall i :: 0 <= i < 7 ==> members[i].key == PROOF_KEYS[i];
  }

  lemma ProofRoundTrip(p: ProofDescriptor)
    ensures ProofOfJson(Obj(ProofMembers(p))) == Some(p)
  {
    var members := ProofMembers(p);
    ProofKeys(p);
    hide IsFeltText, Get, DistinctKeys, OnlyKeys;
    GetAt(members, 0);
    GetAt(members, 1);
    GetAt(members, 2);
    GetAt(members, 3);
    GetAt(members, 4);
    GetAt(members, 5);
    GetAt(members, 6);
  }

  lemma MetricsRoundTrip(m: JobMetrics)
    ensures MetricsOfJson(Obj(MetricsMembers(m))) == Some(m)
  {
    var members := MetricsMembers(m);
    GetAt(members, 0);
    GetAt(members, 1);
    GetAt(members, 2);
  }

  lemma ErrorRoundTrip(e: JobError)
    ensures ErrorOfJson(Obj(ErrorMembers(e))) == Some(e)
  {
    var members := ErrorMembers(e);
    GetAt(members, 0);
    GetAt(members, 1);
  }

  lemma ResultJsonRoundTrip(r: JobResultContent)
    ensures ResultOfJson(Obj(ResultMembers(r))) == Some(r)
  {
    hide StatementMembers, StatementOfJson, ProofMembers, ProofOfJson, MetricsMembers, MetricsOfJson;
    hide ErrorMembers, ErrorOfJson;
    var members := ResultMembers(r);
    assert DistinctKeys(members);
    GetAt(members, 0);
    GetAt(members, 1);
    GetAt(members, 2);
    GetAt(members, 3);
    match r {
      case SuccessResult(_, _, statement, proof, metrics) =>
        GetAt(members, 4);
        GetAt(members, 5);
        StatementRoundTrip(statement);
        ProofRoundTrip(proof);
        MetricsRoundTrip(metrics);
      case ErrorResult(_, _, error) =>
        ErrorRoundTrip(error);
    }
  }

  /** Every result is read back from its canonical text. */
  lemma ResultRoundTrip(r: JobResultContent)
    ensures ReadResult(CanonicalResult(r)) == Some(r)
  {
    ReadInvertsPrint(Obj(ResultMembers(r)));
    ResultJsonRoundTrip(r);
  }
}
