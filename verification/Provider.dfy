/** Proof processing and result construction, apps/provider/src/processor.rs and nostr/handler.rs:56-82. The engine,
    the store, URL joining and signing are inputs. */
module Provider {
  import opened Wrappers
  import opened Hex
  import opened Felt
  import opened Bytes
  import opened Types
  import opened Json
  import opened Codec
  import opened ResultCodec
  import opened Events
  import opened Wire
  import opened Binding

  datatype Artifact = Artifact(
    proofBytes: seq<Byte>, statement: ProofStatement, programHash: FeltHex, metrics: JobMetrics)

  datatype EngineOutcome = WorkerLost | EngineFailed | Proved(artifact: Artifact)

  datatype StoredArtifact = StoredArtifact(sha256: string, byteSize: U64)

  datatype Services = Services(
    put: seq<Byte> -> Option<StoredArtifact>, joinUrl: string -> Option<string>, urlAllowed: string -> bool)

  datatype ProcessingError = NoPermit | WorkerError | ProvingError | RequestBinding | ArtifactError | DescriptorError {
    function PublicCode(): ErrorCode {
      match this
      case NoPermit => Busy
      case ArtifactError => ArtifactUnavailable
      case ProvingError => ProvingFailed
      case RequestBinding => ProvingFailed
      case WorkerError => Internal
      case DescriptorError => Internal
    }

    function PublicMessage(): (message: string)
      ensures message != [] && !IsControl(message[0])
    {
      match this
      case NoPermit => "provider is at proof capacity; retry later"
      case ArtifactError => "proof artifact is temporarily unavailable"
      case ProvingError => "proof generation failed"
      case RequestBinding => "proof generation failed"
      case WorkerError => "provider could not complete the request"
      case DescriptorError => "provider could not complete the request"
    }
  }

  function Describe(stored: StoredArtifact, url: string, programHash: FeltHex): ProofDescriptor {
    ProofDescriptor(
      PROOF_FORMAT, PROOF_MEDIA_TYPE, url, stored.sha256, stored.byteSize, programHash, PROOF_CHANNEL)
  }

  function Process(services: Services, request: JobRequest, permit: bool, engine: EngineOutcome)
    : Result<JobResultContent, ProcessingError>
  {
    var _ :- Need(permit, NoPermit);
    match engine
    case WorkerLost => Failure(WorkerError)
    case EngineFailed => Failure(ProvingError)
    case Proved(artifact) =>
      var _ :- Need(StatementMatchesRequest(artifact.statement, request.input), RequestBinding);
      match services.put(artifact.proofBytes)
      case None => Failure(ArtifactError)
      case Some(stored) =>
        match services.joinUrl("v1/proofs/" + stored.sha256 + ".json")
        case None => Failure(DescriptorError)
        case Some(url) =>
          var descriptor := Describe(stored, url, artifact.programHash);
          var _ :- Need(descriptor.Validate(services.urlAllowed).Success?, DescriptorError);
          var result := SuccessResult(
            SOUL_WIRE_PROTOCOL, request.id, artifact.statement, descriptor, artifact.metrics);
          var _ :- Need(result.Validate(services.urlAllowed).Success?, DescriptorError);
          Success(result)
  }

  /** Failures become a sanitised error result. */
  function ResultFor(request: JobRequest, processed: Result<JobResultContent, ProcessingError>): JobResultContent {
    match processed
    case Success(result) => result
    case Failure(error) =>
      ErrorResult(SOUL_WIRE_PROTOCOL, request.id, JobError.New(error.PublicCode(), error.PublicMessage()))
  }

  /** The event body the provider signs at time `at`. */
  function ResultBody(request: JobRequest, result: JobResultContent, pubkey: string, at: U64): Unsigned {
    Unsigned(pubkey, at, request.service.ResultKind(), ResultTags(request, result), CanonicalResult(result))
  }

  /** Whatever happens in the pipeline, the result answers the request; a success is bound to it. */
  lemma ProcessedAnswers(services: Services, request: JobRequest, permit: bool, engine: EngineOutcome)
    requires IsLowerHexOfLength(request.id, 64) && request.service == request.input.Service()
    ensures
      var result := ResultFor(request, Process(services, request, permit, engine));
      && result.Validate(services.urlAllowed).Success?
      && result.requestId == request.id
      && (result.SuccessResult? ==>
            result.statement.service == request.service && StatementMatchesRequest(result.statement, request.input))
  {
    hide JobResultContent.Validate;
    var processed := Process(services, request, permit, engine);
    if processed.Failure? {
      ErrorResultIsValid(request, processed.error, services.urlAllowed);
    }
  }

  lemma ErrorResultIsValid(request: JobRequest, error: ProcessingError, urlAllowed: string -> bool)
    requires IsLowerHexOfLength(request.id, 64)
    ensures ResultFor(request, Failure(error)).Validate(urlAllowed).Success?
  {
    hide WithoutControls, JobError.New, JobError.Valid, IsLowerHexOfLength, ProcessingError.PublicMessage;
    var message := error.PublicMessage();
    ErrorIsValidIffPrintable(error.PublicCode(), message);
  }

  predicate Printable(s: string) {
    forall i :: 0 <= i < |s| ==> !IsControl(s[i])
  }

  lemma PrintableConcat(a: string, b: string)
    requires Printable(a) && Printable(b)
    ensures Printable(a + b)
  {
  }

  lemma BusyIsPrintable()
    ensures Printable("provider is at proof capacity; retry later")
  {
    assert Printable("provider is") && Printable(" at proof") && Printable(" capacity;") && Printable(" retry later");
    hide Printable;
    PrintableConcat("provider is", " at proof");
    PrintableConcat(" capacity;", " retry later");
    PrintableConcat("provider is" + " at proof", " capacity;" + " retry later");
    assert ("provider is" + " at proof") + (" capacity;" + " retry later")
      == "provider is at proof capacity; retry later";
  }

  lemma UnavailableIsPrintable()
    ensures Printable("proof artifact is temporarily unavailable")
  {
    PrintableConcat("proof artifact", " is temporarily");
    PrintableConcat("proof artifact" + " is temporarily", " unavailable");
    assert "proof artifact" + " is temporarily" + " unavailable" == "proof artifact is temporarily unavailable";
  }

  lemma FailedIsPrintable()
    ensures Printable("proof generation failed")
  {
    PrintableConcat("proof generat", "ion failed");
    assert "proof generat" + "ion failed" == "proof generation failed";
  }

  lemma IncompleteIsPrintable()
    ensures Printable("provider could not complete the request")
  {
    PrintableConcat("provider could", " not complete ");
    PrintableConcat("provider could" + " not complete ", "the request");
    assert "provider could" + " not complete " + "the request" == "provider could not complete the request";
  }

  lemma PublicMessageIsPrintable(error: ProcessingError)
    ensures Printable(error.PublicMessage()) && |error.PublicMessage()| <= 160
  {
    hide Printable;
    match error
    case NoPermit => BusyIsPrintable();
    case ArtifactError => UnavailableIsPrintable();
    case ProvingError => FailedIsPrintable();
    case RequestBinding => FailedIsPrintable();
    case WorkerError => IncompleteIsPrintable();
    case DescriptorError => IncompleteIsPrintable();
  }

  /** Each of the six failures is published as it is: its own code and its whole message. */
  lemma FailuresArePublished(request: JobRequest, error: ProcessingError)
    ensures ResultFor(request, Failure(error)) == ErrorResult(
      "soul-society/1", request.id,
      match error
      case NoPermit => JobError(Busy, "provider is at proof capacity; retry later")
      case WorkerError => JobError(Internal, "provider could not complete the request")
      case ProvingError => JobError(ProvingFailed, "proof generation failed")
      case RequestBinding => JobError(ProvingFailed, "proof generation failed")
      case ArtifactError => JobError(ArtifactUnavailable, "proof artifact is temporarily unavailable")
      case DescriptorError => JobError(Internal, "provider could not complete the request"))
  {
    hide JobError.New, WithoutControls;
    PublicMessageIsPrintable(error);
    NewKeepsPrintable(error.PublicCode(), error.PublicMessage());
  }

  /** Processing succeeds exactly when nothing fails, and names the first failure otherwise: no permit, a lost worker, a
      failed proof, a statement of another request, an unstored artifact, and a descriptor or result out of bounds. */
  lemma ProcessedExactly(services: Services, request: JobRequest, permit: bool, engine: EngineOutcome)
    requires IsLowerHexOfLength(request.id, 64)
    ensures
      var r := Process(services, request, permit, engine);
      && (!permit <==> r == Failure(NoPermit))
      && (permit && engine.WorkerLost? <==> r == Failure(WorkerError))
      && (permit && engine.EngineFailed? <==> r == Failure(ProvingError))
      && (permit && engine.Proved? ==>
            var a := engine.artifact;
            var path := (sha256: string) => "v1/proofs/" + sha256 + ".json";
            if !StatementMatchesRequest(a.statement, request.input) then r == Failure(RequestBinding)
            else
              match services.put(a.proofBytes)
              case None => r == Failure(ArtifactError)
              case Some(stored) =>
                var good :=
                  && services.joinUrl(path(stored.sha256)).Some?
                  && services.urlAllowed(services.joinUrl(path(stored.sha256)).value)
                  && IsLowerHexOfLength(stored.sha256, 64) && 0 < stored.byteSize <= 33554432
                  && a.statement.Validate().Success? && a.metrics.Validate().Success?;
                if !good then r == Failure(DescriptorError)
                else
                  r == Success(SuccessResult(
                    "soul-society/1", request.id, a.statement,
                    ProofDescriptor(
                      "stwo-cairo-json-v1", "application/vnd.soul-society.stwo-proof+json",
                      services.joinUrl(path(stored.sha256)).value, stored.sha256, stored.byteSize, a.programHash,
                      "blake2s"),
                    a.metrics)))
  {
    hide IsLowerHexOfLength, StatementMatchesRequest, ProofStatement.Validate, JobMetrics.Validate;
  }

  lemma {:induction false} EscapeLength(s: string)
    ensures |Escape(s)| <= 6 * |s|
  {
    if s != [] {
      EscapeLength(s[1..]);
    }
  }

  lemma TextLength(s: string)
    ensures |Print(Str(s))| <= 6 * |s| + 2
  {
    EscapeLength(s);
  }

  lemma ErrorObjectLength(error: JobError)
    requires |error.message| <= MAX_ERROR_MESSAGE
    ensures |Print(Obj(ErrorMembers(error)))| <= 1980
  {
    hide Print, PrintMember, PrintMembers;
    var members := ErrorMembers(error);
    MemberLength(members[0]);
    MemberLength(members[1]);
    TextLength(ErrorName(error.code));
    TextLength(error.message);
    MembersLength(members, 150, 1);
    BracketsLength([], members);
  }

  /** Every error result fits the size limit, whatever its message. */
  lemma ErrorResultFits(requestId: string, error: JobError)
    requires |requestId| == 64 && |error.message| <= MAX_ERROR_MESSAGE
    ensures Utf8Length(CanonicalResult(ErrorResult(SOUL_WIRE_PROTOCOL, requestId, error))) <= MAX_RESULT_BYTES
  {
    var result := ErrorResult(SOUL_WIRE_PROTOCOL, requestId, error);
    ErrorTextLength(result);
    hide CanonicalResult;
    Utf8AtMostFour(CanonicalResult(result));
  }

  lemma ErrorTextLength(result: JobResultContent)
    requires result.ErrorResult? && result.protocol == SOUL_WIRE_PROTOCOL
    requires |result.requestId| == 64 && |result.error.message| <= MAX_ERROR_MESSAGE
    ensures |CanonicalResult(result)| <= 4000
  {
    hide Print, PrintMember, PrintMembers, ErrorMembers;
    var members := ResultMembers(result);
    assert |members| == 4;
    MemberLength(members[0]);
    MemberLength(members[1]);
    MemberLength(members[2]);
    MemberLength(members[3]);
    TextLength(result.Status());
    TextLength(result.protocol);
    TextLength(result.requestId);
    ErrorObjectLength(result.error);
    MembersLength(members, 410, 3);
    BracketsLength([], members);
  }

  lemma FeltListIsShort(felts: seq<FeltHex>)
    requires |felts| <= 3
    ensures |Print(Arr(FeltItems(felts)))| <= 210
  {
    hide Print, PrintItems, IsFeltText;
    FeltListLength(felts);
    BracketsLength(FeltItems(felts), []);
  }

  lemma OutputLength(output: JobOutput)
    ensures |Print(Obj(OutputMembers(output)))| <= 270
  {
    var members := OutputMembers(output);
    hide Print, PrintMember, PrintMembers, Escape, IsFeltText;
    assert |members| == 2;
    MemberLength(members[0]);
    MemberLength(members[1]);
    PlainLength(output.Service().AsStr());
    match output {
      case FibonacciOutput(result) => FeltTextLength(result);
      case HashVerifyOutput(valid) => BoolLength(valid);
      case MerkleProofOutput(valid) => BoolLength(valid);
    }
    LightMembersLength(members, 120);
    BracketsLength([], members);
  }

  lemma BoolLength(b: bool)
    ensures |Print(Bool(b))| <= 5
  {
  }

  /** Keys of plain text, of at most `n` characters. */
  ghost predicate ShortKey(key: string, n: nat) {
    Plain(key) && |key| <= n
  }

  ghost predicate ShortKeys(members: seq<Member>, n: nat) {
    forall i :: 0 <= i < |members| ==> ShortKey(members[i].key, n)
  }

  lemma ShortMember(members: seq<Member>, n: nat, i: nat)
    requires ShortKeys(members, n) && i < |members|
    ensures |PrintMember(members[i])| <= n + 3 + |Print(members[i].value)|
  {
    hide Print, Plain, PrintMember;
    MemberLength(members[i]);
  }

  lemma StatementParts(st: ProofStatement)
    ensures
      var members := StatementMembers(st);
      && |members| == 5 && ShortKeys(members, 13)
      && members[0].value == Str(st.service.AsStr()) && members[1].value == Str(st.program)
      && members[2].value == Arr(FeltItems(st.publicInput)) && members[3].value == Arr(FeltItems(st.publicOutput))
      && members[4].value == Obj(OutputMembers(st.output))
  {
    hide FeltItems, OutputMembers;
  }

  lemma StatementLength(st: ProofStatement)
    requires st.Validate().Success?
    ensures |Print(Obj(StatementMembers(st)))| <= 1600
  {
    var members := StatementMembers(st);
    StatementParts(st);
    ProgramIsShort(st);
    assert |st.publicInput| <= 3 && |st.publicOutput| <= 3;
    hide Print, PrintMember, PrintMembers, StatementMembers, OutputMembers, FeltItems, ProofStatement.Validate;
    hide ShortKeys, ServiceType.AsStr;
    forall i: nat | i < 4
      ensures |Print(members[i].value)| <= 220
    {
      if i == 0 {
        ServiceLength(st.service);
      } else if i == 1 {
        TextLength(st.program);
      } else if i == 2 {
        FeltListIsShort(st.publicInput);
      } else {
        FeltListIsShort(st.publicOutput);
      }
    }
    OutputLength(st.output);
    ShortMembersLength(members, 13, 220, 4);
    BracketsLength([], members);
  }

  /** Members with short keys and values, but for the value at `heavy`. */
  lemma ShortMembersLength(members: seq<Member>, n: nat, bound: nat, heavy: nat)
    requires ShortKeys(members, n) && heavy < |members|
    requires forall i: nat :: i < |members| && i != heavy ==> |Print(members[i].value)| <= bound
    ensures |PrintMembers(members)| <= |members| * (n + 4 + bound) + n + 3 + |Print(members[heavy].value)|
  {
    hide Print, PrintMember, PrintMembers, ShortKeys;
    forall i: nat | i < |members| && i != heavy
      ensures |PrintMember(members[i])| <= n + 3 + bound
    {
      ShortMember(members, n, i);
    }
    ShortMember(members, n, heavy);
    MembersLength(members, n + 3 + bound, heavy);
  }

  lemma ServiceLength(service: ServiceType)
    ensures |Print(Str(service.AsStr()))| <= 20
  {
    PlainLength(service.AsStr());
  }

  lemma ProgramIsShort(st: ProofStatement)
    requires st.Validate().Success?
    ensures |st.program| == 13
  {
  }

  lemma DescriptorKeysAreShort()
    ensures ShortKey("format", 12) && ShortKey("media_type", 12) && ShortKey("url", 12)
  {
  }

  lemma MoreDescriptorKeysAreShort()
    ensures ShortKey("sha256", 12) && ShortKey("byte_size", 12)
    ensures ShortKey("program_hash", 12) && ShortKey("channel", 12)
  {
  }

  lemma DescriptorKeys(p: ProofDescriptor)
    ensures |ProofMembers(p)| == 7 && ShortKeys(ProofMembers(p), 12)
  {
    DescriptorKeysAreShort();
    MoreDescriptorKeysAreShort();
    hide Plain;
  }

  /** A descriptor is as long as its URL, and a constant more. */
  lemma DescriptorLength(p: ProofDescriptor, urlAllowed: string -> bool)
    requires p.Validate(urlAllowed).Success?
    ensures |Print(Obj(ProofMembers(p)))| <= 2900 + |Print(Str(p.url))|
  {
    var members := ProofMembers(p);
    DescriptorKeys(p);
    DescriptorTexts(p, urlAllowed);
    hide Print, PrintMember, PrintMembers, IsFeltText, ProofDescriptor.Validate, ShortKeys, Plain;
    forall i: nat | i < 7 && i != 2
      ensures |Print(members[i].value)| <= 386
    {
      if i == 0 {
        TextLength(p.format);
      } else if i == 1 {
        TextLength(p.mediaType);
      } else if i == 3 {
        TextLength(p.sha256);
      } else if i == 4 {
        NumberLength(p.byteSize);
      } else if i == 5 {
        FeltTextLength(p.programHash);
      } else {
        TextLength(p.channel);
      }
    }
    ShortMembersLength(members, 12, 386, 2);
    BracketsLength([], members);
  }

  lemma DescriptorTexts(p: ProofDescriptor, urlAllowed: string -> bool)
    requires p.Validate(urlAllowed).Success?
    ensures |p.format| <= 64 && |p.mediaType| <= 64 && |p.sha256| == 64 && |p.channel| <= 64
  {
  }

  lemma MetricsLength(m: JobMetrics)
    ensures |Print(Obj(MetricsMembers(m)))| <= 200
  {
    var members := MetricsMembers(m);
    hide Print, PrintMember, PrintMembers, Escape;
    MemberLength(members[0]);
    MemberLength(members[1]);
    MemberLength(members[2]);
    NumberLength(m.executionMs);
    NumberLength(m.provingMs);
    NumberLength(m.verificationMs);
    LightMembersLength(members, 60);
    BracketsLength([], members);
  }

  lemma SuccessParts(result: JobResultContent)
    requires result.SuccessResult?
    ensures
      var members := ResultMembers(result);
      && |members| == 6 && ShortKeys(members, 10)
      && members[3].value == Obj(StatementMembers(result.statement))
      && members[4].value == Obj(ProofMembers(result.proof))
      && members[5].value == Obj(MetricsMembers(result.metrics))
  {
    hide StatementMembers, ProofMembers, MetricsMembers;
  }

  lemma SuccessTextLength(result: JobResultContent, urlAllowed: string -> bool)
    requires result.SuccessResult? && result.Validate(urlAllowed).Success? && |Print(Str(result.proof.url))| <= 2000
    ensures |CanonicalResult(result)| <= 8190
  {
    var members := ResultMembers(result);
    assert |result.requestId| == 64 && result.protocol == SOUL_WIRE_PROTOCOL;
    assert result.statement.Validate().Success? && result.proof.Validate(urlAllowed).Success?;
    SuccessParts(result);
    hide Print, PrintMember, PrintMembers, StatementMembers, ProofMembers, MetricsMembers, ShortKeys;
    hide JobResultContent.Validate, ProofStatement.Validate, ProofDescriptor.Validate;
    HeaderLength(result);
    ShortMember(members, 10, 3);
    ShortMember(members, 10, 4);
    ShortMember(members, 10, 5);
    StatementLength(result.statement);
    DescriptorLength(result.proof, urlAllowed);
    MetricsLength(result.metrics);
    SixMembersLength(members);
    BracketsLength([], members);
    hide ResultMembers;
  }

  lemma HeaderLength(result: JobResultContent)
    requires result.protocol == SOUL_WIRE_PROTOCOL && |result.requestId| == 64
    ensures
      var members := ResultMembers(result);
      && |PrintMember(members[0])| <= 60 && |PrintMember(members[1])| <= 120 && |PrintMember(members[2])| <= 410
  {
    var members := ResultMembers(result);
    hide Print, PrintMember, Escape, StatementMembers, ProofMembers, MetricsMembers, ErrorMembers;
    MemberLength(members[0]);
    MemberLength(members[1]);
    MemberLength(members[2]);
    TextLength(result.Status());
    TextLength(result.protocol);
    TextLength(result.requestId);
  }

  lemma SixMembersLength(members: seq<Member>)
    requires |members| == 6
    ensures |PrintMembers(members)| ==
      |PrintMember(members[0])| + |PrintMember(members[1])| + |PrintMember(members[2])|
      + |PrintMember(members[3])| + |PrintMember(members[4])| + |PrintMember(members[5])| + 5
  {
    hide PrintMember;
    FirstMember(members);
    FirstMember(members[1..]);
    FirstMember(members[2..]);
    FirstMember(members[3..]);
    FirstMember(members[4..]);
    assert members[1..][1..] == members[2..] && members[2..][1..] == members[3..];
    assert members[3..][1..] == members[4..] && members[4..][1..] == members[5..];
    assert PrintMembers(members[5..]) == PrintMember(members[5]);
  }

  lemma FirstMember(members: seq<Member>)
    requires |members| > 1
    ensures |PrintMembers(members)| == |PrintMember(members[0])| + 1 + |PrintMembers(members[1..])|
  {
    hide PrintMember;
  }

  /** Every valid success result fits the size limit, as long as its URL prints to at most 2,000 characters. */
  lemma SuccessResultFits(result: JobResultContent, urlAllowed: string -> bool)
    requires result.SuccessResult? && result.Validate(urlAllowed).Success? && |Print(Str(result.proof.url))| <= 2000
    ensures Utf8Length(CanonicalResult(result)) <= MAX_RESULT_BYTES
  {
    hide CanonicalResult, JobResultContent.Validate;
    SuccessTextLength(result, urlAllowed);
    Utf8AtMostFour(CanonicalResult(result));
  }

  /** Every event the handler builds, success or error, is accepted by the client's parser for that request and
      yields the same result, exactly when it was signed no earlier than the request's own timestamp and at most
      300 seconds past the client's clock. The lower limit bites: intake admits requests dated up to 300 seconds
      ahead, and a result signed before such a date is refused. */
  lemma ProviderOutputAcceptedIff(
    nostr: Nostr, services: Services, x: Event, seen: U64, permit: bool, engine: EngineOutcome, e: Event,
    pubkey: string, at: U64, now: U64)
    requires WellFormed(x) && ParseRequest(nostr, x, seen).Success?
    requires
      var request := ParseRequest(nostr, x, seen).value;
      var result := ResultFor(request, Process(services, request, permit, engine));
      && Utf8Length(CanonicalResult(result)) <= MAX_RESULT_BYTES
      && e.body == ResultBody(request, result, pubkey, at)
      && nostr.Verify(e)
    ensures
      var request := ParseRequest(nostr, x, seen).value;
      var result := ResultFor(request, Process(services, request, permit, engine));
      ParseResult(nostr, services.urlAllowed, e, request, now) ==
        if request.createdAt <= at <= now + MAX_FUTURE_SKEW_SECS then Success(result) else Failure(InvalidTimestamp)
  {
    hide ParseRequest, Process, ResultFor, CanonicalResult, CheckEmbedded, Serialize, ReadResult, Utf8Length;
    var request := ParseRequest(nostr, x, seen).value;
    var result := ResultFor(request, Process(services, request, permit, engine));
    ParsedShape(nostr, x, seen);
    ProcessedAnswers(services, request, permit, engine);
    OwnCopyPasses(nostr, x, seen);
    if request.createdAt <= at <= now + MAX_FUTURE_SKEW_SECS {
      assert Carries(nostr, e, result, request, now, request.serializedEvent);
      CarryingIsAccepted(nostr, services.urlAllowed, e, request, now, result, request.serializedEvent);
    }
  }

  lemma ParsedShape(nostr: Nostr, x: Event, seen: U64)
    requires WellFormed(x) && ParseRequest(nostr, x, seen).Success?
    ensures
      var request := ParseRequest(nostr, x, seen).value;
      && IsLowerHexOfLength(request.id, 64)
      && request.service == request.input.Service()
      && request.serializedEvent == Serialize(x)
      && request.createdAt == x.body.createdAt
      && request.input.Validate().Success?
  {
    hide Canonical, ReadContent, BaseTags, BidTags, ReadBid, Serialize;
  }

  /** A request dated in the provider's future, and its prompt answer: accepted at intake, refused by every client. */
  lemma PromptAnswerToFutureRequestIsRefused(
    nostr: Nostr, services: Services, x: Event, seen: U64, engine: EngineOutcome, e: Event, pubkey: string, now: U64)
    requires WellFormed(x) && ParseRequest(nostr, x, seen).Success? && x.body.createdAt > seen
    requires
      var request := ParseRequest(nostr, x, seen).value;
      var result := ResultFor(request, Process(services, request, true, engine));
      && Utf8Length(CanonicalResult(result)) <= MAX_RESULT_BYTES
      && e.body == ResultBody(request, result, pubkey, seen)
      && nostr.Verify(e)
    ensures ParseResult(nostr, services.urlAllowed, e, ParseRequest(nostr, x, seen).value, now)
         == Failure(InvalidTimestamp)
  {
    ParsedShape(nostr, x, seen);
    ProviderOutputAcceptedIff(nostr, services, x, seen, true, engine, e, pubkey, seen, now);
  }
}
