/** A signed request becomes a proven, bound, fetchable and verifiable result: the provider's answer runs through the
    client to the end, and whatever a client shows as verified answers its request. */
module EndToEnd {
  import opened Wrappers
  import opened Hex
  import opened Felt
  import opened Bytes
  import opened Types
  import opened Codec
  import opened ResultCodec
  import opened Events
  import opened Wire
  import opened Binding
  import opened Provider
  import TsMirror
  import Merkle
  import Pipeline
  import Fibonacci
  import Statement
  import ArtifactStore
  import ProofFetch
  import Settlement
  import Fifo
  import SoulJob
  import SoulJobRetry
  import SoulJobSafety

  function ContentOf(request: JobRequest): JobRequestContent {
    JobRequestContent(SOUL_WIRE_PROTOCOL, request.service, request.input, request.expiresAt)
  }

  /** `validateResultEvent` of the SDK: the common checks, a safe timestamp, the binding of the statement to the typed
      request, and an embedded copy equal to the request event in every member. */
  function SdkValidateResult(
    nostr: Nostr, urlAllowed: string -> bool, e: Event, request: JobRequest, now: nat): Option<JobResultContent>
  {
    if now >= U64_LIMIT || e.body.createdAt > MAX_SAFE_INTEGER then None
    else
      match ParseResult(nostr, urlAllowed, e, request, now)
      case Failure(_) => None
      case Success(result) =>
        if result.SuccessResult?
           && !(TsMirror.StatementParses(result.statement)
                && TsMirror.BoundToRequest(result.statement, ContentOf(request))) then None
        else if !SameEmbedded(nostr, e, request) then None
        else Some(result)
  }

  predicate SameEmbedded(nostr: Nostr, e: Event, request: JobRequest) {
    && e.body.tags != [] && |e.body.tags[0]| == 2
    && ParseEmbedded(nostr, e.body.tags[0][1]).Success?
    && Deserialize(request.serializedEvent) == Some(ParseEmbedded(nostr, e.body.tags[0][1]).value)
  }

  /** `validateRequestEvent` of the SDK, in the form of TsMirror.RequestChecksAgree. */
  function SdkValidateRequest(nostr: Nostr, x: Event, now: nat): Option<JobRequest> {
    if now >= U64_LIMIT || x.body.createdAt > MAX_SAFE_INTEGER then None
    else
      match ParseRequest(nostr, x, now)
      case Failure(_) => None
      case Success(request) => if TsMirror.SafeExpiry(request.expiresAt) then Some(request) else None
  }

  datatype Client = Client(
    accepts: string -> bool, trustedHash: FeltHex, verify: (seq<Byte>, FeltHex, ProofStatement) -> Option<bool>,
    publishRetries: nat, proofRetries: nat)

  function EnvOf(nostr: Nostr, sha256: ArtifactStore.Digest, urlAllowed: string -> bool, client: Client): SoulJob.Env {
    SoulJob.Env(
      (x: Event, now: nat) => SdkValidateRequest(nostr, x, now), client.accepts,
      (e: Event, request: JobRequest, now: nat) => SdkValidateResult(nostr, urlAllowed, e, request, now),
      client.trustedHash, sha256, urlAllowed, client.verify, client.publishRetries, client.proofRetries)
  }

  // ---- the honest path ---------------------------------------------------

  /** Everything outside the provider's code goes well: the engine proved the job, the store took the proof, and the
      descriptor's URL is an allowed one. */
  ghost predicate GoesWell(
    poseidon: Merkle.Poseidon, sha256: ArtifactStore.Digest, store: ArtifactStore.Store, services: Services,
    request: JobRequest, artifact: Artifact)
  {
    && request.input.Validate().Success?
    && Pipeline.ProvenStatement(poseidon, request.input, artifact.statement)
    && artifact.metrics.Validate().Success?
    && ArtifactStore.MemoryPut(sha256, store, artifact.proofBytes).0 == ArtifactStore.Stored
    && IsLowerHexOfLength(sha256(artifact.proofBytes), 64)
    && services.put(artifact.proofBytes) == Some(StoredArtifact(sha256(artifact.proofBytes), |artifact.proofBytes|))
    && services.joinUrl(ArtifactPath(sha256, artifact)).Some?
    && services.urlAllowed(services.joinUrl(ArtifactPath(sha256, artifact)).value)
  }

  function ArtifactPath(sha256: ArtifactStore.Digest, artifact: Artifact): string {
    "v1/proofs/" + sha256(artifact.proofBytes) + ".json"
  }

  /** Then processing succeeds, and what it answers with is the specified result, bound to the request, with a
      descriptor that every honest download satisfies. */
  lemma HonestAnswer(
    poseidon: Merkle.Poseidon, sha256: ArtifactStore.Digest, store: ArtifactStore.Store, services: Services,
    nostr: Nostr, x: Event, seen: U64, artifact: Artifact)
    requires WellFormed(x) && ParseRequest(nostr, x, seen).Success?
    requires GoesWell(poseidon, sha256, store, services, ParseRequest(nostr, x, seen).value, artifact)
    ensures
      var request := ParseRequest(nostr, x, seen).value;
      var processed := Process(services, request, true, Proved(artifact));
      && processed.Success? && processed.value.SuccessResult?
      && processed.value.statement == artifact.statement
      && processed.value.statement.output == Pipeline.SpecifiedOutput(poseidon, request.input)
      && processed.value.proof.sha256 == sha256(artifact.proofBytes)
      && processed.value.proof.byteSize == |artifact.proofBytes|
      && processed.value.proof.programHash == artifact.programHash
      && processed.value.proof.url == services.joinUrl(ArtifactPath(sha256, artifact)).value
      && services.urlAllowed(processed.value.proof.url)
      && processed.value.metrics == artifact.metrics
      && TsMirror.StatementParses(artifact.statement)
      && TsMirror.BoundToRequest(artifact.statement, ContentOf(request))
  {
    hide ParseRequest, Pipeline.SpecifiedOutput, FeltText, WellFormed;
    ParsedShape(nostr, x, seen);
    var request := ParseRequest(nostr, x, seen).value;
    TsMirror.StatementChecksAgree(artifact.statement, ContentOf(request));
    hide StatementMatchesRequest, TsMirror.StatementParses, TsMirror.BoundToRequest, ProofStatement.LayoutMatches;
  }

  /** Any signed answer, success or error, received in time, passes the SDK's validator and yields the provider's
      result. */
  lemma AnswerIsAccepted(
    nostr: Nostr, services: Services, x: Event, seen: U64, permit: bool, engine: EngineOutcome, e: Event,
    pubkey: string, at: U64, now: U64)
    requires WellFormed(x) && ParseRequest(nostr, x, seen).Success?
    requires
      var request := ParseRequest(nostr, x, seen).value;
      var result := ResultFor(request, Process(services, request, permit, engine));
      && Utf8Length(CanonicalResult(result)) <= MAX_RESULT_BYTES
      && e.body == ResultBody(request, result, pubkey, at)
      && nostr.Verify(e)
      && request.createdAt <= at <= now + MAX_FUTURE_SKEW_SECS && at <= MAX_SAFE_INTEGER
    ensures
      var request := ParseRequest(nostr, x, seen).value;
      SdkValidateResult(nostr, services.urlAllowed, e, request, now)
        == Some(ResultFor(request, Process(services, request, permit, engine)))
  {
    hide ParseRequest, ParseResult, Process, ResultFor, CanonicalResult, Utf8Length, WellFormed, Nostr.Verify;
    hide TsMirror.StatementParses, TsMirror.BoundToRequest, ParseEmbedded, Deserialize, Serialize;
    var request := ParseRequest(nostr, x, seen).value;
    var result := ResultFor(request, Process(services, request, permit, engine));
    ProviderOutputAcceptedIff(nostr, services, x, seen, permit, engine, e, pubkey, at, now);
    ParsedShape(nostr, x, seen);
    ParsedIsAuthentic(nostr, x, seen);
    AnswerIsBound(services, request, permit, engine);
    OwnCopyIsSame(nostr, x);
    assert e.body.tags[0] == ["request", Serialize(x)];
    assert e.body.tags[0][1] == Serialize(x);
  }

  /** A success passes the SDK's statement checks, because it has passed the provider's. */
  lemma AnswerIsBound(services: Services, request: JobRequest, permit: bool, engine: EngineOutcome)
    requires IsLowerHexOfLength(request.id, 64) && request.service == request.input.Service()
    ensures
      var result := ResultFor(request, Process(services, request, permit, engine));
      result.SuccessResult? ==>
        TsMirror.StatementParses(result.statement) && TsMirror.BoundToRequest(result.statement, ContentOf(request))
  {
    var result := ResultFor(request, Process(services, request, permit, engine));
    ProcessedAnswers(services, request, permit, engine);
    hide Process, ResultFor, FeltText;
    if result.SuccessResult? {
      ValidSuccess(result, services.urlAllowed);
      TsMirror.StatementChecksAgree(result.statement, ContentOf(request));
    }
  }

  lemma ValidSuccess(result: JobResultContent, urlAllowed: string -> bool)
    requires result.SuccessResult? && result.Validate(urlAllowed).Success?
    ensures result.statement.Validate().Success?
  {
  }

  lemma OwnCopyIsSame(nostr: Nostr, x: Event)
    requires WellFormed(x) && nostr.Verify(x)
    ensures ParseEmbedded(nostr, Serialize(x)) == Success(x) && Deserialize(Serialize(x)) == Some(x)
  {
    hide Serialize, EventMembers, EventOfMembers, HasExactlyEventKeys;
    EventRoundTrip(x);
    EventMembersRoundTrip(x);
  }

  /** Every honest server response, however chunked, gives the client the proof. */
  lemma HonestDownload(
    poseidon: Merkle.Poseidon, sha256: ArtifactStore.Digest, store: ArtifactStore.Store, services: Services,
    nostr: Nostr, x: Event, seen: U64, artifact: Artifact, chunks: seq<ProofFetch.Chunk>, response: ProofFetch.Response)
    requires WellFormed(x) && ParseRequest(nostr, x, seen).Success?
    requires GoesWell(poseidon, sha256, store, services, ParseRequest(nostr, x, seen).value, artifact)
    requires
      var request := ParseRequest(nostr, x, seen).value;
      var processed := Process(services, request, true, Proved(artifact));
      && processed.Success? && processed.value.SuccessResult?
      && ProofFetch.Header(services.urlAllowed, processed.value.proof, response)
    requires ProofFetch.Flat(chunks) == artifact.proofBytes && response.body == Some(ProofFetch.Reads(chunks))
    ensures
      var proof := Process(services, ParseRequest(nostr, x, seen).value, true, Proved(artifact)).value.proof;
      ProofFetch.Delivers(sha256, services.urlAllowed, proof, ProofFetch.Answered(response), artifact.proofBytes)
  {
    HonestAnswer(poseidon, sha256, store, services, nostr, x, seen, artifact);
    var proof := Process(services, ParseRequest(nostr, x, seen).value, true, Proved(artifact)).value.proof;
    hide ParseRequest, Process, ProofFetch.Header, ProofFetch.Delivers;
    hide ProofFetch.Reads, ProofFetch.Flat, ProofFetch.Whole;
    ProofFetch.EverySplitDelivers(sha256, services.urlAllowed, proof, store, artifact.proofBytes, chunks, response);
  }

  // ---- the honest path through a waiting job -----------------------------

  /** A started job whose request has been signed and published at the last of `attempts` tries: it waits. */
  function Waiting(request: JobRequest, attempts: nat): SoulJob.State {
    SoulJob.State(
      SoulJob.Snapshot(SoulJob.AwaitingResult, Some(request), None, None, None, attempts, 0),
      SoulJob.AtWait(request, [], Some(0)), 0, {}, true, 1, multiset{})
  }

  function Publishing(x: Event, request: JobRequest): SoulJob.State {
    SoulJob.State(
      SoulJob.Snapshot(SoulJob.Publishing, Some(request), None, None, None, 1, 0),
      SoulJob.AtPublish(x, request, 1), 0, {}, false, 1, multiset{})
  }

  function StartSteps(env: SoulJob.Env, x: Event, seen: nat, refusals: nat): seq<SoulJob.Step> {
    [SoulJob.Start(None), SoulJob.Resume(SoulJob.Signed(x, seen))]
    + (SoulJobRetry.PublishSteps(env.publishRetries, SoulJobRetry.After(refusals), SoulJobRetry.Calm(), 1)
       + [SoulJob.Resume(SoulJob.Go)])
  }

  /** A job that is started, signs a valid request and gets it published, after up to `publishRetries` refusals, waits
      for its result. */
  lemma StartedJobWaits(env: SoulJob.Env, x: Event, seen: nat, refusals: nat)
    requires env.validateRequest(x, seen).Some? && refusals <= env.publishRetries
    ensures SoulJob.RunFrom(env, SoulJob.Initial(), StartSteps(env, x, seen, refusals))
         == Some(Waiting(env.validateRequest(x, seen).value, refusals + 1))
  {
    hide SoulJob.ContinueWait, SoulJob.ContinueResult, SoulJob.ContinueFetch, SoulJob.ContinueVerify;
    var s, request := SoulJob.Initial(), env.validateRequest(x, seen).value;
    var p := Publishing(x, request);
    SoulJob.RunTwo(env, s, SoulJob.Start(None), SoulJob.Resume(SoulJob.Signed(x, seen)), p);
    SoulJobRetry.PublishesAfter(env, p, 1, refusals);
    var q := p.(snapshot := p.snapshot.(publishAttempt := refusals + 1), pc := SoulJob.Published(request));
    SoulJob.RunOne(env, q, SoulJob.Resume(SoulJob.Go));
    assert SoulJob.Next(env, q, SoulJob.Resume(SoulJob.Go)) == Waiting(request, refusals + 1);
    hide SoulJob.RunFrom, SoulJobRetry.PublishSteps;
    var publish :=
      SoulJobRetry.PublishSteps(env.publishRetries, SoulJobRetry.After(refusals), SoulJobRetry.Calm(), 1);
    SoulJob.RunConcat(env, p, publish, [SoulJob.Resume(SoulJob.Go)]);
    SoulJob.RunConcat(
      env, s, [SoulJob.Start(None), SoulJob.Resume(SoulJob.Signed(x, seen))],
      publish + [SoulJob.Resume(SoulJob.Go)]);
  }

  /** The job that has just accepted this result and started its first download. */
  function Downloading(s: SoulJob.State, result: SoulJob.Received): SoulJob.State
    requires s.pc.AtWait?
  {
    s.(snapshot := s.snapshot.(phase := SoulJob.Fetching, result := Some(result), proofAttempt := 1),
       pc := SoulJob.AtFetch(s.pc.request, result, 1), subscribed := false)
  }

  /** The id is outside the bounded seen-window. */
  predicate Unseen(env: SoulJob.Env, s: SoulJob.State, id: string)
    requires s.pc.AtWait?
  {
    id !in Fifo.Window(
      Settlement.Ids(SoulJob.JudgeOf(env, s.pc.request), s.pc.history), Settlement.MAX_DEDUPE_ENTRIES)
  }

  lemma Accepts(env: SoulJob.Env, s: SoulJob.State, e: Event, now: nat)
    requires s.pc.AtWait? && s.subscribed && SoulJob.Active(s)
    requires env.accepts(e.body.pubkey) && Unseen(env, s, e.id)
    requires env.validateResult(e, s.pc.request, now).Some?
    requires
      var content := env.validateResult(e, s.pc.request, now).value;
      content.SuccessResult? && content.proof.programHash == env.trustedHash
    ensures
      var result := SoulJob.Received(e, env.validateResult(e, s.pc.request, now).value);
      SoulJob.RunFrom(
        env, s, [SoulJob.Resume(SoulJob.Hears(Settlement.Delivered(e, now))), SoulJob.Resume(SoulJob.Go)])
      == Some(Downloading(s, result))
  {
    hide Settlement.Ids, Fifo.Window;
    var content := env.validateResult(e, s.pc.request, now).value;
    var result := SoulJob.Received(e, content);
    var signal := Settlement.Delivered(e, now);
    assert Settlement.Settles(SoulJob.JudgeOf(env, s.pc.request), s.pc.history, signal)
      == Some(Settlement.Resolved(content));
    var heard := s.(pc := SoulJob.WaitOver(s.pc.request, Success(result)), subscribed := false);
    assert SoulJob.Continue(env, s, SoulJob.Hears(signal)) == heard;
    assert SoulJob.Continue(env, heard, SoulJob.Go) == Downloading(s, result);
    hide SoulJob.Continue;
    SoulJob.RunTwo(
      env, s, SoulJob.Resume(SoulJob.Hears(signal)), SoulJob.Resume(SoulJob.Go), Downloading(s, result));
  }

  /** The job that has its proof, at the last of `attempts` tries, and has asked the verifier. */
  function Checking(s: SoulJob.State, attempts: nat, proofBytes: seq<Byte>): SoulJob.State
    requires s.pc.AtFetch?
  {
    s.(snapshot := s.snapshot.(phase := SoulJob.Verifying, proofAttempt := attempts),
       pc := SoulJob.AtVerify(s.pc.request, s.pc.result, proofBytes))
  }

  function DownloadSteps(
    env: SoulJob.Env, failures: seq<ProofFetch.FetchError>, exchange: ProofFetch.Exchange, proofBytes: seq<Byte>)
    : seq<SoulJob.Step>
  {
    SoulJobRetry.FetchSteps(
      env.proofRetries, SoulJobRetry.Eventually(failures, exchange, proofBytes), SoulJobRetry.Calm(), 1)
    + [SoulJob.Resume(SoulJob.Go)]
  }

  lemma Downloads(
    env: SoulJob.Env, s: SoulJob.State, failures: seq<ProofFetch.FetchError>, exchange: ProofFetch.Exchange,
    proofBytes: seq<Byte>)
    requires SoulJobRetry.Downloading(env, s, 1)
    requires |failures| <= env.proofRetries && forall i :: 0 <= i < |failures| ==> failures[i].retryable
    requires
      var content := s.pc.result.content;
      && content.SuccessResult? && content.proof.programHash == env.trustedHash
      && content.statement.program == CAIRO_PROGRAM
      && ProofFetch.Delivers(env.sha256, env.safeUrl, content.proof, exchange, proofBytes)
    ensures
      SoulJob.RunFrom(env, s, DownloadSteps(env, failures, exchange, proofBytes))
      == Some(Checking(s, |failures| + 1, proofBytes))
  {
    hide ProofFetch.Delivers, SoulJob.RunFrom, SoulJobRetry.FetchSteps;
    SoulJobRetry.FetchesAfter(env, s, 1, failures, exchange, proofBytes);
    var t := s.(snapshot := s.snapshot.(proofAttempt := |failures| + 1),
                pc := SoulJob.FetchDone(s.pc.request, s.pc.result, proofBytes));
    SoulJob.RunOne(env, t, SoulJob.Resume(SoulJob.Go));
    assert SoulJob.Next(env, t, SoulJob.Resume(SoulJob.Go)) == Checking(s, |failures| + 1, proofBytes);
    SoulJob.RunConcat(
      env, s,
      SoulJobRetry.FetchSteps(
        env.proofRetries, SoulJobRetry.Eventually(failures, exchange, proofBytes), SoulJobRetry.Calm(), 1),
      [SoulJob.Resume(SoulJob.Go)]);
  }

  function Finished(s: SoulJob.State): SoulJob.State
    requires s.pc.AtVerify?
  {
    s.(snapshot := s.snapshot.(
         phase := SoulJob.Verified,
         verified := Some(SoulJob.VerifiedJob(s.pc.request, s.pc.result, s.pc.proofBytes))),
       pc := SoulJob.Finishing)
  }

  lemma Verifies(env: SoulJob.Env, s: SoulJob.State)
    requires s.pc.AtVerify? && SoulJob.Active(s)
    requires s.pc.result.content.SuccessResult?
    requires env.verify(s.pc.proofBytes, env.trustedHash, s.pc.result.content.statement) == Some(true)
    ensures
      SoulJob.RunFrom(env, s, [SoulJob.Resume(SoulJob.VerifierAnswers), SoulJob.Resume(SoulJob.Go)])
      == Some(Finished(s))
  {
    SoulJob.RunTwo(
      env, s, SoulJob.Resume(SoulJob.VerifierAnswers), SoulJob.Resume(SoulJob.Go), Finished(s));
  }

  function HappySteps(
    env: SoulJob.Env, e: Event, now: nat, failures: seq<ProofFetch.FetchError>, exchange: ProofFetch.Exchange,
    proofBytes: seq<Byte>): seq<SoulJob.Step>
  {
    [SoulJob.Resume(SoulJob.Hears(Settlement.Delivered(e, now))), SoulJob.Resume(SoulJob.Go)]
    + (DownloadSteps(env, failures, exchange, proofBytes)
       + [SoulJob.Resume(SoulJob.VerifierAnswers), SoulJob.Resume(SoulJob.Go)])
  }

  /** From an undisturbed waiting job, a validated result, a proof delivered after up to `proofRetries` failures worth a
      retry, and a positive verifier lead to `verified` with exactly these. */
  lemma WaitingJobVerifies(
    env: SoulJob.Env, s: SoulJob.State, e: Event, now: nat, failures: seq<ProofFetch.FetchError>,
    exchange: ProofFetch.Exchange, proofBytes: seq<Byte>)
    requires s.pc.AtWait? && s.subscribed && SoulJob.Active(s)
    requires env.accepts(e.body.pubkey) && Unseen(env, s, e.id)
    requires |failures| <= env.proofRetries && forall i :: 0 <= i < |failures| ==> failures[i].retryable
    requires env.validateResult(e, s.pc.request, now).Some?
    requires
      var content := env.validateResult(e, s.pc.request, now).value;
      && content.SuccessResult? && content.proof.programHash == env.trustedHash
      && content.statement.program == CAIRO_PROGRAM
      && ProofFetch.Delivers(env.sha256, env.safeUrl, content.proof, exchange, proofBytes)
      && env.verify(proofBytes, env.trustedHash, content.statement) == Some(true)
    ensures
      var result := SoulJob.Received(e, env.validateResult(e, s.pc.request, now).value);
      SoulJob.RunFrom(env, s, HappySteps(env, e, now, failures, exchange, proofBytes))
        == Some(Finished(Checking(Downloading(s, result), |failures| + 1, proofBytes)))
  {
    var result := SoulJob.Received(e, env.validateResult(e, s.pc.request, now).value);
    var u := Downloading(s, result);
    var v := Checking(u, |failures| + 1, proofBytes);
    hide SoulJob.RunFrom, ProofFetch.Delivers, Unseen, DownloadSteps;
    Accepts(env, s, e, now);
    Downloads(env, u, failures, exchange, proofBytes);
    Verifies(env, v);
    var download := DownloadSteps(env, failures, exchange, proofBytes);
    var check := [SoulJob.Resume(SoulJob.VerifierAnswers), SoulJob.Resume(SoulJob.Go)];
    SoulJob.RunConcat(env, u, download, check);
    SoulJob.RunConcat(
      env, s, [SoulJob.Resume(SoulJob.Hears(Settlement.Delivered(e, now))), SoulJob.Resume(SoulJob.Go)],
      download + check);
  }

  /** Completeness: when everything outside the two programs goes well, a job that is started, signs and publishes its
      request and hears the provider's answer ends verified, with the specified result and the stored proof, however the
      server chunks the body, and whatever up to `publishRetries` relay refusals and `proofRetries` retryable download
      failures come first. This is a run of the job from its beginning. */
  lemma HonestJobVerifies(
    poseidon: Merkle.Poseidon, sha256: ArtifactStore.Digest, store: ArtifactStore.Store, services: Services,
    nostr: Nostr, client: Client, x: Event, signedAt: U64, seen: U64, artifact: Artifact, e: Event, pubkey: string,
    at: U64, now: U64, refusals: nat, failures: seq<ProofFetch.FetchError>, chunks: seq<ProofFetch.Chunk>,
    response: ProofFetch.Response)
    returns (run: seq<SoulJob.State>)
    requires refusals <= client.publishRetries && |failures| <= client.proofRetries
    requires forall i :: 0 <= i < |failures| ==> failures[i].retryable
    requires WellFormed(x) && ParseRequest(nostr, x, seen).Success?
    requires SdkValidateRequest(nostr, x, signedAt).Some?
    requires GoesWell(poseidon, sha256, store, services, ParseRequest(nostr, x, seen).value, artifact)
    requires
      var request := ParseRequest(nostr, x, seen).value;
      var result := ResultFor(request, Process(services, request, true, Proved(artifact)));
      && Utf8Length(CanonicalResult(result)) <= MAX_RESULT_BYTES
      && e.body == ResultBody(request, result, pubkey, at)
      && nostr.Verify(e)
      && request.createdAt <= at <= now + MAX_FUTURE_SKEW_SECS && at <= MAX_SAFE_INTEGER
      && result.SuccessResult? && ProofFetch.Header(services.urlAllowed, result.proof, response)
    requires ProofFetch.Flat(chunks) == artifact.proofBytes && response.body == Some(ProofFetch.Reads(chunks))
    requires client.accepts(pubkey) && client.trustedHash == artifact.programHash
    requires client.verify(artifact.proofBytes, artifact.programHash, artifact.statement) == Some(true)
    ensures
      var env := EnvOf(nostr, sha256, services.urlAllowed, client);
      var steps := StartSteps(env, x, signedAt, refusals)
        + HappySteps(env, e, now, failures, ProofFetch.Answered(response), artifact.proofBytes);
      && SoulJobSafety.IsRun(env, run, steps)
      && run[|steps|].snapshot.phase.Verified? && run[|steps|].snapshot.verified.Some?
      && run[|steps|].snapshot.publishAttempt == refusals + 1 && run[|steps|].snapshot.proofAttempt == |failures| + 1
      && var v := run[|steps|].snapshot.verified.value;
         && v.request == ParseRequest(nostr, x, seen).value && v.proofBytes == artifact.proofBytes
         && v.result.event == e && v.result.content.SuccessResult?
         && v.request.input.Validate().Success?
         && v.result.content.statement.output == Pipeline.SpecifiedOutput(poseidon, v.request.input)
  {
    hide ParseRequest, ParseResult, Process, CanonicalResult, TsMirror.StatementParses, TsMirror.BoundToRequest;
    hide SdkValidateResult, ProofFetch.Header, ProofFetch.Delivers, ProofFetch.Flat, ProofFetch.Reads;
    hide SoulJob.RunFrom, Pipeline.SpecifiedOutput, SoulJob.JudgeOf, Utf8Length, ResultTags, SdkValidateRequest;
    hide WellFormed, Nostr.Verify;
    var env := EnvOf(nostr, sha256, services.urlAllowed, client);
    var request := ParseRequest(nostr, x, seen).value;
    HonestAnswer(poseidon, sha256, store, services, nostr, x, seen, artifact);
    AnswerIsAccepted(nostr, services, x, seen, true, Proved(artifact), e, pubkey, at, now);
    HonestDownload(poseidon, sha256, store, services, nostr, x, seen, artifact, chunks, response);
    SameRequest(nostr, x, signedAt, seen);
    StartedJobWaits(env, x, signedAt, refusals);
    assert env.validateRequest(x, signedAt) == Some(request);
    assert env.validateResult(e, request, now)
      == Some(ResultFor(request, Process(services, request, true, Proved(artifact))));
    var start := StartSteps(env, x, signedAt, refusals);
    var happy := HappySteps(env, e, now, failures, ProofFetch.Answered(response), artifact.proofBytes);
    hide HappySteps, StartSteps;
    var waiting := Waiting(request, refusals + 1);
    WaitingJobVerifies(env, waiting, e, now, failures, ProofFetch.Answered(response), artifact.proofBytes);
    SoulJob.RunConcat(env, SoulJob.Initial(), start, happy);
    run := SoulJobSafety.Traced(env, SoulJob.Initial(), start + happy);
  }

  /** The request does not depend on when it was looked at. */
  lemma SameRequest(nostr: Nostr, x: Event, s: U64, t: U64)
    requires SdkValidateRequest(nostr, x, s).Some? && ParseRequest(nostr, x, t).Success?
    ensures SdkValidateRequest(nostr, x, s) == Some(ParseRequest(nostr, x, t).value)
  {
    ParsedFromBody(nostr, x, x, s, t);
    ParsedKeepsCopy(nostr, x, s);
    ParsedKeepsCopy(nostr, x, t);
    hide ParseRequest;
  }

  // ---- jobs that fail ----------------------------------------------------

  lemma EveryProcessingErrorIsRetryable(error: ProcessingError)
    ensures
      var code := error.PublicCode();
      code != InvalidRequest && code != UnsupportedService && code != ExpiredCode && code != Duplicate
  {
  }

  lemma FailureIsReported(request: JobRequest, error: ProcessingError)
    ensures
      var result := ResultFor(request, Failure(error));
      result.ErrorResult? && result.error.code == error.PublicCode()
  {
    hide WithoutControls, ProcessingError.PublicMessage, ProcessingError.PublicCode;
  }

  /** The job has failed in this way, may be retried, and has downloaded nothing. */
  ghost predicate FailedFor(env: SoulJob.Env, t: Option<SoulJob.State>, code: SoulJob.FailureCode, attempts: nat) {
    && t.Some? && t.value.snapshot.phase == SoulJob.JobFailed
    && t.value.snapshot.failure == Some(SoulJob.JobFailure(code, true))
    && t.value.snapshot.proofAttempt == 0 && t.value.snapshot.publishAttempt == attempts
    && forall build :: SoulJob.Enabled(env, t.value, SoulJob.Retry(build))
  }

  /** A job started, published after some refusals, and told one thing. */
  function ToldSteps(
    env: SoulJob.Env, x: Event, signedAt: nat, refusals: nat, signal: Settlement.Signal): seq<SoulJob.Step>
  {
    StartSteps(env, x, signedAt, refusals) + [SoulJob.Resume(SoulJob.Hears(signal)), SoulJob.Resume(SoulJob.Go)]
  }

  /** A timely signed event with what the provider publishes when processing fails so. */
  predicate Reports(
    nostr: Nostr, request: JobRequest, error: ProcessingError, e: Event, pubkey: string, at: U64, now: U64)
  {
    && e.body == ResultBody(request, ResultFor(request, Failure(error)), pubkey, at) && nostr.Verify(e)
    && request.createdAt <= at <= now + MAX_FUTURE_SKEW_SECS && at <= MAX_SAFE_INTEGER
  }

  /** Whatever goes wrong in the provider's processing, the waiting client learns it: a run of the job from its
      beginning that hears the provider's signed answer in time ends failed, with the public code of that very error,
      may be retried, and has downloaded nothing. */
  lemma FailedProcessingEndsJob(
    nostr: Nostr, sha256: ArtifactStore.Digest, services: Services, client: Client, x: Event, signedAt: U64, seen: U64,
    permit: bool, engine: EngineOutcome, error: ProcessingError, e: Event, pubkey: string, at: U64, now: U64,
    refusals: nat)
    requires refusals <= client.publishRetries && client.accepts(pubkey)
    requires WellFormed(x) && ParseRequest(nostr, x, seen).Success?
    requires SdkValidateRequest(nostr, x, signedAt).Some?
    requires Process(services, ParseRequest(nostr, x, seen).value, permit, engine) == Failure(error)
    requires Reports(nostr, ParseRequest(nostr, x, seen).value, error, e, pubkey, at, now)
    ensures
      var env := EnvOf(nostr, sha256, services.urlAllowed, client);
      FailedFor(
        env,
        SoulJob.RunFrom(env, SoulJob.Initial(), ToldSteps(env, x, signedAt, refusals, Settlement.Delivered(e, now))),
        SoulJob.FromProvider(error.PublicCode()), refusals + 1)
  {
    hide ParseRequest, Process, CanonicalResult, SdkValidateResult, SdkValidateRequest, Utf8Length, ResultTags;
    hide WellFormed, Nostr.Verify, SoulJob.RunFrom, ProcessingError.PublicCode, FailedFor, ToldSteps, StartSteps;
    var env := EnvOf(nostr, sha256, services.urlAllowed, client);
    var request := ParseRequest(nostr, x, seen).value;
    FailureIsReported(request, error);
    ErrorAnswerFits(nostr, x, seen, error);
    hide ResultFor;
    AnswerIsAccepted(nostr, services, x, seen, permit, engine, e, pubkey, at, now);
    SameRequest(nostr, x, signedAt, seen);
    hide ResultBody;
    assert env.validateRequest(x, signedAt) == Some(request);
    assert env.validateResult(e, request, now) == Some(ResultFor(request, Failure(error)));
    EveryProcessingErrorIsRetryable(error);
    ErrorEndsWaiting(env, request, refusals + 1, e, now);
    ToldAfterStart(env, x, signedAt, refusals, Settlement.Delivered(e, now));
  }

  /** What a job is told after its start is told to a waiting job. */
  lemma ToldAfterStart(env: SoulJob.Env, x: Event, signedAt: nat, refusals: nat, signal: Settlement.Signal)
    requires env.validateRequest(x, signedAt).Some? && refusals <= env.publishRetries
    ensures SoulJob.RunFrom(env, SoulJob.Initial(), ToldSteps(env, x, signedAt, refusals, signal))
         == SoulJob.RunFrom(
              env, Waiting(env.validateRequest(x, signedAt).value, refusals + 1),
              [SoulJob.Resume(SoulJob.Hears(signal)), SoulJob.Resume(SoulJob.Go)])
  {
    hide SoulJob.RunFrom, StartSteps;
    StartedJobWaits(env, x, signedAt, refusals);
    SoulJob.RunConcat(
      env, SoulJob.Initial(), StartSteps(env, x, signedAt, refusals),
      [SoulJob.Resume(SoulJob.Hears(signal)), SoulJob.Resume(SoulJob.Go)]);
  }

  lemma ErrorAnswerFits(nostr: Nostr, x: Event, seen: U64, error: ProcessingError)
    requires WellFormed(x) && ParseRequest(nostr, x, seen).Success?
    ensures
      Utf8Length(CanonicalResult(ResultFor(ParseRequest(nostr, x, seen).value, Failure(error)))) <= MAX_RESULT_BYTES
  {
    hide ParseRequest, CanonicalResult, Utf8Length, WellFormed, WithoutControls, ProcessingError.PublicMessage;
    ParsedShape(nostr, x, seen);
    var request := ParseRequest(nostr, x, seen).value;
    ErrorResultFits(request.id, JobError.New(error.PublicCode(), error.PublicMessage()));
  }

  /** A valid error result that is worth a retry ends a job that waits for its first delivery. */
  lemma ErrorEndsWaiting(env: SoulJob.Env, request: JobRequest, attempts: nat, e: Event, now: nat)
    requires env.accepts(e.body.pubkey)
    requires env.validateResult(e, request, now).Some? && env.validateResult(e, request, now).value.ErrorResult?
    requires
      var code := env.validateResult(e, request, now).value.error.code;
      code != InvalidRequest && code != UnsupportedService && code != ExpiredCode && code != Duplicate
    ensures FailedFor(
      env,
      SoulJob.RunFrom(
        env, Waiting(request, attempts),
        [SoulJob.Resume(SoulJob.Hears(Settlement.Delivered(e, now))), SoulJob.Resume(SoulJob.Go)]),
      SoulJob.FromProvider(env.validateResult(e, request, now).value.error.code), attempts)
  {
    hide SoulJob.RunFrom;
    SoulJobRetry.ProviderErrorEndsJob(env, Waiting(request, attempts), e, now);
  }

  /** And when no answer comes in time, the job ends failed and may be retried. */
  lemma SilenceEndsJob(env: SoulJob.Env, x: Event, signedAt: nat, refusals: nat)
    requires env.validateRequest(x, signedAt).Some? && refusals <= env.publishRetries
    ensures FailedFor(
      env, SoulJob.RunFrom(env, SoulJob.Initial(), ToldSteps(env, x, signedAt, refusals, Settlement.TimedOut)),
      SoulJob.NoResult, refusals + 1)
  {
    hide SoulJob.RunFrom, ToldSteps;
    ToldAfterStart(env, x, signedAt, refusals, Settlement.TimedOut);
    SoulJobRetry.TimeoutEndsJob(env, Waiting(env.validateRequest(x, signedAt).value, refusals + 1));
  }

  // ---- what `verified` means ---------------------------------------------

  /** The verifier says yes only to statements the Cairo program makes on some valid private input. */
  ghost predicate SoundVerifier(
    poseidon: Merkle.Poseidon, verify: (seq<Byte>, FeltHex, ProofStatement) -> Option<bool>, programHash: FeltHex)
  {
    forall proofBytes, st :: verify(proofBytes, programHash, st) == Some(true) ==> Provable(poseidon, st)
  }

  ghost predicate Provable(poseidon: Merkle.Poseidon, st: ProofStatement) {
    exists input: JobInput :: input.Validate().Success? && Pipeline.ProvenStatement(poseidon, input, st)
  }

  /** The claim of a request that its public data determine. */
  ghost predicate TrueFor(poseidon: Merkle.Poseidon, input: JobInput, output: JobOutput) {
    match input
    case FibonacciInput(n) =>
      output.FibonacciOutput? && FeltValue(output.result) == Fibonacci.Fib(n)
    case HashVerifyInput(hash, _) =>
      output.HashVerifyOutput?
      && (output.valid ==> exists preimage: Felt :: poseidon([preimage]) == FeltValue(hash))
    case MerkleProofInput(root, leaf, _, index) =>
      output.MerkleProofOutput?
      && (output.valid ==> exists path: seq<Felt> ::
            Merkle.FoldPath(poseidon, FeltValue(leaf), path, index) == FeltValue(root)
            && |path| <= MAX_MERKLE_DEPTH && index < Pow2(|path|))
  }

  /** A provable statement that matches a request tells the truth about it: the exact Fibonacci number; a preimage that
      exists; a leaf that opens the root at its index. */
  lemma ProvableMatchIsTrue(poseidon: Merkle.Poseidon, input: JobInput, st: ProofStatement)
    requires input.Validate().Success? && Provable(poseidon, st) && StatementMatchesRequest(st, input)
    ensures TrueFor(poseidon, input, st.output)
  {
    hide FeltText, FeltValue;
    var other: JobInput :| other.Validate().Success? && Pipeline.ProvenStatement(poseidon, other, st);
    match input {
      case FibonacciInput(n) =>
        Fibonacci.BoundIsTight(n);
        FeltTextInjective(n, other.n);
        ValueThenText(Fibonacci.Fib(n));
      case HashVerifyInput(hash, _) =>
        Pipeline.SameTextSameValue(poseidon([FeltValue(other.preimage)]), hash);
      case MerkleProofInput(root, leaf, _, index) =>
        MerkleMatchIsTrue(poseidon, input, other, st);
    }
  }

  lemma MerkleMatchIsTrue(poseidon: Merkle.Poseidon, input: JobInput, other: JobInput, st: ProofStatement)
    requires input.MerkleProofInput? && other.MerkleProofInput?
    requires input.Validate().Success? && other.Validate().Success?
    requires Pipeline.ProvenStatement(poseidon, other, st) && StatementMatchesRequest(st, input)
    ensures TrueFor(poseidon, input, st.output)
  {
    hide FeltText, FeltValue;
    FeltTextInjective(input.index, other.index);
    var path := Statement.Values(other.proof);
    Pipeline.SameTextSameValue(Merkle.FoldPath(poseidon, FeltValue(other.leaf), path, other.index), other.root);
  }

  /** Whatever a run of a job does, if the job is shown as verified then its request was an authentic one in its window,
      its result came from an allowlisted provider and was accepted for that request, its proof is the described one,
      and, if the verifier is sound, the result is true. */
  lemma VerifiedMeansTrue(
    nostr: Nostr, poseidon: Merkle.Poseidon, sha256: ArtifactStore.Digest, urlAllowed: string -> bool, client: Client,
    run: seq<SoulJob.State>, steps: seq<SoulJob.Step>, k: nat)
    requires SoulJobSafety.IsRun(EnvOf(nostr, sha256, urlAllowed, client), run, steps) && k <= |steps|
    requires run[k].snapshot.phase.Verified?
    requires SoundVerifier(poseidon, client.verify, client.trustedHash)
    ensures run[k].snapshot.verified.Some?
    ensures
      var v := run[k].snapshot.verified.value;
      && (exists x: Event, seen: U64 :: ParseRequest(nostr, x, seen) == Success(v.request))
      && client.accepts(v.result.event.body.pubkey)
      && (exists now: U64 ::
            ParseResult(nostr, urlAllowed, v.result.event, v.request, now) == Success(v.result.content))
      && v.result.content.SuccessResult?
      && sha256(v.proofBytes) == v.result.content.proof.sha256
      && TrueFor(poseidon, v.request.input, v.result.content.statement.output)
  {
    var env := EnvOf(nostr, sha256, urlAllowed, client);
    hide ParseRequest, ParseResult, TsMirror.StatementParses, TsMirror.BoundToRequest, TrueFor, Provable;
    SoulJobSafety.VerifiedOnlyWithEvidence(env, run, steps, k);
    var v := run[k].snapshot.verified.value;
    var x: Event, seen: nat :| env.validateRequest(x, seen) == Some(v.request);
    assert ParseRequest(nostr, x, seen) == Success(v.request);
    var now: nat :| env.validateResult(v.result.event, v.request, now) == Some(v.result.content);
    assert ParseResult(nostr, urlAllowed, v.result.event, v.request, now) == Success(v.result.content);
    var st := v.result.content.statement;
    assert Provable(poseidon, st);
    ParsedInputIsValid(nostr, x, seen);
    TsMirror.StatementChecksAgree(st, ContentOf(v.request));
    ProvableMatchIsTrue(poseidon, v.request.input, st);
  }

  lemma ParsedInputIsValid(nostr: Nostr, x: Event, seen: U64)
    requires ParseRequest(nostr, x, seen).Success?
    ensures
      var request := ParseRequest(nostr, x, seen).value;
      request.service == request.input.Service() && request.input.Validate().Success?
  {
    hide Canonical, ReadContent, BaseTags, BidTags, ReadBid, Serialize;
  }
}
