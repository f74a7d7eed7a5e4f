/** Concrete inputs: five at which a property one might expect of the code fails, and one whole honest run. Hashing is
    constant and every signature is good; nothing else of the model is special. */
module Witness {
  import opened Wrappers
  import opened Hex
  import opened Felt
  import opened Types
  import opened Json
  import opened Codec
  import opened ResultCodec
  import opened Events
  import opened Wire
  import opened Binding
  import opened Provider
  import EndToEnd
  import Handler
  import Merkle
  import Pipeline
  import ProofFetch
  import Settlement
  import SoulJob
  import SoulJobSafety
  import TsMirror

  function Repeat(c: char, n: nat): (s: string)
    ensures |s| == n && forall i :: 0 <= i < n ==> s[i] == c
  {
    seq(n, i => c)
  }

  function Zeros(): string {
    Repeat('0', 64)
  }

  function World(): Nostr {
    Nostr((body: Unsigned) => Zeros(), (pubkey: string, id: string, sig: string) => true)
  }

  function Offline(): Services {
    Services((proof: seq<int>) => None, (path: string) => None, (url: string) => false)
  }

  const CONTENT := JobRequestContent(SOUL_WIRE_PROTOCOL, Fibonacci, FibonacciInput(0), None)

  /** A request for F(0), dated `createdAt`, with one of many signatures. */
  function Request(createdAt: U64, mark: char): Event {
    Event(
      Zeros(),
      Unsigned(
        Zeros(), createdAt, Fibonacci.RequestKind(), BaseTags(CONTENT) + BidTags(None), Canonical(CONTENT)),
      Repeat(mark, 128))
  }

  lemma RequestIsAccepted(createdAt: U64, mark: char, now: U64)
    requires IsHexDigit(mark) && InWindow(createdAt, now)
    ensures WellFormed(Request(createdAt, mark)) && World().Verify(Request(createdAt, mark))
    ensures ParseRequest(World(), Request(createdAt, mark), now)
         == Success(RequestOf(Request(createdAt, mark), CONTENT, None))
  {
    hide Canonical, Serialize, ParseRequest, Zeros;
    assert IsLowerHexOfLength(Zeros(), 64) by { ZerosAreHex(); }
    EncodingIsAccepted(World(), Request(createdAt, mark), now, CONTENT, None);
  }

  lemma ZerosAreHex()
    ensures IsLowerHexOfLength(Zeros(), 64)
  {
  }

  /** The provider's answer when proving fails, signed at `at`. */
  function Failed(request: JobRequest): JobResultContent {
    ResultFor(request, Process(Offline(), request, true, EngineFailed))
  }

  function Answer(request: JobRequest, at: U64): Event {
    Event(Zeros(), ResultBody(request, Failed(request), Zeros(), at), Repeat('0', 128))
  }

  lemma AnswerIsWhole(request: JobRequest, at: U64)
    requires |request.id| == 64
    ensures World().Verify(Answer(request, at))
    ensures Utf8Length(CanonicalResult(Failed(request))) <= MAX_RESULT_BYTES
    ensures Failed(request).ErrorResult?
  {
    hide CanonicalResult, Utf8Length, ResultTags;
    ErrorResultFits(request.id, Failed(request).error);
  }

  /** Two signatures of one request: one result answers both, and the requests differ. */
  lemma OneResultTwoSignedRequests(now: U64)
    requires now >= 100
    ensures
      var x, y := Request(100, '0'), Request(100, '1');
      && ParseRequest(World(), x, 100).Success? && ParseRequest(World(), y, 100).Success?
      && var rx, ry := ParseRequest(World(), x, 100).value, ParseRequest(World(), y, 100).value;
         && rx != ry
         && ParseResult(World(), Offline().urlAllowed, Answer(rx, 100), rx, now).Success?
         && ParseResult(World(), Offline().urlAllowed, Answer(rx, 100), ry, now).Success?
         && !World().IdCollision(x.body, y.body)
  {
    var x, y := Request(100, '0'), Request(100, '1');
    RequestIsAccepted(100, '0', 100);
    RequestIsAccepted(100, '1', 100);
    assert x.sig[0] != y.sig[0];
    ParsedKeepsCopy(World(), x, 100);
    ParsedKeepsCopy(World(), y, 100);
    SerializedInjective(x, y);
    hide ParseRequest, ParseResult, Request, World, Serialize, Answer, Failed, Zeros, CanonicalResult, WellFormed;
    var rx := ParseRequest(World(), x, 100).value;
    AcceptsOwnAnswer(x, 100, 100, now);
    SameBody(100);
    AcceptanceIgnoresSignature(World(), Offline().urlAllowed, Answer(rx, 100), x, y, 100, 100, now);
  }

  lemma SameBody(createdAt: U64)
    ensures Request(createdAt, '0').body == Request(createdAt, '1').body
    ensures Request(createdAt, '0').id == Request(createdAt, '1').id
  {
  }

  lemma AcceptsOwnAnswer(x: Event, seen: U64, at: U64, now: U64)
    requires WellFormed(x) && ParseRequest(World(), x, seen).Success?
    ensures
      var request := ParseRequest(World(), x, seen).value;
      ParseResult(World(), Offline().urlAllowed, Answer(request, at), request, now).Success? <==>
        request.createdAt <= at <= now + MAX_FUTURE_SKEW_SECS
  {
    var request := ParseRequest(World(), x, seen).value;
    ParsedShape(World(), x, seen);
    AnswerIsWhole(request, at);
    hide ParseRequest, ParseResult, Process, ResultFor, CanonicalResult, Utf8Length, World, Zeros;
    ProviderOutputAcceptedIff(
      World(), Offline(), x, seen, true, EngineFailed, Answer(request, at), Zeros(), at, now);
  }

  /** A request dated just beyond the safe integers: the provider accepts it, the SDK does not. */
  lemma BeyondSafeIntegers(round: nat -> nat)
    requires TsMirror.RoundsLikeDouble(round)
    ensures
      var x, now := Request(MAX_SAFE_INTEGER + 1, '0'), MAX_SAFE_INTEGER + 1;
      ParseRequest(World(), x, now).Success? && !TsMirror.SdkAccepts(World(), round, x, now)
  {
    hide TsMirror.SdkAccepts, ParseRequest;
    RequestIsAccepted(MAX_SAFE_INTEGER + 1, '0', MAX_SAFE_INTEGER + 1);
    TsMirror.RequestChecksAgree(World(), round, Request(MAX_SAFE_INTEGER + 1, '0'), MAX_SAFE_INTEGER + 1);
  }

  /** A request dated 100 seconds ahead: the provider at time 0 accepts it, answers at once, and is refused at any
      time. */
  lemma PromptAnswerIsRefused(now: U64)
    ensures
      var x := Request(100, '0');
      && ParseRequest(World(), x, 0).Success?
      && var request := ParseRequest(World(), x, 0).value;
         ParseResult(World(), Offline().urlAllowed, Answer(request, 0), request, now) == Failure(InvalidTimestamp)
  {
    var x := Request(100, '0');
    RequestIsAccepted(100, '0', 0);
    var request := ParseRequest(World(), x, 0).value;
    ParsedShape(World(), x, 0);
    AnswerIsWhole(request, 0);
    hide ParseRequest, ParseResult, Process, ResultFor, CanonicalResult, Utf8Length, World, Zeros;
    PromptAnswerToFutureRequestIsRefused(
      World(), Offline(), x, 0, EngineFailed, Answer(request, 0), Zeros(), now);
  }

  /** The judge of a job that waits for this request and trusts every provider. */
  function WaitingJudge(request: JobRequest): Settlement.Judge {
    Settlement.Judge(
      (pubkey: string) => true,
      (e: Event, now: nat) => EndToEnd.SdkValidateResult(World(), Offline().urlAllowed, e, request, now))
  }

  /** An answer signed at 1000 that reaches the client at 100, by its clock, and again at 1000: it is valid then, and it
      settles nothing. */
  lemma EarlyResultIsLost()
    ensures
      var x := Request(100, '0');
      && ParseRequest(World(), x, 100).Success?
      && var request := ParseRequest(World(), x, 100).value;
         var judge, e := WaitingJudge(request), Answer(request, 1000);
         var early, late := Settlement.Delivered(e, 100), Settlement.Delivered(e, 1000);
         && Settlement.Settles(judge, [], early) == None
         && judge.validate(e, 1000).Some?
         && Settlement.Settles(judge, [early], late) == None
  {
    var x := Request(100, '0');
    RequestIsAccepted(100, '0', 100);
    var request := ParseRequest(World(), x, 100).value;
    ParsedShape(World(), x, 100);
    AnswerIsWhole(request, 1000);
    AcceptsOwnAnswer(x, 100, 1000, 100);
    var judge, e := WaitingJudge(request), Answer(request, 1000);
    var early, late := Settlement.Delivered(e, 100), Settlement.Delivered(e, 1000);
    hide ParseRequest, ParseResult, Process, ResultFor, CanonicalResult, Utf8Length, World, Zeros;
    EndToEnd.AnswerIsAccepted(
      World(), Offline(), x, 100, true, EngineFailed, e, Zeros(), 1000, 1000);
    hide Answer, Failed;
    assert Settlement.Ids(judge, []) == [];
    assert [early][..0] == [];
    assert Settlement.Considered(judge, [early][..0], early);
    assert |Settlement.Ids(judge, [early])| <= 1;
    Settlement.RedeliveryIsIgnored(judge, [early], 0, late);
  }

  /** What the handler made for one signed copy of a request and replays for the other: the SDK never accepts it. */
  lemma ReplayToOtherSignatureIsRefused(now: U64)
    ensures
      var x, y := Request(100, '1'), Request(100, '0');
      && ParseRequest(World(), x, 100).Success? && ParseRequest(World(), y, 100).Success?
      && var rx, e := ParseRequest(World(), x, 100).value, Answer(ParseRequest(World(), y, 100).value, 100);
         && Handler.MadeForId(World(), Offline(), Zeros(), x.id, e)
         && EndToEnd.SdkValidateResult(World(), Offline().urlAllowed, e, rx, now) == None
         && (now >= 100 ==> ParseResult(World(), Offline().urlAllowed, e, rx, now).Success?)
  {
    var x, y := Request(100, '1'), Request(100, '0');
    RequestIsAccepted(100, '1', 100);
    RequestIsAccepted(100, '0', 100);
    assert x.sig[0] != y.sig[0];
    assert x.body == y.body && x.id == y.id;
    var ry := ParseRequest(World(), y, 100).value;
    var e := Answer(ry, 100);
    ParsedShape(World(), y, 100);
    AnswerIsWhole(ry, 100);
    hide ParseRequest, ParseResult, Process, ResultFor, CanonicalResult, Utf8Length, Request, World, Zeros, WellFormed;
    hide EndToEnd.SdkValidateResult;
    assert Handler.MadeFor(World(), Offline(), Zeros(), y, 100, true, EngineFailed, 100, e);
    Handler.ReplayIsAcceptedBySdkIff(
      World(), Offline(), Zeros(), x, 100, y, 100, true, EngineFailed, 100, e, now);
    AcceptsOwnAnswer(y, 100, 100, now);
    AcceptanceIgnoresSignature(World(), Offline().urlAllowed, e, x, y, 100, 100, now);
  }

  // ---- an honest run -----------------------------------------------------

  function Digest(proof: seq<Bytes.Byte>): string {
    Zeros()
  }

  function Storing(): Services {
    Services(
      (proof: seq<Bytes.Byte>) =>
        if |proof| < U64_LIMIT then Some(StoredArtifact(Digest(proof), |proof|)) else None,
      (path: string) => Some("u"), (url: string) => true)
  }

  ghost function Proof(poseidon: Merkle.Poseidon): Artifact
    requires Pipeline.FeltAnswer(poseidon, FibonacciInput(0))
  {
    Artifact([0], Pipeline.StatementOf(poseidon, FibonacciInput(0)), FeltText(0), JobMetrics(0, 0, 0))
  }

  function Believer(): EndToEnd.Client {
    EndToEnd.Client(
      (pubkey: string) => true, FeltText(0),
      (proofBytes: seq<Bytes.Byte>, programHash: FeltHex, st: ProofStatement) => Some(true), 0, 0)
  }

  function Served(): ProofFetch.Response {
    ProofFetch.Response(
      200, "", Some(PROOF_MEDIA_TYPE), Some(ProofFetch.Integer(1)), Some(ProofFetch.Reads([[0]])), ProofFetch.Closes)
  }

  lemma RequestHere()
    ensures WellFormed(Request(100, '0')) && ParseRequest(World(), Request(100, '0'), 100).Success?
    ensures
      var request := ParseRequest(World(), Request(100, '0'), 100).value;
      && request == RequestOf(Request(100, '0'), CONTENT, None) && request.input == FibonacciInput(0)
      && EndToEnd.SdkValidateRequest(World(), Request(100, '0'), 100).Some?
  {
    RequestIsAccepted(100, '0', 100);
    hide ParseRequest, Canonical, Serialize, WellFormed;
  }

  lemma ProvesWell(poseidon: Merkle.Poseidon, request: JobRequest)
    requires request.input == FibonacciInput(0)
    ensures Pipeline.FeltAnswer(poseidon, FibonacciInput(0))
    ensures EndToEnd.GoesWell(poseidon, Digest, map[], Storing(), request, Proof(poseidon))
  {
    Pipeline.AnswerIsFelt(poseidon, FibonacciInput(0));
    Pipeline.StatementIsProven(poseidon, FibonacciInput(0));
    ZerosAreHex();
    hide FeltText, Pipeline.StatementOf, Pipeline.SpecifiedOutput, Pipeline.ProvenStatement, IsLowerHexOfLength;
  }

  lemma UrlHere(request: JobRequest, artifact: Artifact)
    ensures
      var processed := Process(Storing(), request, true, Proved(artifact));
      processed.Success? && processed.value.SuccessResult? ==> processed.value.proof.url == "u"
  {
    hide JobResultContent.Validate, ProofDescriptor.Validate, StatementMatchesRequest, Zeros;
  }

  lemma AnswerFits(request: JobRequest, artifact: Artifact)
    requires IsLowerHexOfLength(request.id, 64) && request.service == request.input.Service()
    requires
      var processed := Process(Storing(), request, true, Proved(artifact));
      processed.Success? && processed.value.SuccessResult?
    ensures
      var result := ResultFor(request, Process(Storing(), request, true, Proved(artifact)));
      Utf8Length(CanonicalResult(result)) <= MAX_RESULT_BYTES
  {
    hide Process, CanonicalResult, JobResultContent.Validate, Utf8Length, Print, StatementMatchesRequest;
    hide IsLowerHexOfLength;
    ProcessedAnswers(Storing(), request, true, Proved(artifact));
    UrlHere(request, artifact);
    UrlIsShort();
    SuccessResultFits(Process(Storing(), request, true, Proved(artifact)).value, Storing().urlAllowed);
  }

  /** All the hypotheses of the honest run can be met: this job is verified. */
  lemma HonestJobExists(poseidon: Merkle.Poseidon)
    ensures
      var env := EndToEnd.EnvOf(World(), Digest, Storing().urlAllowed, Believer());
      exists run: seq<SoulJob.State>, steps: seq<SoulJob.Step> ::
        SoulJobSafety.IsRun(env, run, steps) && run[|steps|].snapshot.phase.Verified?
  {
    hide ParseRequest, Canonical, Serialize, WellFormed, Process, ResultTags, CanonicalResult, Utf8Length;
    hide EndToEnd.SdkValidateRequest, EndToEnd.GoesWell, TsMirror.StatementParses, TsMirror.BoundToRequest;
    hide FeltText, Pipeline.StatementOf, Pipeline.SpecifiedOutput, EndToEnd.StartSteps, EndToEnd.HappySteps;
    hide SoulJobSafety.IsRun, IsLowerHexOfLength, ProofFetch.Whole, ProofFetch.Header, Nostr.Verify;
    var x := Request(100, '0');
    RequestHere();
    var request := ParseRequest(World(), x, 100).value;
    ProvesWell(poseidon, request);
    var artifact := Proof(poseidon);
    EndToEnd.HonestAnswer(poseidon, Digest, map[], Storing(), World(), x, 100, artifact);
    ParsedShape(World(), x, 100);
    AnswerFits(request, artifact);
    var result := ResultFor(request, Process(Storing(), request, true, Proved(artifact)));
    var e := Event(Zeros(), ResultBody(request, result, Zeros(), 100), Repeat('0', 128));
    hide ResultBody, ResultFor;
    AllSignaturesGood(e);
    ServedWhole(result.proof);
    var run := EndToEnd.HonestJobVerifies(
      poseidon, Digest, map[], Storing(), World(), Believer(), x, 100, 100, artifact, e, Zeros(), 100, 100, 0, [],
      [[0]], Served());
  }

  lemma AllSignaturesGood(e: Event)
    requires e.id == Zeros()
    ensures World().Verify(e)
  {
  }

  lemma ServedWhole(d: ProofDescriptor)
    requires d.byteSize == 1
    ensures ProofFetch.Flat([[0]]) == [0]
    ensures ProofFetch.Header(Storing().urlAllowed, d, Served())
  {
    assert [[0]][..0] == [];
  }

  lemma UrlIsShort()
    ensures |Print(Str("u"))| <= 2000
  {
    TextLength("u");
  }
}
