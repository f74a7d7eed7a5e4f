/** The job lifecycle of the SDK, packages/soul-sdk/src/client.ts:127-280 and 397-441, as steps between awaits. Public
    calls, relay deliveries, timers and the answers of signer, relays, server and verifier interleave freely. */
module SoulJob {
  import opened Wrappers
  import opened Felt
  import opened Bytes
  import opened Types
  import opened Events
  import opened ProofFetch
  import opened Settlement

  datatype Phase = Draft | Publishing | AwaitingResult | ResultReceived | Fetching | Verifying | Verified | JobFailed

  datatype FailureCode =
    | CancelledLocally
    | ValidationFailed
    | PublishFailed
    | NoResult
    | UntrustedProgram
    | DownloadFailed(error: FetchError)
    | VerificationFailed
    | FromProvider(code: ErrorCode)
    | FromSigner(message: string)

  datatype JobFailure = JobFailure(code: FailureCode, retryable: bool)

  datatype Received = Received(event: Event, content: JobResultContent)

  datatype VerifiedJob = VerifiedJob(request: JobRequest, result: Received, proofBytes: seq<Byte>)

  datatype Snapshot = Snapshot(
    phase: Phase, request: Option<JobRequest>, result: Option<Received>, verified: Option<VerifiedJob>,
    failure: Option<JobFailure>, publishAttempt: nat, proofAttempt: nat)

  datatype Env = Env(
    validateRequest: (Event, nat) -> Option<JobRequest>, accepts: string -> bool,
    validateResult: (Event, JobRequest, nat) -> Option<JobResultContent>, trustedHash: FeltHex,
    sha256: ArtifactStore.Digest, safeUrl: string -> bool, verify: (seq<Byte>, FeltHex, ProofStatement) -> Option<bool>,
    publishRetries: nat, proofRetries: nat)

  /** Where the asynchronous body of `run` is suspended. */
  datatype Pc =
    | Idle
    | AtSign
    | AtPublish(event: Event, request: JobRequest, attempt: nat)
    | AtPublishDelay(event: Event, request: JobRequest, attempt: nat, armed: Option<nat>)
    | Published(request: JobRequest)
    | AtWait(request: JobRequest, history: seq<Signal>, armed: Option<nat>)
    | WaitOver(request: JobRequest, outcome: Result<Received, JobFailure>)
    | AtFetch(request: JobRequest, result: Received, attempt: nat)
    | AtFetchDelay(request: JobRequest, result: Received, attempt: nat, armed: Option<nat>)
    | FetchDone(request: JobRequest, result: Received, proofBytes: seq<Byte>)
    | AtVerify(request: JobRequest, result: Received, proofBytes: seq<Byte>)
    | VerifyDone(request: JobRequest, result: Received, proofBytes: seq<Byte>)
    | Throwing(failure: JobFailure)
    | Finishing

  /** `controller` names the current abort controller; `runs` counts runs; `pending` holds, for each suspended `retry()`
      call, the run it awaits. */
  datatype State = State(
    snapshot: Snapshot, pc: Pc, controller: nat, aborted: set<nat>, subscribed: bool, runs: nat,
    pending: multiset<nat>)

  datatype Input =
    | Go
    | Signed(event: Event, now: nat)
    | SignFails(failure: JobFailure)
    | Acknowledged
    | Refused
    | DelayOver
    | Hears(signal: Signal)
    | FetchOk(exchange: Exchange, proofBytes: seq<Byte>)
    | FetchFails(error: FetchError)
    | VerifierAnswers

  datatype Step =
    | Start(build: Option<JobFailure>)
    | Cancel
    | Retry(build: Option<JobFailure>)
    | RetryResume(id: nat, build: Option<JobFailure>)
    | Resume(input: Input)

  const CANCELLED := JobFailure(CancelledLocally, false)
  const UNTRUSTED := JobFailure(UntrustedProgram, false)

  function Initial(): State {
    State(Snapshot(Draft, None, None, None, None, 0, 0), Idle, 0, {}, false, 0, multiset{})
  }

  predicate Active(s: State) {
    s.controller !in s.aborted
  }

  function Fail(s: State, error: JobFailure): State {
    s.(snapshot := s.snapshot.(phase := JobFailed, failure := Some(error)))
  }

  /** The catch block of `run`, then the pending `finally`. */
  function Catch(s: State, error: JobFailure): State {
    (if s.snapshot.phase != JobFailed then Fail(s, error) else s).(pc := Finishing)
  }

  /** The synchronous beginning of `run`, up to the signer. */
  function BeginRun(s: State, build: Option<JobFailure>): State {
    var t := s.(runs := s.runs + 1);
    match build
    case Some(error) => Catch(t, error)
    case None => t.(snapshot := t.snapshot.(phase := Publishing), pc := AtSign)
  }

  function StartJob(s: State, build: Option<JobFailure>): State {
    if !s.pc.Idle? || s.snapshot.phase != Draft then s else BeginRun(s, build)
  }

  /** The rest of `retry` after its await. */
  function Restart(s: State, build: Option<JobFailure>): State {
    StartJob(s.(controller := s.controller + 1, snapshot := Snapshot(Draft, None, None, None, None, 0, 0)), build)
  }

  function CancelJob(s: State): State {
    if s.snapshot.phase in {Verified, JobFailed} then s
    else
      var t := Fail(s.(aborted := s.aborted + {s.controller}, subscribed := false), CANCELLED);
      match s.pc
      case AtWait(request, _, armed) =>
        if armed == Some(s.controller) then t.(pc := WaitOver(request, Failure(CANCELLED))) else t
      case AtPublishDelay(_, _, _, armed) => if armed == Some(s.controller) then t.(pc := Throwing(CANCELLED)) else t
      case AtFetchDelay(_, _, _, armed) => if armed == Some(s.controller) then t.(pc := Throwing(CANCELLED)) else t
      case _ => t
  }

  /** An abort listener fires only on a signal that was not aborted when it was added. */
  function Armed(s: State): Option<nat> {
    if Active(s) then Some(s.controller) else None
  }

  function JudgeOf(env: Env, request: JobRequest): Judge {
    Judge(env.accepts, (event: Event, now: nat) => env.validateResult(event, request, now))
  }

  predicate ProviderErrorIsRetryable(code: ErrorCode) {
    code in {Busy, ProvingFailed, ArtifactUnavailable, Internal}
  }

  /** What may arrive at a suspension point. */
  predicate Fits(env: Env, s: State, input: Input) {
    match s.pc
    case Idle => false
    case AtSign => input.Signed? || input.SignFails?
    case AtPublish(_, _, _) => input.Acknowledged? || input.Refused?
    case AtPublishDelay(_, _, _, _) => input.DelayOver?
    case AtWait(_, _, _) => input.Hears? && !input.signal.Aborted? && (input.signal.Delivered? ==> s.subscribed)
    case AtFetch(_, result, _) =>
      || input.FetchFails?
      || (input.FetchOk? && result.content.SuccessResult?
          && Delivers(env.sha256, env.safeUrl, result.content.proof, input.exchange, input.proofBytes))
    case AtFetchDelay(_, _, _, _) => input.DelayOver?
    case AtVerify(_, result, _) => input.VerifierAnswers? && result.content.SuccessResult?
    case _ => input.Go?
  }

  function ContinueSign(env: Env, s: State, input: Input): State
    requires s.pc.AtSign? && Fits(env, s, input)
  {
    if input.SignFails? then Catch(s, input.failure)
    else if !Active(s) then Catch(s, CANCELLED)
    else
      match env.validateRequest(input.event, input.now)
      case None => Catch(s, JobFailure(ValidationFailed, false))
      case Some(request) =>
        s.(snapshot := s.snapshot.(request := Some(request), publishAttempt := 1),
           pc := AtPublish(input.event, request, 1))
  }

  function ContinuePublish(env: Env, s: State, input: Input): State
    requires (s.pc.AtPublish? || s.pc.AtPublishDelay? || s.pc.Published?) && Fits(env, s, input)
  {
    match s.pc
    case AtPublish(event, request, attempt) =>
      if input.Acknowledged? then s.(pc := Published(request))
      else if attempt <= env.publishRetries then s.(pc := AtPublishDelay(event, request, attempt, Armed(s)))
      else s.(pc := Throwing(JobFailure(PublishFailed, true)))
    case AtPublishDelay(event, request, attempt, _) =>
      if !Active(s) then s.(pc := Throwing(CANCELLED))
      else s.(snapshot := s.snapshot.(publishAttempt := attempt + 1), pc := AtPublish(event, request, attempt + 1))
    case Published(request) =>
      if !Active(s) then Catch(s, CANCELLED)
      else s.(snapshot := s.snapshot.(phase := AwaitingResult), pc := AtWait(request, [], Armed(s)), subscribed := true)
  }

  function ContinueWait(env: Env, s: State, input: Input): State
    requires s.pc.AtWait? && Fits(env, s, input)
  {
    var request, heard := s.pc.request, s.pc.history + [input.signal];
    match Settles(JudgeOf(env, request), s.pc.history, input.signal)
    case None => s.(pc := AtWait(request, heard, s.pc.armed))
    case Some(verdict) =>
      var outcome := match verdict
        case Resolved(content) =>
          if input.signal.Delivered? then Success(Received(input.signal.event, content)) else Failure(CANCELLED)
        case ResultTimeout => Failure(JobFailure(NoResult, true))
        case Cancelled => Failure(CANCELLED);
      s.(pc := WaitOver(request, outcome), subscribed := false)
  }

  function ContinueResult(env: Env, s: State, input: Input): State
    requires s.pc.WaitOver? && Fits(env, s, input)
  {
    match s.pc.outcome
    case Failure(error) => Catch(s, error)
    case Success(result) =>
      if !Active(s) then Catch(s, CANCELLED)
      else
        var t := s.(snapshot := s.snapshot.(result := Some(result)));
        match result.content
        case ErrorResult(_, _, error) =>
          Catch(t, JobFailure(FromProvider(error.code), ProviderErrorIsRetryable(error.code)))
        case SuccessResult(_, _, _, proof, _) =>
          if proof.programHash != env.trustedHash then Catch(t, UNTRUSTED)
          else t.(snapshot := t.snapshot.(phase := Fetching, proofAttempt := 1), pc := AtFetch(s.pc.request, result, 1))
  }

  function ContinueFetch(env: Env, s: State, input: Input): State
    requires (s.pc.AtFetch? || s.pc.AtFetchDelay?) && Fits(env, s, input)
  {
    match s.pc
    case AtFetch(request, result, attempt) =>
      if input.FetchOk? then s.(pc := FetchDone(request, result, input.proofBytes))
      else if !input.error.retryable || attempt > env.proofRetries
      then s.(pc := Throwing(JobFailure(DownloadFailed(input.error), input.error.retryable)))
      else s.(pc := AtFetchDelay(request, result, attempt, Armed(s)))
    case AtFetchDelay(request, result, attempt, _) =>
      if !Active(s) then s.(pc := Throwing(CANCELLED))
      else s.(snapshot := s.snapshot.(proofAttempt := attempt + 1), pc := AtFetch(request, result, attempt + 1))
  }

  function ContinueVerify(env: Env, s: State, input: Input): State
    requires (s.pc.FetchDone? || s.pc.AtVerify? || s.pc.VerifyDone?) && Fits(env, s, input)
  {
    match s.pc
    case FetchDone(request, result, proofBytes) =>
      if !Active(s) then Catch(s, CANCELLED)
      else
        var t := s.(snapshot := s.snapshot.(phase := Verifying));
        if !result.content.SuccessResult? || result.content.proof.programHash != env.trustedHash
           || result.content.statement.program != CAIRO_PROGRAM
        then t.(pc := Throwing(UNTRUSTED))
        else t.(pc := AtVerify(request, result, proofBytes))
    case AtVerify(request, result, proofBytes) =>
      if env.verify(proofBytes, env.trustedHash, result.content.statement) == Some(true)
      then s.(pc := VerifyDone(request, result, proofBytes))
      else s.(pc := Throwing(JobFailure(VerificationFailed, false)))
    case VerifyDone(request, result, proofBytes) =>
      if !Active(s) then Catch(s, CANCELLED)
      else
        s.(snapshot := s.snapshot.(phase := Verified, verified := Some(VerifiedJob(request, result, proofBytes))),
           pc := Finishing)
  }

  function Continue(env: Env, s: State, input: Input): State
    requires Fits(env, s, input)
  {
    if s.pc.AtSign? then ContinueSign(env, s, input)
    else if s.pc.AtPublish? || s.pc.AtPublishDelay? || s.pc.Published? then ContinuePublish(env, s, input)
    else if s.pc.AtWait? then ContinueWait(env, s, input)
    else if s.pc.WaitOver? then ContinueResult(env, s, input)
    else if s.pc.AtFetch? || s.pc.AtFetchDelay? then ContinueFetch(env, s, input)
    else if s.pc.Throwing? then Catch(s, s.pc.failure)
    else if s.pc.Finishing? then s.(pc := Idle, subscribed := false)
    else ContinueVerify(env, s, input)
  }

  predicate Enabled(env: Env, s: State, step: Step) {
    match step
    case Start(_) => true
    case Cancel => true
    case Retry(_) => s.snapshot.phase == JobFailed && s.snapshot.failure.Some? && s.snapshot.failure.value.retryable
    case RetryResume(id, _) => id in s.pending && (s.pc.Idle? || id < s.runs)
    case Resume(input) => Fits(env, s, input)
  }

  function Next(env: Env, s: State, step: Step): State
    requires Enabled(env, s, step)
  {
    match step
    case Start(build) => StartJob(s, build)
    case Cancel => CancelJob(s)
    case Retry(build) => if s.pc.Idle? then Restart(s, build) else s.(pending := s.pending + multiset{s.runs})
    case RetryResume(id, build) => Restart(s.(pending := s.pending - multiset{id}), build)
    case Resume(input) => Continue(env, s, input)
  }

  /** The state after a list of steps, when each is enabled in turn. */
  function RunFrom(env: Env, s: State, steps: seq<Step>): Option<State>
    decreases |steps|
  {
    if steps == [] then Some(s)
    else if !Enabled(env, s, steps[0]) then None
    else RunFrom(env, Next(env, s, steps[0]), steps[1..])
  }

  lemma RunConcat(env: Env, s: State, first: seq<Step>, rest: seq<Step>)
    requires RunFrom(env, s, first).Some?
    ensures RunFrom(env, s, first + rest) == RunFrom(env, RunFrom(env, s, first).value, rest)
    decreases |first|
  {
    hide Enabled, Next;
    if first == [] {
      assert first + rest == rest;
    } else {
      RunConcat(env, Next(env, s, first[0]), first[1..], rest);
      assert (first + rest)[1..] == first[1..] + rest;
    }
  }

  lemma RunOne(env: Env, s: State, step: Step)
    requires Enabled(env, s, step)
    ensures RunFrom(env, s, [step]) == Some(Next(env, s, step))
  {
    hide Enabled, Next;
    assert [step][1..] == [];
    assert RunFrom(env, Next(env, s, step), []) == Some(Next(env, s, step));
  }

  lemma RunTwo(env: Env, s: State, x: Step, y: Step, t: State)
    requires Enabled(env, s, x) && Enabled(env, Next(env, s, x), y) && Next(env, Next(env, s, x), y) == t
    ensures RunFrom(env, s, [x, y]) == Some(t)
  {
    hide Enabled, Next;
    RunOne(env, s, x);
    RunOne(env, Next(env, s, x), y);
    RunConcat(env, s, [x], [y]);
    assert [x] + [y] == [x, y];
  }
}
