/** What every run of a job keeps, whatever interleaves at its awaits. */
module SoulJobSafety {
  import opened Wrappers
  import opened Bytes
  import opened Types
  import opened Events
  import opened ProofFetch
  import opened Settlement
  import opened SoulJob

  // ---- evidence ----------------------------------------------------------

  ghost predicate RequestOk(env: Env, request: JobRequest) {
    exists event: Event, now: nat :: env.validateRequest(event, now) == Some(request)
  }

  ghost predicate ResultOk(env: Env, request: JobRequest, result: Received) {
    && env.accepts(result.event.body.pubkey)
    && exists now: nat :: env.validateResult(result.event, request, now) == Some(result.content)
  }

  predicate Trusted(env: Env, content: JobResultContent) {
    content.SuccessResult? && content.proof.programHash == env.trustedHash
  }

  predicate BytesOk(env: Env, content: JobResultContent, proofBytes: seq<Byte>) {
    && content.SuccessResult?
    && |proofBytes| == content.proof.byteSize <= MAX_PROOF_BYTES
    && env.sha256(proofBytes) == content.proof.sha256
  }

  /** All that stands behind a verified job. */
  ghost predicate Evidence(env: Env, v: VerifiedJob) {
    && RequestOk(env, v.request)
    && ResultOk(env, v.request, v.result)
    && Trusted(env, v.result.content)
    && v.result.content.statement.program == CAIRO_PROGRAM
    && BytesOk(env, v.result.content, v.proofBytes)
    && env.verify(v.proofBytes, env.trustedHash, v.result.content.statement) == Some(true)
  }

  /** The evidence gathered up to a suspension point, and the attempt bounds. */
  ghost predicate PcOk(env: Env, pc: Pc) {
    match pc
    case AtPublish(_, request, attempt) => RequestOk(env, request) && 1 <= attempt <= env.publishRetries + 1
    case AtPublishDelay(_, request, attempt, _) => RequestOk(env, request) && 1 <= attempt <= env.publishRetries
    case Published(request) => RequestOk(env, request)
    case AtWait(request, _, _) => RequestOk(env, request)
    case WaitOver(request, outcome) =>
      RequestOk(env, request) && (outcome.Success? ==> ResultOk(env, request, outcome.value))
    case AtFetch(request, result, attempt) =>
      && RequestOk(env, request) && ResultOk(env, request, result) && Trusted(env, result.content)
      && 1 <= attempt <= env.proofRetries + 1
    case AtFetchDelay(request, result, attempt, _) =>
      && RequestOk(env, request) && ResultOk(env, request, result) && Trusted(env, result.content)
      && 1 <= attempt <= env.proofRetries
    case FetchDone(request, result, proofBytes) =>
      && RequestOk(env, request) && ResultOk(env, request, result) && Trusted(env, result.content)
      && BytesOk(env, result.content, proofBytes)
    case AtVerify(request, result, proofBytes) =>
      && RequestOk(env, request) && ResultOk(env, request, result) && Trusted(env, result.content)
      && result.content.statement.program == CAIRO_PROGRAM
      && BytesOk(env, result.content, proofBytes)
    case VerifyDone(request, result, proofBytes) => Evidence(env, VerifiedJob(request, result, proofBytes))
    case _ => true
  }

  predicate Over(pc: Pc) {
    pc.Idle? || pc.Finishing?
  }

  function Rank(phase: Phase): nat {
    match phase
    case Draft => 0
    case Publishing => 1
    case AwaitingResult => 2
    case ResultReceived => 3
    case Fetching => 4
    case Verifying => 5
    case Verified => 6
    case JobFailed => 6
  }

  predicate Terminal(s: State) {
    s.snapshot.phase in {Verified, JobFailed}
  }

  /** The phase never runs ahead of the suspended body; a reset by an overlapping retry leaves it behind. */
  predicate PhaseFits(s: State) {
    Rank(s.snapshot.phase) <= Ahead(s.pc) || Terminal(s)
  }

  function Ahead(pc: Pc): nat {
    match pc
    case AtSign => 1
    case AtPublish(_, _, _) => 1
    case AtPublishDelay(_, _, _, _) => 1
    case Published(_) => 1
    case AtWait(_, _, _) => 2
    case WaitOver(_, _) => 2
    case AtFetch(_, _, _) => 4
    case AtFetchDelay(_, _, _, _) => 4
    case FetchDone(_, _, _) => 4
    case AtVerify(_, _, _) => 5
    case VerifyDone(_, _, _) => 5
    case Throwing(_) => 5
    case Idle => 0
    case Finishing => 0
  }

  ghost predicate Inv(env: Env, s: State) {
    && PcOk(env, s.pc)
    && (s.snapshot.verified.Some? ==> Evidence(env, s.snapshot.verified.value))
    && (s.snapshot.phase == Verified ==> s.snapshot.verified.Some? && Over(s.pc))
    && (s.snapshot.phase == JobFailed ==> s.snapshot.failure.Some? && (Over(s.pc) || !Active(s)))
    && s.snapshot.publishAttempt <= env.publishRetries + 1
    && s.snapshot.proofAttempt <= env.proofRetries + 1
    && (forall c :: c in s.aborted ==> c <= s.controller)
    && PhaseFits(s)
  }

  lemma StartKeepsInv(env: Env, s: State, build: Option<JobFailure>)
    requires Inv(env, s)
    ensures Inv(env, StartJob(s, build))
  {
  }

  lemma RestartKeepsInv(env: Env, s: State, build: Option<JobFailure>)
    requires Inv(env, s)
    ensures Inv(env, Restart(s, build))
  {
    var t := s.(controller := s.controller + 1, snapshot := Snapshot(Draft, None, None, None, None, 0, 0));
    assert Inv(env, t);
    StartKeepsInv(env, t, build);
  }

  lemma CancelKeepsInv(env: Env, s: State)
    requires Inv(env, s)
    ensures Inv(env, CancelJob(s))
  {
  }

  lemma CatchKeepsInv(env: Env, s: State, error: JobFailure)
    requires Inv(env, s) && s.snapshot.phase != Verified
    ensures Inv(env, Catch(s, error))
  {
  }

  lemma SignKeepsInv(env: Env, s: State, input: Input)
    requires Inv(env, s) && s.pc.AtSign? && Fits(env, s, input)
    ensures Inv(env, ContinueSign(env, s, input))
  {
  }

  lemma PublishKeepsInv(env: Env, s: State, input: Input)
    requires Inv(env, s) && (s.pc.AtPublish? || s.pc.AtPublishDelay? || s.pc.Published?) && Fits(env, s, input)
    ensures Inv(env, ContinuePublish(env, s, input))
  {
  }

  lemma WaitKeepsInv(env: Env, s: State, input: Input)
    requires Inv(env, s) && s.pc.AtWait? && Fits(env, s, input)
    ensures Inv(env, ContinueWait(env, s, input))
  {
    hide Ids;
    var signal := input.signal;
    var t := ContinueWait(env, s, input);
    if t.pc.WaitOver? && t.pc.outcome.Success? {
      assert env.validateResult(signal.event, s.pc.request, signal.now) == Some(t.pc.outcome.value.content);
    }
  }

  lemma ResultKeepsInv(env: Env, s: State, input: Input)
    requires Inv(env, s) && s.pc.WaitOver? && Fits(env, s, input)
    ensures Inv(env, ContinueResult(env, s, input))
  {
  }

  lemma FetchKeepsInv(env: Env, s: State, input: Input)
    requires Inv(env, s) && (s.pc.AtFetch? || s.pc.AtFetchDelay?) && Fits(env, s, input)
    ensures Inv(env, ContinueFetch(env, s, input))
  {
  }

  lemma VerifyKeepsInv(env: Env, s: State, input: Input)
    requires Inv(env, s) && (s.pc.FetchDone? || s.pc.AtVerify? || s.pc.VerifyDone?) && Fits(env, s, input)
    ensures Inv(env, ContinueVerify(env, s, input))
  {
    hide RequestOk, ResultOk, Trusted, BytesOk, JudgeOf, Delivers;
    match s.pc {
      case FetchDone(_, _, _) => FetchedKeepsInv(env, s, input);
      case AtVerify(_, _, _) =>
      case VerifyDone(_, _, _) =>
    }
  }

  lemma FetchedKeepsInv(env: Env, s: State, input: Input)
    requires Inv(env, s) && s.pc.FetchDone? && Fits(env, s, input)
    ensures Inv(env, ContinueVerify(env, s, input))
  {
    hide RequestOk, ResultOk, BytesOk, JudgeOf, Delivers, Evidence;
  }

  /** No hypothesis on retries: even overlapping ones never produce a verified job without its evidence. */
  lemma StepKeepsInv(env: Env, s: State, step: Step)
    requires Inv(env, s) && Enabled(env, s, step)
    ensures Inv(env, Next(env, s, step))
  {
    match step
    case Start(build) => StartKeepsInv(env, s, build);
    case Cancel => CancelKeepsInv(env, s);
    case Retry(build) => RestartKeepsInv(env, s, build);
    case RetryResume(id, build) => RestartKeepsInv(env, s.(pending := s.pending - multiset{id}), build);
    case Resume(input) => ContinueKeepsInv(env, s, input);
  }

  lemma ContinueKeepsInv(env: Env, s: State, input: Input)
    requires Inv(env, s) && Fits(env, s, input)
    ensures Inv(env, Continue(env, s, input))
  {
    assert !s.pc.Idle?;
    hide Inv, Fits, ContinueSign, ContinuePublish, ContinueWait, ContinueResult, ContinueFetch, ContinueVerify, Catch;
    if s.pc.AtSign? { SignKeepsInv(env, s, input); }
    else if s.pc.AtPublish? || s.pc.AtPublishDelay? || s.pc.Published? { PublishKeepsInv(env, s, input); }
    else if s.pc.AtWait? { WaitKeepsInv(env, s, input); }
    else if s.pc.WaitOver? { ResultKeepsInv(env, s, input); }
    else if s.pc.AtFetch? || s.pc.AtFetchDelay? { FetchKeepsInv(env, s, input); }
    else if s.pc.Throwing? || s.pc.Finishing? { EndKeepsInv(env, s, input); }
    else { VerifyKeepsInv(env, s, input); }
  }

  lemma EndKeepsInv(env: Env, s: State, input: Input)
    requires Inv(env, s) && (s.pc.Throwing? || s.pc.Finishing?) && Fits(env, s, input)
    ensures Inv(env, Continue(env, s, input))
  {
    if s.pc.Throwing? { CatchKeepsInv(env, s, s.pc.failure); }
  }

  // ---- forward only, and final states ------------------------------------

  /** The step resets the job: the tail of some `retry()`. */
  predicate Restarts(s: State, step: Step) {
    step.RetryResume? || (step.Retry? && s.pc.Idle?)
  }

  function BuildOf(step: Step): Option<JobFailure> {
    match step
    case Start(build) => build
    case Retry(build) => build
    case RetryResume(_, build) => build
    case _ => None
  }

  /** A verified or failed snapshot is final but for a retry; a retry drops its evidence and leaves a job that has
      failed only if its new run failed at once. */
  lemma TerminalIsFinalUnlessRestarted(env: Env, s: State, step: Step)
    requires Inv(env, s) && Enabled(env, s, step) && Terminal(s)
    ensures
      var t := Next(env, s, step);
      if Restarts(s, step)
      then t.snapshot.verified.None? && t.snapshot.phase ==
             (if !s.pc.Idle? then Draft else if BuildOf(step).None? then Publishing else JobFailed)
           && (t.snapshot.phase == JobFailed ==> t.snapshot.failure == BuildOf(step))
      else t.snapshot == s.snapshot
  {
    hide Evidence, RequestOk, ResultOk, Settles;
    if step.Resume? { TerminalContinue(env, s, step.input); }
  }

  lemma TerminalContinue(env: Env, s: State, input: Input)
    requires Inv(env, s) && Fits(env, s, input) && Terminal(s)
    ensures Continue(env, s, input).snapshot == s.snapshot
  {
    hide Evidence, RequestOk, ResultOk, Settles;
  }

  /** Within one run the phase only moves forward. */
  lemma PhasesMoveForward(env: Env, s: State, step: Step)
    requires Inv(env, s) && Enabled(env, s, step) && !Restarts(s, step)
    ensures Rank(s.snapshot.phase) <= Rank(Next(env, s, step).snapshot.phase)
  {
    hide PcOk, Evidence, Settles, JudgeOf;
    if Terminal(s) { TerminalIsFinalUnlessRestarted(env, s, step); }
  }

  // ---- after a cancellation ----------------------------------------------

  /** Suspended on something outside the job. */
  predicate Asking(pc: Pc) {
    pc.AtSign? || pc.AtPublish? || pc.AtWait? || pc.AtFetch? || pc.AtVerify?
  }

  lemma AbortedEarly(env: Env, s: State, input: Input)
    requires Fits(env, s, input) && !Active(s) && s.snapshot.phase == JobFailed && Early(s.pc)
    ensures
      var t := Continue(env, s, input);
      t.controller == s.controller && t.aborted == s.aborted && (Asking(t.pc) ==> s.pc.AtWait? && t.pc.AtWait?)
  {
    hide Settles, JudgeOf, ContinueFetch, ContinueVerify;
  }

  lemma AbortedLate(env: Env, s: State, input: Input)
    requires Fits(env, s, input) && !Active(s) && s.snapshot.phase == JobFailed && !Early(s.pc)
    ensures
      var t := Continue(env, s, input);
      t.controller == s.controller && t.aborted == s.aborted && !Asking(t.pc)
  {
    hide Delivers, ContinueSign, ContinuePublish, ContinueWait, ContinueResult;
  }

  /** Once the current controller is aborted, the run asks nothing new of anyone before the next retry: no further
      publication, subscription, download or proof check; and it records nothing. */
  lemma AbortedAsksNothing(env: Env, s: State, step: Step)
    requires Inv(env, s) && Enabled(env, s, step) && !Active(s) && s.snapshot.phase == JobFailed
    requires !Restarts(s, step)
    ensures
      var t := Next(env, s, step);
      && !Active(t) && t.snapshot == s.snapshot
      && (Asking(t.pc) ==> t.pc == s.pc || (s.pc.AtWait? && t.pc.AtWait?))
  {
    TerminalIsFinalUnlessRestarted(env, s, step);
    hide Inv, Continue, Fits;
    if step.Resume? {
      if Early(s.pc) {
        AbortedEarly(env, s, step.input);
      } else {
        AbortedLate(env, s, step.input);
      }
    }
  }

  // ---- runs ---------------------------------------------------------------

  ghost predicate IsRun(env: Env, run: seq<State>, steps: seq<Step>) {
    && |run| == |steps| + 1
    && run[0] == Initial()
    && forall k :: 0 <= k < |steps| ==> Enabled(env, run[k], steps[k]) && run[k + 1] == Next(env, run[k], steps[k])
  }

  predicate ListensOnlyWaiting(s: State) {
    s.subscribed ==> s.pc.AtWait?
  }

  lemma StepListensOnlyWaiting(env: Env, s: State, step: Step)
    requires ListensOnlyWaiting(s) && Enabled(env, s, step)
    ensures ListensOnlyWaiting(Next(env, s, step))
  {
    hide Settles, JudgeOf, Delivers;
  }

  /** In every run, the job is subscribed to its relays only while it waits for a result: whatever ends the wait, and
      however the run ends, the subscription is closed. */
  lemma {:induction false} SubscribedOnlyWhileWaiting(env: Env, run: seq<State>, steps: seq<Step>, k: nat)
    requires IsRun(env, run, steps) && k <= |steps|
    ensures run[k].subscribed ==> run[k].pc.AtWait?
  {
    if k > 0 {
      SubscribedOnlyWhileWaiting(env, run, steps, k - 1);
      hide Next, Enabled;
      StepListensOnlyWaiting(env, run[k - 1], steps[k - 1]);
    }
  }

  /** The states that a list of steps goes through. */
  lemma {:induction false} Traced(env: Env, s: State, steps: seq<Step>) returns (run: seq<State>)
    requires RunFrom(env, s, steps).Some?
    ensures |run| == |steps| + 1 && run[0] == s && run[|steps|] == RunFrom(env, s, steps).value
    ensures forall k :: 0 <= k < |steps| ==> Enabled(env, run[k], steps[k]) && run[k + 1] == Next(env, run[k], steps[k])
    decreases |steps|
  {
    hide Enabled, Next;
    if steps == [] {
      return [s];
    }
    var rest := Traced(env, Next(env, s, steps[0]), steps[1..]);
    run := [s] + rest;
    forall k | 0 <= k < |steps|
      ensures Enabled(env, run[k], steps[k]) && run[k + 1] == Next(env, run[k], steps[k])
    {
      if k > 0 { assert run[k] == rest[k - 1] && steps[k] == steps[1..][k - 1]; }
    }
  }

  lemma {:induction false} RunKeepsInv(env: Env, run: seq<State>, steps: seq<Step>, k: nat)
    requires IsRun(env, run, steps) && k <= |steps|
    ensures Inv(env, run[k])
  {
    if k > 0 {
      RunKeepsInv(env, run, steps, k - 1);
      hide Next, Inv, Enabled;
      StepKeepsInv(env, run[k - 1], steps[k - 1]);
    }
  }

  /** Whatever a run does, a job is shown as verified only with all its evidence, and never exceeds its attempts. */
  lemma VerifiedOnlyWithEvidence(env: Env, run: seq<State>, steps: seq<Step>, k: nat)
    requires IsRun(env, run, steps) && k <= |steps|
    ensures run[k].snapshot.phase == Verified ==>
      run[k].snapshot.verified.Some? && Evidence(env, run[k].snapshot.verified.value)
    ensures run[k].snapshot.publishAttempt <= env.publishRetries + 1
    ensures run[k].snapshot.proofAttempt <= env.proofRetries + 1
  {
    hide IsRun, Evidence;
    RunKeepsInv(env, run, steps, k);
  }

  /** No `retry()` is called while another one is still waiting. */
  ghost predicate NoOverlap(run: seq<State>, steps: seq<Step>)
    requires |run| == |steps| + 1
  {
    forall k :: 0 <= k < |steps| && steps[k].Retry? ==> run[k].pending == multiset{}
  }

  predicate Retryable(s: State) {
    s.snapshot.phase == JobFailed && s.snapshot.failure.Some? && s.snapshot.failure.value.retryable
  }

  predicate OnePending(s: State) {
    |s.pending| <= 1 && (s.pending != multiset{} ==> Retryable(s))
  }

  lemma StepKeepsOnePending(env: Env, s: State, step: Step)
    requires Inv(env, s) && Enabled(env, s, step) && OnePending(s)
    requires step.Retry? ==> s.pending == multiset{}
    ensures OnePending(Next(env, s, step))
  {
    hide PcOk, Evidence;
    if Restarts(s, step) {
      if step.RetryResume? {
        assert s.pending[step.id] >= 1;
        assert |s.pending - multiset{step.id}| == |s.pending| - 1;
      }
    } else {
      PendingOnlyGrowsByRetry(env, s, step);
      if s.pending != multiset{} { TerminalIsFinalUnlessRestarted(env, s, step); }
    }
  }

  lemma PendingOnlyGrowsByRetry(env: Env, s: State, step: Step)
    requires Enabled(env, s, step) && !Restarts(s, step)
    ensures Next(env, s, step).pending == if step.Retry? then s.pending + multiset{s.runs} else s.pending
    ensures step.Retry? ==> Next(env, s, step).snapshot == s.snapshot
  {
    hide Settles, JudgeOf;
  }

  lemma {:induction false} RunKeepsOnePending(env: Env, run: seq<State>, steps: seq<Step>, k: nat)
    requires IsRun(env, run, steps) && NoOverlap(run, steps) && k <= |steps|
    ensures OnePending(run[k])
  {
    if k > 0 {
      RunKeepsOnePending(env, run, steps, k - 1);
      RunKeepsInv(env, run, steps, k - 1);
      hide Next, Inv, Enabled, OnePending;
      StepKeepsOnePending(env, run[k - 1], steps[k - 1]);
    }
  }

  lemma FinalStep(env: Env, s: State, step: Step)
    requires Inv(env, s) && Enabled(env, s, step) && Terminal(s) && !Retryable(s) && s.pending == multiset{}
    ensures Next(env, s, step).snapshot == s.snapshot && Next(env, s, step).pending == multiset{}
  {
    hide Inv, Next;
    TerminalIsFinalUnlessRestarted(env, s, step);
    PendingOnlyGrowsByRetry(env, s, step);
  }

  /** A verified job, and one that failed for good (a cancelled one in particular), stays as it is for ever once no
      `retry()` call is waiting. */
  lemma {:induction false} FinalForever(env: Env, run: seq<State>, steps: seq<Step>, j: nat, k: nat)
    requires IsRun(env, run, steps) && j <= k <= |steps|
    requires Terminal(run[j]) && !Retryable(run[j]) && run[j].pending == multiset{}
    ensures run[k].snapshot == run[j].snapshot && run[k].pending == multiset{}
  {
    hide Next, Inv, Enabled;
    if j < k {
      FinalForever(env, run, steps, j, k - 1);
      RunKeepsInv(env, run, steps, k - 1);
      var s, step := run[k - 1], steps[k - 1];
      assert Enabled(env, s, step) && run[k] == Next(env, s, step);
      hide IsRun;
      FinalStep(env, s, step);
    }
  }

  /** In particular when retries never overlap, for then none waits in such a state. */
  lemma FinalWithoutOverlap(env: Env, run: seq<State>, steps: seq<Step>, j: nat, k: nat)
    requires IsRun(env, run, steps) && NoOverlap(run, steps) && j <= k <= |steps|
    requires Terminal(run[j]) && !Retryable(run[j])
    ensures run[k].snapshot == run[j].snapshot
  {
    hide Next, Inv, Enabled, NoOverlap;
    RunKeepsOnePending(env, run, steps, j);
    FinalForever(env, run, steps, j, k);
  }

  // ---- and only then -----------------------------------------------------

  /** An answer that moves a suspended run towards its end. */
  function Unwinding(pc: Pc): Input {
    match pc
    case AtSign => SignFails(CANCELLED)
    case AtPublish(_, _, _) => Acknowledged
    case AtPublishDelay(_, _, _, _) => DelayOver
    case AtWait(_, _, _) => Hears(TimedOut)
    case AtFetch(_, _, _) => FetchFails(ProofFetchFailed(false))
    case AtFetchDelay(_, _, _, _) => DelayOver
    case AtVerify(_, _, _) => VerifierAnswers
    case _ => Go
  }

  function Distance(pc: Pc): nat {
    match pc
    case Idle => 0
    case Finishing => 1
    case AtSign => 2
    case Published(_) => 2
    case WaitOver(_, _) => 2
    case FetchDone(_, _, _) => 2
    case VerifyDone(_, _, _) => 2
    case Throwing(_) => 2
    case _ => 3
  }

  lemma UnwindingFits(env: Env, s: State)
    requires Inv(env, s) && Terminal(s) && !s.pc.Idle?
    ensures Fits(env, s, Unwinding(s.pc))
  {
    hide Evidence, RequestOk, ResultOk, JudgeOf, Considered, Delivers, PhaseFits;
  }

  predicate Early(pc: Pc) {
    pc.AtSign? || pc.AtPublish? || pc.AtPublishDelay? || pc.Published? || pc.AtWait? || pc.WaitOver?
  }

  lemma UnwindsEarly(env: Env, s: State)
    requires Inv(env, s) && Terminal(s) && Early(s.pc) && Fits(env, s, Unwinding(s.pc))
    ensures
      var t := Continue(env, s, Unwinding(s.pc));
      && Distance(t.pc) < Distance(s.pc) && t.snapshot == s.snapshot
      && t.pending == s.pending && t.runs == s.runs && t.aborted == s.aborted && t.controller == s.controller
  {
    hide JudgeOf, Considered, PhaseFits, PcOk, ContinueFetch, ContinueVerify;
  }

  lemma UnwindsLate(env: Env, s: State)
    requires Inv(env, s) && Terminal(s) && !s.pc.Idle? && !Early(s.pc) && Fits(env, s, Unwinding(s.pc))
    ensures
      var t := Continue(env, s, Unwinding(s.pc));
      && Distance(t.pc) < Distance(s.pc) && t.snapshot == s.snapshot
      && t.pending == s.pending && t.runs == s.runs && t.aborted == s.aborted && t.controller == s.controller
  {
    hide PhaseFits, PcOk, ContinueSign, ContinuePublish, ContinueWait, ContinueResult, Delivers;
  }

  lemma Unwinds(env: Env, s: State)
    requires Inv(env, s) && Terminal(s) && !s.pc.Idle?
    ensures Fits(env, s, Unwinding(s.pc))
    ensures
      var t := Continue(env, s, Unwinding(s.pc));
      && Distance(t.pc) < Distance(s.pc) && t.snapshot == s.snapshot
      && t.pending == s.pending && t.runs == s.runs && t.aborted == s.aborted && t.controller == s.controller
  {
    UnwindingFits(env, s);
    hide Inv, Fits, Continue, Terminal;
    if Early(s.pc) {
      UnwindsEarly(env, s);
    } else {
      UnwindsLate(env, s);
    }
  }

  /** A run over a verified or failed job can always end without a trace. */
  lemma {:induction false} Drains(env: Env, s: State) returns (steps: seq<Step>, t: State)
    requires Inv(env, s) && Terminal(s)
    ensures RunFrom(env, s, steps) == Some(t) && t.pc.Idle? && t.snapshot == s.snapshot && t.pending == s.pending
    decreases Distance(s.pc)
  {
    if s.pc.Idle? {
      return [], s;
    }
    var step := Resume(Unwinding(s.pc));
    Unwinds(env, s);
    StepKeepsInv(env, s, step);
    RunOne(env, s, step);
    hide Continue, Fits, Inv;
    var rest;
    rest, t := Drains(env, Next(env, s, step));
    hide Next, Enabled;
    RunConcat(env, s, [step], rest);
    steps := [step] + rest;
  }

  /** Nothing that can happen changes the snapshot. */
  ghost predicate IsFinal(env: Env, s: State) {
    forall steps :: RunFrom(env, s, steps).Some? ==> RunFrom(env, s, steps).value.snapshot == s.snapshot
  }

  lemma {:induction false} StaysForever(env: Env, s: State, steps: seq<Step>)
    requires Inv(env, s) && Terminal(s) && !Retryable(s) && s.pending == multiset{}
    requires RunFrom(env, s, steps).Some?
    ensures RunFrom(env, s, steps).value.snapshot == s.snapshot
    decreases |steps|
  {
    if steps != [] {
      hide Inv, Next, Enabled;
      FinalStep(env, s, steps[0]);
      StepKeepsInv(env, s, steps[0]);
      StaysForever(env, Next(env, s, steps[0]), steps[1..]);
    }
  }

  /** From an idle job, a retry that may begin or resume starts a new run. */
  lemma RestartsPublishing(env: Env, s: State, step: Step)
    requires Enabled(env, s, step) && Restarts(s, step) && BuildOf(step).None? && s.pc.Idle?
    ensures Next(env, s, step).snapshot.phase == Publishing
  {
  }

  /** A verified or failed job is final if and only if it may not be retried and no earlier `retry()` call waits. */
  lemma FinalIff(env: Env, s: State)
    requires Inv(env, s) && Terminal(s)
    ensures IsFinal(env, s) <==> !Retryable(s) && s.pending == multiset{}
  {
    if !Retryable(s) && s.pending == multiset{} {
      forall steps | RunFrom(env, s, steps).Some?
        ensures RunFrom(env, s, steps).value.snapshot == s.snapshot
      {
        StaysForever(env, s, steps);
      }
    } else {
      var steps, t := Drains(env, s);
      hide Inv, RunFrom, Next;
      var step;
      if Retryable(s) {
        step := Retry(None);
      } else {
        var id :| id in s.pending;
        step := RetryResume(id, None);
      }
      RestartsPublishing(env, t, step);
      RunOne(env, t, step);
      RunConcat(env, s, steps, [step]);
      assert RunFrom(env, s, steps + [step]).value.snapshot != s.snapshot;
    }
  }

  function OverlapSteps(event: Event, now: nat): seq<Step> {
    [Start(None), Resume(Signed(event, now)), Resume(Refused), Resume(Go), Retry(None), Retry(None), Resume(Go),
     RetryResume(1, None), Cancel, RetryResume(1, None), Resume(Signed(event, now))]
  }

  const GAVE_UP := JobFailure(PublishFailed, true)

  function Shown(phase: Phase, request: Option<JobRequest>, failure: Option<JobFailure>): Snapshot {
    Snapshot(phase, request, None, None, failure, if request.Some? then 1 else 0, 0)
  }

  function OverlapRun(event: Event, request: JobRequest): seq<State> {
    var sent, gaveUp := Shown(Publishing, Some(request), None), Shown(JobFailed, Some(request), Some(GAVE_UP));
    [Initial(),
     State(Shown(Publishing, None, None), AtSign, 0, {}, false, 1, multiset{}),
     State(sent, AtPublish(event, request, 1), 0, {}, false, 1, multiset{}),
     State(sent, Throwing(GAVE_UP), 0, {}, false, 1, multiset{}),
     State(gaveUp, Finishing, 0, {}, false, 1, multiset{}),
     State(gaveUp, Finishing, 0, {}, false, 1, multiset{1}),
     State(gaveUp, Finishing, 0, {}, false, 1, multiset{1, 1}),
     State(gaveUp, Idle, 0, {}, false, 1, multiset{1, 1}),
     State(Shown(Publishing, None, None), AtSign, 1, {}, false, 2, multiset{1}),
     State(Shown(JobFailed, None, Some(CANCELLED)), AtSign, 1, {1}, false, 2, multiset{1}),
     State(Shown(Draft, None, None), AtSign, 2, {1}, false, 2, multiset{}),
     State(Shown(Draft, Some(request), None), AtPublish(event, request, 1), 2, {1}, false, 2, multiset{})]
  }

  lemma FirstRunFails(env: Env, event: Event, now: nat, k: nat)
    requires env.validateRequest(event, now).Some? && env.publishRetries == 0 && k < 4
    ensures
      var run, steps := OverlapRun(event, env.validateRequest(event, now).value), OverlapSteps(event, now);
      Enabled(env, run[k], steps[k]) && run[k + 1] == Next(env, run[k], steps[k])
  {
    hide Settles, JudgeOf, ContinueVerify, ContinueWait, ContinueFetch, ContinueResult;
  }

  lemma TwoRetriesWait(env: Env, event: Event, now: nat, k: nat)
    requires env.validateRequest(event, now).Some? && env.publishRetries == 0 && 4 <= k < 7
    ensures
      var run, steps := OverlapRun(event, env.validateRequest(event, now).value), OverlapSteps(event, now);
      Enabled(env, run[k], steps[k]) && run[k + 1] == Next(env, run[k], steps[k])
  {
    hide Settles, JudgeOf, ContinueVerify, ContinueWait, ContinueFetch, ContinueResult, ContinueSign;
  }

  lemma SecondRunIsReset(env: Env, event: Event, now: nat, k: nat)
    requires env.validateRequest(event, now).Some? && env.publishRetries == 0 && 7 <= k < 11
    ensures
      var run, steps := OverlapRun(event, env.validateRequest(event, now).value), OverlapSteps(event, now);
      Enabled(env, run[k], steps[k]) && run[k + 1] == Next(env, run[k], steps[k])
  {
    hide Settles, JudgeOf, ContinueVerify, ContinueWait, ContinueFetch, ContinueResult;
    assert multiset{1, 1} - multiset{1} == multiset{1};
    assert multiset{1} - multiset{1} == multiset{};
    assert {1} == {} + {1};
  }

  lemma OverlapStep(env: Env, event: Event, now: nat, k: nat)
    requires env.validateRequest(event, now).Some? && env.publishRetries == 0 && k < 11
    ensures
      var run, steps := OverlapRun(event, env.validateRequest(event, now).value), OverlapSteps(event, now);
      Enabled(env, run[k], steps[k]) && run[k + 1] == Next(env, run[k], steps[k])
  {
    hide Next, Enabled, OverlapRun, OverlapSteps;
    if k < 4 {
      FirstRunFails(env, event, now, k);
    } else if k < 7 {
      TwoRetriesWait(env, event, now, k);
    } else {
      SecondRunIsReset(env, event, now, k);
    }
  }

  /** The hypothesis is needed. Two `retry()` calls wait for one failed run; the first starts a new run, which is
      cancelled; the second then resets the cancelled job, and the cancelled run goes on to publish its request. */
  lemma OverlappingRetriesReviveCancelledJob(env: Env, event: Event, now: nat)
    requires env.validateRequest(event, now).Some? && env.publishRetries == 0
    ensures
      var run := OverlapRun(event, env.validateRequest(event, now).value);
      && IsRun(env, run, OverlapSteps(event, now))
      && run[9].snapshot.phase == JobFailed && run[9].snapshot.failure == Some(CANCELLED)
      && run[10].snapshot.phase == Draft && run[11].pc.AtPublish?
  {
    var run, steps := OverlapRun(event, env.validateRequest(event, now).value), OverlapSteps(event, now);
    hide Next, Enabled;
    forall k | 0 <= k < |steps|
      ensures Enabled(env, run[k], steps[k]) && run[k + 1] == Next(env, run[k], steps[k])
    {
      OverlapStep(env, event, now, k);
    }
  }
}
