/** The attempt loops of the job machine are the attempt loops of Retry, under any sequence of answers and
    cancellations; and how a job ends that does not verify. */
module SoulJobRetry {
  import opened Wrappers
  import opened Types
  import opened Events
  import opened ProofFetch
  import opened Settlement
  import opened SoulJob
  import Bytes
  import R = Retry

  /** When, if at all, the job is cancelled around one attempt: while its answer is awaited, or in the delay after. */
  datatype Quit = Never | WhileAsking | WhileDelayed

  // ---- downloads ---------------------------------------------------------

  /** The answers that a waiting download may get. */
  ghost predicate Answers(env: Env, result: Received, answers: nat -> Input) {
    forall n: nat :: FetchAnswer(env, result, answers(n))
  }

  predicate FetchAnswer(env: Env, result: Received, input: Input) {
    || input.FetchFails?
    || (input.FetchOk? && result.content.SuccessResult?
        && Delivers(env.sha256, env.safeUrl, result.content.proof, input.exchange, input.proofBytes))
  }

  function FetchTrial(answers: nat -> Input, quits: nat -> Quit, n: nat): R.Trial {
    R.Trial(
      n <= 1 || quits(n - 1) != WhileAsking,
      if answers(n).FetchFails? then R.Failed(answers(n).error.retryable) else R.Ok,
      quits(n) != WhileDelayed)
  }

  /** The steps the machine takes from attempt `n` on. */
  function FetchSteps(retries: nat, answers: nat -> Input, quits: nat -> Quit, n: nat): seq<Step>
    decreases retries + 1 - n
  {
    (if quits(n) == WhileAsking then [Cancel] else []) + [Resume(answers(n))]
    + if !answers(n).FetchFails? || !answers(n).error.retryable || n > retries then []
      else
        match quits(n)
        case WhileDelayed => [Cancel]
        case WhileAsking => [Resume(DelayOver)]
        case Never => [Resume(DelayOver)] + FetchSteps(retries, answers, quits, n + 1)
  }

  lemma RunCons(env: Env, s: State, step: Step, rest: seq<Step>)
    requires Enabled(env, s, step)
    ensures RunFrom(env, s, [step] + rest) == RunFrom(env, Next(env, s, step), rest)
  {
    hide Enabled, Next;
    assert ([step] + rest)[1..] == rest;
  }

  /** A job downloading its proof, undisturbed so far. */
  predicate Downloading(env: Env, s: State, n: nat) {
    && s.pc.AtFetch? && s.pc.attempt == n && s.snapshot.proofAttempt == n && 1 <= n <= env.proofRetries + 1
    && Active(s) && s.snapshot.phase == Fetching
  }

  /** What the machine shows of the end of the loop. */
  predicate FetchEnds(
    s: State, t: State, answers: nat -> Input, trial: nat -> R.Trial, r: R.RetryResult, m: nat)
    requires s.pc.AtFetch?
  {
    && t.snapshot.proofAttempt == (if trial(m).active then m else m - 1)
    && match r
       case Succeeded =>
         && answers(m).FetchOk?
         && t.pc == FetchDone(s.pc.request, s.pc.result, answers(m).proofBytes)
       case GaveUp(retryable) =>
         && answers(m).FetchFails?
         && t.pc == Throwing(JobFailure(DownloadFailed(answers(m).error), retryable))
       case JobCancelled => t.pc == Throwing(CANCELLED) && t.snapshot.failure == Some(CANCELLED)
  }

  /** The answer to an attempt that ends the loop at once. */
  lemma FetchLast(env: Env, s: State, n: nat, input: Input, cancelled: bool)
    requires Downloading(env, s, n) && FetchAnswer(env, s.pc.result, input)
    requires input.FetchFails? && input.error.retryable ==> n > env.proofRetries
    ensures
      var steps := (if cancelled then [Cancel] else []) + [Resume(input)];
      var t := RunFrom(env, s, steps);
      && t.Some? && t.value.snapshot.proofAttempt == n
      && t.value.pc ==
           if input.FetchOk? then FetchDone(s.pc.request, s.pc.result, input.proofBytes)
           else Throwing(JobFailure(DownloadFailed(input.error), input.error.retryable))
  {
    hide RunFrom, Delivers;
    if cancelled {
      RunCons(env, s, Cancel, [Resume(input)]);
      RunOne(env, CancelJob(s), Resume(input));
    } else {
      RunOne(env, s, Resume(input));
      assert [] + [Resume(input)] == [Resume(input)];
    }
  }

  lemma FetchCancelled(env: Env, s: State, n: nat, input: Input, quit: Quit)
    requires Downloading(env, s, n) && input.FetchFails? && input.error.retryable && n <= env.proofRetries
    requires quit != Never
    ensures
      var steps := if quit == WhileAsking then [Cancel] + [Resume(input)] + [Resume(DelayOver)]
                   else [] + [Resume(input)] + [Cancel];
      var t := RunFrom(env, s, steps);
      && t.Some? && t.value.snapshot.proofAttempt == n && t.value.pc == Throwing(CANCELLED)
      && t.value.snapshot.failure == Some(CANCELLED)
  {
    hide RunFrom, Settles;
    if quit == WhileAsking {
      assert [Cancel] + [Resume(input)] + [Resume(DelayOver)] == [Cancel] + ([Resume(input)] + [Resume(DelayOver)]);
      RunCons(env, s, Cancel, [Resume(input)] + [Resume(DelayOver)]);
      RunCons(env, CancelJob(s), Resume(input), [Resume(DelayOver)]);
      RunOne(env, Next(env, CancelJob(s), Resume(input)), Resume(DelayOver));
    } else {
      assert [] + [Resume(input)] + [Cancel] == [Resume(input)] + [Cancel];
      RunCons(env, s, Resume(input), [Cancel]);
      RunOne(env, Next(env, s, Resume(input)), Cancel);
    }
  }

  /** A retryable failure within the budget, and the delay after it, lead to the next attempt. */
  lemma FetchTriesAgain(env: Env, s: State, n: nat, input: Input)
    requires Downloading(env, s, n) && input.FetchFails? && input.error.retryable && n <= env.proofRetries
    ensures
      var t := RunFrom(env, s, [Resume(input), Resume(DelayOver)]);
      && t.Some? && Downloading(env, t.value, n + 1)
      && t.value.pc == AtFetch(s.pc.request, s.pc.result, n + 1)
      && t.value == s.(pc := t.value.pc, snapshot := s.snapshot.(proofAttempt := n + 1))
  {
    var u := Next(env, s, Resume(input));
    RunTwo(env, s, Resume(input), Resume(DelayOver), Next(env, u, Resume(DelayOver)));
    hide RunFrom;
  }

  function FetchTrials(answers: nat -> Input, quits: nat -> Quit): nat -> R.Trial {
    (k: nat) => FetchTrial(answers, quits, k)
  }

  predicate TriesAgain(retries: nat, input: Input, n: nat) {
    input.FetchFails? && input.error.retryable && n <= retries
  }

  lemma FetchSpecLast(retries: nat, answers: nat -> Input, quits: nat -> Quit, n: nat)
    requires n >= 1 && (n == 1 || quits(n - 1) == Never) && !TriesAgain(retries, answers(n), n)
    ensures R.FetchFrom(retries, FetchTrials(answers, quits), n) ==
      if answers(n).FetchFails? then (R.GaveUp(answers(n).error.retryable), n) else (R.Succeeded, n)
    ensures FetchSteps(retries, answers, quits, n)
         == (if quits(n) == WhileAsking then [Cancel] else []) + [Resume(answers(n))]
    ensures FetchTrials(answers, quits)(n).active
  {
  }

  lemma FetchSpecCancelled(retries: nat, answers: nat -> Input, quits: nat -> Quit, n: nat)
    requires n >= 1 && (n == 1 || quits(n - 1) == Never) && TriesAgain(retries, answers(n), n) && quits(n) != Never
    ensures R.FetchFrom(retries, FetchTrials(answers, quits), n)
         == (R.JobCancelled, if quits(n) == WhileAsking then n + 1 else n)
    ensures FetchSteps(retries, answers, quits, n) ==
      if quits(n) == WhileAsking then [Cancel] + [Resume(answers(n))] + [Resume(DelayOver)]
      else [] + [Resume(answers(n))] + [Cancel]
    ensures FetchTrials(answers, quits)(n).active
    ensures quits(n) == WhileAsking ==> !FetchTrials(answers, quits)(n + 1).active
  {
  }

  lemma FetchSpecAgain(retries: nat, answers: nat -> Input, quits: nat -> Quit, n: nat)
    requires n >= 1 && (n == 1 || quits(n - 1) == Never) && TriesAgain(retries, answers(n), n) && quits(n) == Never
    ensures R.FetchFrom(retries, FetchTrials(answers, quits), n)
         == R.FetchFrom(retries, FetchTrials(answers, quits), n + 1)
    ensures FetchSteps(retries, answers, quits, n)
         == [Resume(answers(n)), Resume(DelayOver)] + FetchSteps(retries, answers, quits, n + 1)
  {
    var rest := FetchSteps(retries, answers, quits, n + 1);
    assert [] + [Resume(answers(n))] + ([Resume(DelayOver)] + rest) == [Resume(answers(n)), Resume(DelayOver)] + rest;
  }

  lemma AnswerAt(env: Env, result: Received, answers: nat -> Input, n: nat)
    requires Answers(env, result, answers)
    ensures FetchAnswer(env, result, answers(n))
  {
  }

  /** The machine's downloads end as `fetchWithRetry` does, at the same attempt, whatever the answers and whenever the
      job is cancelled: it reaches `FetchDone` exactly when the loop succeeds. */
  lemma {:induction false} FetchLoopRefines(env: Env, s: State, answers: nat -> Input, quits: nat -> Quit, n: nat)
    requires Downloading(env, s, n) && Answers(env, s.pc.result, answers) && (n == 1 || quits(n - 1) == Never)
    ensures
      var (r, m) := R.FetchFrom(env.proofRetries, FetchTrials(answers, quits), n);
      var t := RunFrom(env, s, FetchSteps(env.proofRetries, answers, quits, n));
      && m >= n && t.Some? && FetchEnds(s, t.value, answers, FetchTrials(answers, quits), r, m)
    decreases env.proofRetries + 1 - n
  {
    hide RunFrom, Answers, FetchAnswer, FetchSteps, R.FetchFrom, FetchTrials, Active;
    AnswerAt(env, s.pc.result, answers, n);
    var input := answers(n);
    if !TriesAgain(env.proofRetries, input, n) {
      AnswerKinds(env, s.pc.result, input);
      FetchLast(env, s, n, input, quits(n) == WhileAsking);
      FetchSpecLast(env.proofRetries, answers, quits, n);
    } else if quits(n) != Never {
      FetchCancelled(env, s, n, input, quits(n));
      FetchSpecCancelled(env.proofRetries, answers, quits, n);
    } else {
      FetchTriesAgain(env, s, n, input);
      FetchSpecAgain(env.proofRetries, answers, quits, n);
      var again := [Resume(input), Resume(DelayOver)];
      FetchLoopRefines(env, RunFrom(env, s, again).value, answers, quits, n + 1);
      RunConcat(env, s, again, FetchSteps(env.proofRetries, answers, quits, n + 1));
    }
  }

  lemma AnswerKinds(env: Env, result: Received, input: Input)
    requires FetchAnswer(env, result, input)
    ensures input.FetchFails? || input.FetchOk?
  {
  }

  // ---- publication -------------------------------------------------------

  /** Whether the relays take the request at each attempt. */
  type Relays = nat -> bool

  function PublishTrial(takes: Relays, quits: nat -> Quit, n: nat): R.Trial {
    R.Trial(
      n <= 1 || quits(n - 1) != WhileAsking, if takes(n) then R.Ok else R.Failed(true), quits(n) != WhileDelayed)
  }

  function PublishTrials(takes: Relays, quits: nat -> Quit): nat -> R.Trial {
    (n: nat) => PublishTrial(takes, quits, n)
  }

  function RelayAnswer(taken: bool): Input {
    if taken then Acknowledged else Refused
  }

  function PublishSteps(retries: nat, takes: Relays, quits: nat -> Quit, n: nat): seq<Step>
    decreases retries + 1 - n
  {
    (if quits(n) == WhileAsking then [Cancel] else []) + [Resume(RelayAnswer(takes(n)))]
    + if takes(n) || n > retries then []
      else
        match quits(n)
        case WhileDelayed => [Cancel]
        case WhileAsking => [Resume(DelayOver)]
        case Never => [Resume(DelayOver)] + PublishSteps(retries, takes, quits, n + 1)
  }

  /** A job publishing its request, undisturbed so far. */
  predicate Offering(env: Env, s: State, n: nat) {
    && s.pc.AtPublish? && s.pc.attempt == n && s.snapshot.publishAttempt == n && 1 <= n <= env.publishRetries + 1
    && Active(s) && s.snapshot.phase == Publishing
  }

  predicate PublishEnds(s: State, t: State, trial: nat -> R.Trial, r: R.RetryResult, m: nat)
    requires s.pc.AtPublish?
  {
    && t.snapshot.publishAttempt == (if trial(m).active then m else m - 1)
    && match r
       case Succeeded => t.pc == Published(s.pc.request)
       case GaveUp(_) => t.pc == Throwing(JobFailure(PublishFailed, true))
       case JobCancelled => t.pc == Throwing(CANCELLED) && t.snapshot.failure == Some(CANCELLED)
  }

  lemma PublishLast(env: Env, s: State, n: nat, taken: bool, cancelled: bool)
    requires Offering(env, s, n) && (taken || n > env.publishRetries)
    ensures
      var steps := (if cancelled then [Cancel] else []) + [Resume(RelayAnswer(taken))];
      var t := RunFrom(env, s, steps);
      && t.Some? && t.value.snapshot.publishAttempt == n
      && t.value.pc == if taken then Published(s.pc.request) else Throwing(JobFailure(PublishFailed, true))
  {
    hide RunFrom;
    var input := RelayAnswer(taken);
    if cancelled {
      RunCons(env, s, Cancel, [Resume(input)]);
      RunOne(env, CancelJob(s), Resume(input));
    } else {
      RunOne(env, s, Resume(input));
      assert [] + [Resume(input)] == [Resume(input)];
    }
  }

  lemma PublishCancelled(env: Env, s: State, n: nat, quit: Quit)
    requires Offering(env, s, n) && n <= env.publishRetries && quit != Never
    ensures
      var steps := if quit == WhileAsking then [Cancel] + [Resume(Refused)] + [Resume(DelayOver)]
                   else [] + [Resume(Refused)] + [Cancel];
      var t := RunFrom(env, s, steps);
      && t.Some? && t.value.snapshot.publishAttempt == n && t.value.pc == Throwing(CANCELLED)
      && t.value.snapshot.failure == Some(CANCELLED)
  {
    hide RunFrom, Settles;
    if quit == WhileAsking {
      assert [Cancel] + [Resume(Refused)] + [Resume(DelayOver)] == [Cancel] + ([Resume(Refused)] + [Resume(DelayOver)]);
      RunCons(env, s, Cancel, [Resume(Refused)] + [Resume(DelayOver)]);
      RunCons(env, CancelJob(s), Resume(Refused), [Resume(DelayOver)]);
      RunOne(env, Next(env, CancelJob(s), Resume(Refused)), Resume(DelayOver));
    } else {
      assert [] + [Resume(Refused)] + [Cancel] == [Resume(Refused)] + [Cancel];
      RunCons(env, s, Resume(Refused), [Cancel]);
      RunOne(env, Next(env, s, Resume(Refused)), Cancel);
    }
  }

  /** A refusal within the budget, and the delay after it, lead to the next attempt. */
  lemma PublishTriesAgain(env: Env, s: State, n: nat)
    requires Offering(env, s, n) && n <= env.publishRetries
    ensures
      var t := RunFrom(env, s, [Resume(Refused), Resume(DelayOver)]);
      && t.Some? && Offering(env, t.value, n + 1)
      && t.value.pc == AtPublish(s.pc.event, s.pc.request, n + 1)
      && t.value == s.(pc := t.value.pc, snapshot := s.snapshot.(publishAttempt := n + 1))
  {
    var u := Next(env, s, Resume(Refused));
    RunTwo(env, s, Resume(Refused), Resume(DelayOver), Next(env, u, Resume(DelayOver)));
    hide RunFrom;
  }

  lemma PublishSpecLast(retries: nat, takes: Relays, quits: nat -> Quit, n: nat)
    requires n >= 1 && (n == 1 || quits(n - 1) == Never) && (takes(n) || n > retries)
    ensures R.PublishFrom(retries, PublishTrials(takes, quits), n)
         == (if takes(n) then R.Succeeded else R.GaveUp(true), n)
    ensures PublishSteps(retries, takes, quits, n)
         == (if quits(n) == WhileAsking then [Cancel] else []) + [Resume(RelayAnswer(takes(n)))]
    ensures PublishTrials(takes, quits)(n).active
  {
  }

  lemma PublishSpecCancelled(retries: nat, takes: Relays, quits: nat -> Quit, n: nat)
    requires n >= 1 && (n == 1 || quits(n - 1) == Never) && !takes(n) && n <= retries && quits(n) != Never
    ensures R.PublishFrom(retries, PublishTrials(takes, quits), n)
         == (R.JobCancelled, if quits(n) == WhileAsking then n + 1 else n)
    ensures PublishSteps(retries, takes, quits, n) ==
      if quits(n) == WhileAsking then [Cancel] + [Resume(Refused)] + [Resume(DelayOver)]
      else [] + [Resume(Refused)] + [Cancel]
    ensures PublishTrials(takes, quits)(n).active
    ensures quits(n) == WhileAsking ==> !PublishTrials(takes, quits)(n + 1).active
  {
  }

  lemma PublishSpecAgain(retries: nat, takes: Relays, quits: nat -> Quit, n: nat)
    requires n >= 1 && (n == 1 || quits(n - 1) == Never) && !takes(n) && n <= retries && quits(n) == Never
    ensures R.PublishFrom(retries, PublishTrials(takes, quits), n)
         == R.PublishFrom(retries, PublishTrials(takes, quits), n + 1)
    ensures PublishSteps(retries, takes, quits, n)
         == [Resume(Refused), Resume(DelayOver)] + PublishSteps(retries, takes, quits, n + 1)
  {
    var rest := PublishSteps(retries, takes, quits, n + 1);
    assert [] + [Resume(Refused)] + ([Resume(DelayOver)] + rest) == [Resume(Refused), Resume(DelayOver)] + rest;
  }

  /** The machine's publications end as `publishWithRetry` does, at the same attempt. */
  lemma {:induction false} PublishLoopRefines(env: Env, s: State, takes: Relays, quits: nat -> Quit, n: nat)
    requires Offering(env, s, n) && (n == 1 || quits(n - 1) == Never)
    ensures
      var (r, m) := R.PublishFrom(env.publishRetries, PublishTrials(takes, quits), n);
      var t := RunFrom(env, s, PublishSteps(env.publishRetries, takes, quits, n));
      && m >= n && t.Some? && PublishEnds(s, t.value, PublishTrials(takes, quits), r, m)
    decreases env.publishRetries + 1 - n
  {
    hide RunFrom, PublishSteps, R.PublishFrom, PublishTrials, Active;
    if takes(n) || n > env.publishRetries {
      PublishLast(env, s, n, takes(n), quits(n) == WhileAsking);
      PublishSpecLast(env.publishRetries, takes, quits, n);
    } else if quits(n) != Never {
      PublishCancelled(env, s, n, quits(n));
      PublishSpecCancelled(env.publishRetries, takes, quits, n);
    } else {
      PublishTriesAgain(env, s, n);
      PublishSpecAgain(env.publishRetries, takes, quits, n);
      var again := [Resume(Refused), Resume(DelayOver)];
      PublishLoopRefines(env, RunFrom(env, s, again).value, takes, quits, n + 1);
      RunConcat(env, s, again, PublishSteps(env.publishRetries, takes, quits, n + 1));
    }
  }

  // ---- how a job fails ---------------------------------------------------

  /** A job whose body throws ends failed, with what was thrown. */
  lemma ThrownEndsFailed(env: Env, s: State)
    requires s.pc.Throwing? && s.snapshot.phase != JobFailed
    ensures
      var t := RunFrom(env, s, [Resume(Go), Resume(Go)]);
      && t.Some? && t.value.pc.Idle? && t.value.snapshot.phase == JobFailed
      && t.value.snapshot.failure == Some(s.pc.failure)
  {
    RunTwo(env, s, Resume(Go), Resume(Go), Next(env, Next(env, s, Resume(Go)), Resume(Go)));
  }

  /** A waiting job, undisturbed so far. */
  predicate IsWaiting(s: State) {
    s.pc.AtWait? && s.subscribed && Active(s) && s.snapshot.phase == AwaitingResult
  }

  /** A valid error result ends the job with the provider's code; the client may retry busy, proving, artifact and
      internal failures, and no others. */
  lemma ProviderErrorEndsJob(env: Env, s: State, e: Event, now: nat)
    requires IsWaiting(s) && Settles(JudgeOf(env, s.pc.request), s.pc.history, Delivered(e, now)).Some?
    requires env.validateResult(e, s.pc.request, now).Some?
    requires env.validateResult(e, s.pc.request, now).value.ErrorResult?
    ensures
      var content := env.validateResult(e, s.pc.request, now).value;
      var code := content.error.code;
      var t := RunFrom(env, s, [Resume(Hears(Delivered(e, now))), Resume(Go)]);
      && t.Some? && t.value.pc == Finishing && !t.value.subscribed
      && t.value.snapshot == s.snapshot.(
           phase := JobFailed, result := Some(Received(e, content)),
           failure := Some(JobFailure(
             FromProvider(code),
             code != InvalidRequest && code != UnsupportedService && code != ExpiredCode && code != Duplicate)))
  {
    hide Ids;
    var u := Next(env, s, Resume(Hears(Delivered(e, now))));
    RunTwo(env, s, Resume(Hears(Delivered(e, now))), Resume(Go), Next(env, u, Resume(Go)));
    hide RunFrom;
  }

  /** No result in time ends the job for now: it may be retried. */
  lemma TimeoutEndsJob(env: Env, s: State)
    requires IsWaiting(s)
    ensures
      var t := RunFrom(env, s, [Resume(Hears(TimedOut)), Resume(Go)]);
      && t.Some? && t.value.pc == Finishing && !t.value.subscribed
      && t.value.snapshot == s.snapshot.(phase := JobFailed, failure := Some(JobFailure(NoResult, true)))
      && forall build :: Enabled(env, t.value, Retry(build))
  {
    var u := Next(env, s, Resume(Hears(TimedOut)));
    RunTwo(env, s, Resume(Hears(TimedOut)), Resume(Go), Next(env, u, Resume(Go)));
    hide RunFrom;
  }

  /** A success under another program ends the job for good, before anything is downloaded. */
  lemma UntrustedProgramEndsJob(env: Env, s: State, e: Event, now: nat)
    requires IsWaiting(s) && Settles(JudgeOf(env, s.pc.request), s.pc.history, Delivered(e, now)).Some?
    requires env.validateResult(e, s.pc.request, now).Some?
    requires
      var content := env.validateResult(e, s.pc.request, now).value;
      content.SuccessResult? && content.proof.programHash != env.trustedHash
    ensures
      var t := RunFrom(env, s, [Resume(Hears(Delivered(e, now))), Resume(Go)]);
      && t.Some? && t.value.pc == Finishing && t.value.snapshot.phase == JobFailed
      && t.value.snapshot.failure == Some(JobFailure(UntrustedProgram, false)) && t.value.snapshot.proofAttempt
           == s.snapshot.proofAttempt
  {
    hide Ids;
    var u := Next(env, s, Resume(Hears(Delivered(e, now))));
    RunTwo(env, s, Resume(Hears(Delivered(e, now))), Resume(Go), Next(env, u, Resume(Go)));
    hide RunFrom;
  }

  /** A proof that the verifier does not accept ends the job for good. */
  lemma RejectedProofEndsJob(env: Env, s: State)
    requires s.pc.AtVerify? && s.pc.result.content.SuccessResult? && s.snapshot.phase == Verifying
    requires env.verify(s.pc.proofBytes, env.trustedHash, s.pc.result.content.statement) != Some(true)
    ensures
      var t := RunFrom(env, s, [Resume(VerifierAnswers), Resume(Go)]);
      && t.Some? && t.value.pc == Finishing && t.value.snapshot.phase == JobFailed
      && t.value.snapshot.failure == Some(JobFailure(VerificationFailed, false)) && t.value.snapshot.verified
           == s.snapshot.verified
  {
    var u := Next(env, s, Resume(VerifierAnswers));
    RunTwo(env, s, Resume(VerifierAnswers), Resume(Go), Next(env, u, Resume(Go)));
    hide RunFrom;
  }

  /** What comes of the signer: its failure ends the job, an event that the job's own validator refuses ends it for
      good, and a valid one is published under the request it parses to. */
  lemma SigningEnds(env: Env, s: State, input: Input)
    requires s.pc.AtSign? && Active(s) && s.snapshot.phase == Publishing && Fits(env, s, input)
    ensures
      var t := Next(env, s, Resume(input));
      match input
      case SignFails(failure) => t.pc == Finishing && t.snapshot == Fail(s, failure).snapshot
      case Signed(event, now) =>
        (match env.validateRequest(event, now)
         case None =>
           t.pc == Finishing && t.snapshot.phase == JobFailed
           && t.snapshot.failure == Some(JobFailure(ValidationFailed, false))
         case Some(request) =>
           Offering(env, t, 1) && t.pc == AtPublish(event, request, 1) && t.snapshot.request == Some(request))
      case _ => false
  {
  }

  /** What a run that starts now looks like. */
  predicate Begun(t: State) {
    && t.pc.AtSign? && Active(t)
    && t.snapshot == Snapshot(Publishing, None, None, None, None, 0, 0)
  }

  /** A retry of a job whose body has ended starts it afresh under a new controller: nothing is left of the failed run,
      and no earlier cancellation reaches the new one. */
  lemma RetryStartsAfresh(env: Env, s: State)
    requires Enabled(env, s, Retry(None)) && s.pc.Idle? && forall c :: c in s.aborted ==> c <= s.controller
    ensures
      var t := Next(env, s, Retry(None));
      && Begun(t) && t.controller == s.controller + 1 && t.runs == s.runs + 1 && t.pending == s.pending
      && t.aborted == s.aborted
  {
  }

  /** A retry while the failed body is still ending waits for it, and then does the same. */
  lemma RetryWaitsForBody(env: Env, s: State)
    requires Enabled(env, s, Retry(None)) && s.pc.Finishing? && forall c :: c in s.aborted ==> c <= s.controller
    ensures
      var t := RunFrom(env, s, [Retry(None)] + [Resume(Go), RetryResume(s.runs, None)]);
      && t.Some? && Begun(t.value) && t.value.controller == s.controller + 1 && t.value.runs == s.runs + 1
      && t.value.pending == s.pending
    ensures !Enabled(env, Next(env, s, Retry(None)), RetryResume(s.runs, None))
  {
    var t := Next(env, s, Retry(None));
    var u := Next(env, t, Resume(Go));
    assert u.pending == s.pending + multiset{s.runs};
    RunTwo(env, t, Resume(Go), RetryResume(s.runs, None), Next(env, u, RetryResume(s.runs, None)));
    hide RunFrom;
    RunCons(env, s, Retry(None), [Resume(Go), RetryResume(s.runs, None)]);
  }

  /** A retry that waits is resumed only after the run it waited for. */
  lemma RetryWaitsForItsRun(env: Env, s: State, id: nat, build: Option<JobFailure>)
    requires Enabled(env, s, RetryResume(id, build))
    ensures id in s.pending && (s.pc.Idle? || id < s.runs)
    ensures Next(env, s, RetryResume(id, build)).pending == s.pending - multiset{id}
  {
    hide Restart;
    RestartKeepsPending(s.(pending := s.pending - multiset{id}), build);
  }

  lemma RestartKeepsPending(s: State, build: Option<JobFailure>)
    ensures Restart(s, build).pending == s.pending
  {
  }

  /** A request that cannot be built ends the job before anything is signed. */
  lemma UnbuiltEndsJob(env: Env, failure: JobFailure)
    ensures
      var t := RunFrom(env, Initial(), [Start(Some(failure)), Resume(Go)]);
      && t.Some? && t.value.pc.Idle? && t.value.snapshot.phase == JobFailed
      && t.value.snapshot.failure == Some(failure) && t.value.snapshot.publishAttempt == 0
  {
    var t := Next(env, Initial(), Start(Some(failure)));
    RunTwo(env, Initial(), Start(Some(failure)), Resume(Go), Next(env, t, Resume(Go)));
    hide RunFrom;
  }

  /** What a cancellation wakes: the wait or the delay that listens to the current controller. */
  predicate Listens(s: State) {
    match s.pc
    case AtWait(_, _, armed) => armed == Some(s.controller)
    case AtPublishDelay(_, _, _, armed) => armed == Some(s.controller)
    case AtFetchDelay(_, _, _, armed) => armed == Some(s.controller)
    case _ => false
  }

  /** A cancellation takes effect at once: the job has failed for good, its controller is aborted and its subscription
      closed; a listening wait or delay is over, and whatever else is pending goes on until it looks; and a job that
      has already ended is left alone. */
  lemma CancelTakesEffect(env: Env, s: State)
    ensures
      var t := Next(env, s, Cancel);
      if s.snapshot.phase == Verified || s.snapshot.phase == JobFailed then t == s
      else
        t == s.(
          snapshot := s.snapshot.(phase := JobFailed, failure := Some(JobFailure(CancelledLocally, false))),
          aborted := s.aborted + {s.controller}, subscribed := false,
          pc :=
            if !Listens(s) then s.pc
            else if s.pc.AtWait? then WaitOver(s.pc.request, Failure(JobFailure(CancelledLocally, false)))
            else Throwing(JobFailure(CancelledLocally, false)))
  {
  }

  /** Nothing is left to await of a cancelled job that was listening: three steps end it. */
  lemma CancelledWaitEnds(env: Env, s: State)
    requires Listens(s) && s.snapshot.phase != Verified && s.snapshot.phase != JobFailed
    ensures
      var t := RunFrom(env, s, [Cancel] + [Resume(Go), Resume(Go)]);
      && t.Some? && t.value.pc.Idle? && !t.value.subscribed && t.value.controller in t.value.aborted
      && t.value.snapshot.phase == JobFailed && t.value.snapshot.failure == Some(CANCELLED)
  {
    var t := Next(env, s, Cancel);
    RunTwo(env, t, Resume(Go), Resume(Go), Next(env, Next(env, t, Resume(Go)), Resume(Go)));
    hide RunFrom;
    RunCons(env, s, Cancel, [Resume(Go), Resume(Go)]);
  }

  // ---- undisturbed loops that succeed ------------------------------------

  function Calm(): nat -> Quit {
    (n: nat) => Never
  }

  /** Relays that take the request after so many refusals. */
  function After(refusals: nat): Relays {
    (n: nat) => n > refusals
  }

  /** A server that delivers after these failures. */
  function Eventually(failures: seq<FetchError>, exchange: Exchange, proofBytes: seq<Bytes.Byte>): nat -> Input {
    (n: nat) => if 1 <= n <= |failures| then FetchFails(failures[n - 1]) else FetchOk(exchange, proofBytes)
  }

  lemma PublishesNow(env: Env, s: State, n: nat, takes: Relays)
    requires Offering(env, s, n) && takes(n)
    ensures RunFrom(env, s, PublishSteps(env.publishRetries, takes, Calm(), n))
         == Some(s.(snapshot := s.snapshot.(publishAttempt := n), pc := Published(s.pc.request)))
  {
    PublishSpecLast(env.publishRetries, takes, Calm(), n);
    RunOne(env, s, Resume(Acknowledged));
    hide RunFrom, PublishSteps;
    assert [] + [Resume(Acknowledged)] == [Resume(Acknowledged)];
  }

  /** Up to `publishRetries` refusals are survived. */
  lemma {:induction false} PublishesAfter(env: Env, s: State, n: nat, refusals: nat)
    requires Offering(env, s, n) && n <= refusals + 1 <= env.publishRetries + 1
    ensures RunFrom(env, s, PublishSteps(env.publishRetries, After(refusals), Calm(), n))
         == Some(s.(snapshot := s.snapshot.(publishAttempt := refusals + 1), pc := Published(s.pc.request)))
    decreases refusals + 1 - n
  {
    hide RunFrom, PublishSteps, PublishTrials, Active;
    var takes := After(refusals);
    if n == refusals + 1 {
      PublishesNow(env, s, n, takes);
    } else {
      PublishTriesAgain(env, s, n);
      PublishSpecAgain(env.publishRetries, takes, Calm(), n);
      var again := [Resume(Refused), Resume(DelayOver)];
      var t := RunFrom(env, s, again).value;
      PublishesAfter(env, t, n + 1, refusals);
      RunConcat(env, s, again, PublishSteps(env.publishRetries, takes, Calm(), n + 1));
    }
  }

  lemma FetchesNow(
    env: Env, s: State, n: nat, answers: nat -> Input, exchange: Exchange, proofBytes: seq<Bytes.Byte>)
    requires Downloading(env, s, n) && answers(n) == FetchOk(exchange, proofBytes)
    requires FetchAnswer(env, s.pc.result, answers(n))
    ensures RunFrom(env, s, FetchSteps(env.proofRetries, answers, Calm(), n))
         == Some(s.(snapshot := s.snapshot.(proofAttempt := n),
                    pc := FetchDone(s.pc.request, s.pc.result, proofBytes)))
  {
    hide Delivers;
    FetchSpecLast(env.proofRetries, answers, Calm(), n);
    RunOne(env, s, Resume(answers(n)));
    hide RunFrom, FetchSteps;
    assert [] + [Resume(answers(n))] == [Resume(answers(n))];
  }

  /** Up to `proofRetries` retryable failures are survived. */
  lemma {:induction false} FetchesAfter(
    env: Env, s: State, n: nat, failures: seq<FetchError>, exchange: Exchange, proofBytes: seq<Bytes.Byte>)
    requires Downloading(env, s, n) && n <= |failures| + 1 <= env.proofRetries + 1
    requires forall i :: 0 <= i < |failures| ==> failures[i].retryable
    requires FetchAnswer(env, s.pc.result, FetchOk(exchange, proofBytes))
    ensures RunFrom(
      env, s, FetchSteps(env.proofRetries, Eventually(failures, exchange, proofBytes), Calm(), n))
      == Some(s.(snapshot := s.snapshot.(proofAttempt := |failures| + 1),
                 pc := FetchDone(s.pc.request, s.pc.result, proofBytes)))
    decreases |failures| + 1 - n
  {
    hide RunFrom, FetchSteps, FetchTrials, Active, FetchAnswer;
    var answers := Eventually(failures, exchange, proofBytes);
    if n == |failures| + 1 {
      FetchesNow(env, s, n, answers, exchange, proofBytes);
    } else {
      FetchTriesAgain(env, s, n, answers(n));
      FetchSpecAgain(env.proofRetries, answers, Calm(), n);
      var again := [Resume(answers(n)), Resume(DelayOver)];
      var t := RunFrom(env, s, again).value;
      FetchesAfter(env, t, n + 1, failures, exchange, proofBytes);
      RunConcat(env, s, again, FetchSteps(env.proofRetries, answers, Calm(), n + 1));
    }
  }
}
