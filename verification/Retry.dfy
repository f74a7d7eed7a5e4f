/** The two attempt loops of a job, packages/soul-sdk/src/client.ts:282-303 and 370-395. What each attempt meets is an
    input. */
module Retry {
  datatype Outcome = Ok | Failed(retryable: bool)

  /** Attempt `n`: the job is still active before it; how it ends; whether the delay after it runs out undisturbed. */
  datatype Trial = Trial(active: bool, outcome: Outcome, delayed: bool)

  datatype RetryResult = Succeeded | GaveUp(retryable: bool) | JobCancelled

  /** Failed, then waited, then the next attempt. */
  predicate Passed(t: Trial) {
    t.active && t.outcome.Failed? && t.delayed
  }

  /** The attempt at which the loop stops, if all before it passed. */
  predicate ReachedBy(trial: nat -> Trial, n: nat) {
    n >= 1 && forall k :: 1 <= k < n ==> Passed(trial(k))
  }

  /** How the publication loop ends from attempt `n` on, and at which attempt. */
  function PublishFrom(retries: nat, trial: nat -> Trial, n: nat): (RetryResult, nat)
    decreases retries + 1 - n
  {
    var t := trial(n);
    if !t.active then (JobCancelled, n)
    else if t.outcome.Ok? then (Succeeded, n)
    else if n > retries then (GaveUp(true), n)
    else if !t.delayed then (JobCancelled, n)
    else PublishFrom(retries, trial, n + 1)
  }

  /** How the download loop ends from attempt `n` on, and at which attempt. */
  function FetchFrom(retries: nat, trial: nat -> Trial, n: nat): (RetryResult, nat)
    decreases retries + 1 - n
  {
    var t := trial(n);
    if !t.active then (JobCancelled, n)
    else
      match t.outcome
      case Ok => (Succeeded, n)
      case Failed(retryable) =>
        if !retryable || n > retries then (GaveUp(retryable), n)
        else if !t.delayed then (JobCancelled, n)
        else FetchFrom(retries, trial, n + 1)
  }

  /** Total backoff is `delay * (1 + ... + delays)`. */
  predicate BackoffIs(backoff: nat, delay: nat, delays: nat) {
    2 * backoff == delay * (delays * (delays + 1))
  }

  lemma NextDelay(backoff: nat, delay: nat, n: nat)
    requires n >= 1 && BackoffIs(backoff, delay, n - 1)
    ensures BackoffIs(backoff + delay * n, delay, n)
  {
    calc {
      2 * (backoff + delay * n);
      delay * ((n - 1) * n) + 2 * (delay * n);
      { assert delay * ((n - 1) * n) + delay * (2 * n) == delay * ((n - 1) * n + 2 * n); }
      delay * ((n - 1) * n + 2 * n);
      { assert (n - 1) * n + 2 * n == n * (n + 1); }
      delay * (n * (n + 1));
    }
  }

  /** `publishWithRetry`: every failure is worth another attempt. */
  method PublishWithRetry(retries: nat, delay: nat, trial: nat -> Trial)
    returns (r: RetryResult, attempts: nat, delays: nat, backoff: nat)
    ensures 1 <= attempts <= retries + 1 && attempts - 1 <= delays <= attempts && delays <= retries
    ensures BackoffIs(backoff, delay, delays)
    ensures ReachedBy(trial, attempts) && !(attempts <= retries && Passed(trial(attempts)))
    ensures r.Succeeded? <==> trial(attempts).active && trial(attempts).outcome.Ok?
    ensures r.GaveUp? <==> attempts == retries + 1 && trial(attempts).active && trial(attempts).outcome.Failed?
    ensures r.GaveUp? ==> r.retryable
    ensures (r, attempts) == PublishFrom(retries, trial, 1)
  {
    attempts, delays, backoff := 1, 0, 0;
    while attempts <= retries + 1
      invariant 1 <= attempts <= retries + 1 && delays == attempts - 1
      invariant BackoffIs(backoff, delay, delays)
      invariant ReachedBy(trial, attempts)
      invariant PublishFrom(retries, trial, 1) == PublishFrom(retries, trial, attempts)
      decreases retries + 1 - attempts
    {
      if !trial(attempts).active {
        return JobCancelled, attempts, delays, backoff;
      }
      if trial(attempts).outcome.Ok? {
        return Succeeded, attempts, delays, backoff;
      }
      if attempts > retries {
        break;
      }
      NextDelay(backoff, delay, attempts);
      delays, backoff := delays + 1, backoff + delay * attempts;
      if !trial(attempts).delayed {
        return JobCancelled, attempts, delays, backoff;
      }
      attempts := attempts + 1;
    }
    return GaveUp(true), attempts, delays, backoff;
  }

  /** `fetchWithRetry`: a failure that is not worth a retry ends it at once. */
  method FetchWithRetry(retries: nat, delay: nat, trial: nat -> Trial)
    returns (r: RetryResult, attempts: nat, delays: nat, backoff: nat)
    ensures 1 <= attempts <= retries + 1 && attempts - 1 <= delays <= attempts && delays <= retries
    ensures BackoffIs(backoff, delay, delays)
    ensures ReachedBy(trial, attempts)
    ensures forall k :: 1 <= k < attempts ==> trial(k).outcome.retryable
    ensures r.Succeeded? <==> trial(attempts).active && trial(attempts).outcome.Ok?
    ensures r.GaveUp? <==>
      && trial(attempts).active && trial(attempts).outcome.Failed?
      && (!trial(attempts).outcome.retryable || attempts == retries + 1)
    ensures r.GaveUp? ==> r.retryable == trial(attempts).outcome.retryable
    ensures (r, attempts) == FetchFrom(retries, trial, 1)
    ensures r.JobCancelled? && trial(attempts).active ==> delays == attempts && !trial(attempts).delayed
  {
    attempts, delays, backoff := 1, 0, 0;
    while attempts <= retries + 1
      invariant 1 <= attempts <= retries + 1 && delays == attempts - 1
      invariant BackoffIs(backoff, delay, delays)
      invariant ReachedBy(trial, attempts)
      invariant FetchFrom(retries, trial, 1) == FetchFrom(retries, trial, attempts)
      invariant forall k :: 1 <= k < attempts ==> trial(k).outcome.retryable
      decreases retries + 1 - attempts
    {
      if !trial(attempts).active {
        return JobCancelled, attempts, delays, backoff;
      }
      match trial(attempts).outcome {
        case Ok =>
          return Succeeded, attempts, delays, backoff;
        case Failed(retryable) =>
          if !retryable || attempts > retries {
            return GaveUp(retryable), attempts, delays, backoff;
          }
      }
      NextDelay(backoff, delay, attempts);
      delays, backoff := delays + 1, backoff + delay * attempts;
      if !trial(attempts).delayed {
        return JobCancelled, attempts, delays, backoff;
      }
      attempts := attempts + 1;
    }
    assert false;
  }
}
