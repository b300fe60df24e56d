/**
 The job records that the worker (axiom-queue/worker.py) and the watchdog (axiom-queue/watchdog.py)
 write, as functions of the record they hold and the clock they read.
 */
module Records {
  import opened Wrappers
  import opened Stamp
  import opened Yaml
  import opened Jobs
  import opened Retry

  /** The three shapes `execute` produces. */
  datatype Outcome = Returned(result: Meta) | Raised(error: string) | RaisedFatal(error: string)

  function CreatePendingJob(id: string, kind: string, payload: Meta, maxAttempts: int, now: string): Job {
    Job(id, kind, Pending, now, now, 0, maxAttempts, payload, None, None, None, None, None, None)
  }

  predicate Claimable(job: Job, now: string) {
    job.status == Pending || (job.status == Failed && IsReadyToRetry(job.nextAttemptAt, now))
  }

  function ClaimedForm(job: Job, workerId: string, now: string): Job {
    job.(status := Running, updatedAt := now, attempts := job.attempts + 1, result := None, error := None,
         nextAttemptAt := None, workerId := Some(workerId), claimedAt := Some(now))
  }

  function Decide(job: Job, outcome: Outcome, decided: int): Result<RetryDecision, RetryError> {
    match outcome
    case Returned(_) => Ok(AFTER_SUCCESS)
    case RaisedFatal(_) => Ok(TO_DEAD)
    case Raised(_) => DecideAfterFailure(job.attempts, job.maxAttempts, decided)
  }

  /** The record `resolve` writes over the copy in flight; an error is an exception before the write. */
  function ResolvedForm(job: Job, outcome: Outcome, decided: int, now: string): Result<Job, RetryError> {
    match Decide(job, outcome, decided)
    case Err(e) => Err(e)
    case Ok(d) =>
      Ok(job.(status := d.nextStatus, updatedAt := now,
              result := if outcome.Returned? then Some(outcome.result) else None,
              error := if outcome.Returned? then None else Some(outcome.error),
              nextAttemptAt := d.nextAttemptAt, workerId := None, claimedAt := None))
  }

  function ReclaimedForm(job: Job, now: string): Job {
    job.(status := Pending, updatedAt := now, result := None, error := None,
         nextAttemptAt := None, workerId := None, claimedAt := None)
  }

  predicate Terminal(job: Job) {
    job.status == Succeeded || job.status == Dead
  }

  const STALL_THRESHOLD_SECONDS := 300.0

  /** Seconds from `ts` to `now`; `None` is the `ValueError` of a stamp that does not parse. */
  function SecondsSince(ts: string, now: string): Option<int> {
    if Parse(ts).Some? && Parse(now).Some? then Some(SecondsOf(now) - SecondsOf(ts)) else None
  }

  predicate IsStalled(job: Job, threshold: real, now: string) {
    && job.status == Running
    && (job.claimedAt.None?
        || match SecondsSince(job.claimedAt.value, now)
           case None => true
           case Some(elapsed) => 0 <= elapsed && elapsed as real >= threshold)
  }

  /** The jobs a worker may take: pending ones, and failed ones with no time set or one that has come. */
  lemma ClaimableExactly(job: Job, now: string)
    requires Parse(now).Some? && (job.nextAttemptAt.Some? ==> Parse(job.nextAttemptAt.value).Some?)
    ensures Claimable(job, now) <==>
      || job.status == Pending
      || (job.status == Failed && job.nextAttemptAt.None?)
      || (job.status == Failed && SecondsOf(job.nextAttemptAt.value) <= SecondsOf(now))
  {
    hide SecondsOf;
    if job.nextAttemptAt.Some? {
      ReadyExactly(job.nextAttemptAt.value, now);
    }
  }

  /**
   The jobs a watchdog takes for stalled: running ones with no claim stamp or one that does not parse, and those
   claimed at least the threshold of whole seconds ago and not in the future.
   */
  lemma StalledExactly(job: Job, threshold: real, now: int)
    requires InRange(now)
    ensures job.status != Running ==> !IsStalled(job, threshold, NowIso(now))
    ensures job.status == Running && (job.claimedAt.None? || Parse(job.claimedAt.value).None?) ==>
      IsStalled(job, threshold, NowIso(now))
    ensures forall claimed ::
      job.status == Running && InRange(claimed) && job.claimedAt == Some(NowIso(claimed)) ==>
        var whole := now / 1_000_000 - claimed / 1_000_000;
        (IsStalled(job, threshold, NowIso(now)) <==> whole >= 0 && whole as real >= threshold)
  {
    hide NowIso;
    hide Parse;
    hide SecondsOf;
    NowIsoParses(now);
    forall claimed | InRange(claimed) && job.claimedAt == Some(NowIso(claimed))
      ensures SecondsSince(NowIso(claimed), NowIso(now)) == Some(now / 1_000_000 - claimed / 1_000_000)
    {
      NowIsoParses(claimed);
    }
  }

  /** With the default threshold a stall spans more than 299 seconds of real time. */
  lemma StalledMeansWaited(job: Job, claimed: int, now: int)
    requires InRange(claimed) && InRange(now)
    requires job.claimedAt == Some(NowIso(claimed)) && IsStalled(job, STALL_THRESHOLD_SECONDS, NowIso(now))
    ensures now - claimed > Micros(299)
  {
    hide NowIso;
    hide Parse;
    hide SecondsOf;
    NowIsoParses(claimed);
    NowIsoParses(now);
    var elapsed := WholeSeconds(now) - WholeSeconds(claimed);
    assert SecondsSince(NowIso(claimed), NowIso(now)) == Some(elapsed);
    assert elapsed >= 300;
  }

  /** And a running job is stalled once 300 seconds of real time have passed. */
  lemma WaitedMeansStalled(job: Job, claimed: int, now: int)
    requires InRange(claimed) && InRange(now) && now - claimed >= Micros(300)
    requires job.status == Running && job.claimedAt == Some(NowIso(claimed))
    ensures IsStalled(job, STALL_THRESHOLD_SECONDS, NowIso(now))
  {
    hide NowIso;
    hide Parse;
    hide SecondsOf;
    NowIsoParses(claimed);
    NowIsoParses(now);
    assert WholeSeconds(now) - WholeSeconds(claimed) >= 300;
  }

  lemma ElapsedGrows(ts: string, a: int, b: int)
    requires InRange(a) && InRange(b) && a <= b
    ensures SecondsSince(ts, NowIso(a)).None? <==> SecondsSince(ts, NowIso(b)).None?
    ensures SecondsSince(ts, NowIso(a)).Some? ==>
              SecondsSince(ts, NowIso(a)).value <= SecondsSince(ts, NowIso(b)).value
  {
    hide NowIso;
    hide Parse;
    hide SecondsOf;
    NowIsoParses(a);
    NowIsoParses(b);
  }

  /** The clock going on never ends a stall, whatever the threshold and the claim stamp. */
  lemma StalledStaysStalled(job: Job, threshold: real, a: int, b: int)
    requires InRange(a) && InRange(b) && a <= b
    requires IsStalled(job, threshold, NowIso(a))
    ensures IsStalled(job, threshold, NowIso(b))
  {
    hide NowIso;
    hide Parse;
    hide SecondsOf;
    if job.claimedAt.Some? {
      ElapsedGrows(job.claimedAt.value, a, b);
    }
  }

  lemma ClaimableStaysClaimable(job: Job, a: int, b: int)
    requires InRange(a) && InRange(b) && a <= b && Claimable(job, NowIso(a))
    ensures Claimable(job, NowIso(b))
  {
    if job.status == Failed {
      ReadyStaysReady(job.nextAttemptAt, a, b);
    }
  }
}
