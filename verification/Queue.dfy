/**
 The job queue as a step system: a submitter, one worker, one watchdog and a clock over a shared map
 of job records, with a reclaim taken as one atomic step. A landed write appends to a history log;
 a write that fails, an exception and a crash all leave the record alone and lose the copy in flight.
 */
module Queue {
  import opened Wrappers
  import opened Stamp
  import opened Yaml
  import opened Jobs
  import opened Retry
  import opened Records

  datatype Worker = Idle | InFlight(job: Job)

  /** Landed writes, with the clock reading each was decided on. */
  datatype Event =
    | Claimed(id: string, worker: string, at: int)
    | Resolved(id: string, outcome: Outcome, status: Status, at: int, written: int)
    | Reclaimed(id: string, at: int)

  datatype State = State(disk: map<string, Job>, worker: Worker, clock: int, log: seq<Event>)

  /** Every `at` is a clock reading taken before the write lands, so it may lie in the past. */
  datatype Step =
    | Tick(now: int)
    | Submit(id: string, kind: string, payload: Meta, maxAttempts: int, at: int)
    | Claim(id: string, workerId: string, at: int)
    | Resolve(outcome: Outcome, decided: int, at: int)
    | Lose
    | Reclaim(id: string, at: int)

  predicate Read(s: State, at: int) {
    0 <= at <= s.clock && InRange(s.clock)
  }

  predicate Enabled(s: State, step: Step) {
    match step
    case Tick(now) => s.clock <= now && InRange(now)
    case Submit(id, _, _, _, at) => id !in s.disk && Read(s, at)
    case Claim(id, _, at) => s.worker.Idle? && id in s.disk && Read(s, at) && Claimable(s.disk[id], NowIso(at))
    case Resolve(outcome, decided, at) =>
      && s.worker.InFlight? && Read(s, decided) && Read(s, at) && decided <= at
      && ResolvedForm(s.worker.job, outcome, decided, NowIso(at)).Ok?
    case Lose => true
    case Reclaim(id, at) => id in s.disk && Read(s, at) && IsStalled(s.disk[id], STALL_THRESHOLD_SECONDS, NowIso(at))
  }

  function Apply(s: State, step: Step): State
    requires Enabled(s, step)
  {
    match step
    case Tick(now) => s.(clock := now)
    case Submit(id, kind, payload, maxAttempts, at) =>
      s.(disk := s.disk[id := CreatePendingJob(id, kind, payload, maxAttempts, NowIso(at))])
    case Claim(id, workerId, at) =>
      var job := ClaimedForm(s.disk[id], workerId, NowIso(at));
      s.(disk := s.disk[id := job], worker := InFlight(job), log := s.log + [Claimed(id, workerId, at)])
    case Resolve(outcome, decided, at) =>
      var job := ResolvedForm(s.worker.job, outcome, decided, NowIso(at)).value;
      s.(disk := s.disk[job.id := job], worker := Idle,
         log := s.log + [Resolved(job.id, outcome, job.status, decided, at)])
    case Lose => s.(worker := Idle)
    case Reclaim(id, at) =>
      s.(disk := s.disk[id := ReclaimedForm(s.disk[id], NowIso(at))], log := s.log + [Reclaimed(id, at)])
  }

  predicate Runs(s: State, steps: seq<Step>)
    decreases |steps|
  {
    steps == [] || (Enabled(s, steps[0]) && Runs(Apply(s, steps[0]), steps[1..]))
  }

  function Exec(s: State, steps: seq<Step>): State
    requires Runs(s, steps)
    decreases |steps|
  {
    if steps == [] then s else Exec(Apply(s, steps[0]), steps[1..])
  }

  predicate Fresh(id: string, job: Job) {
    && job.id == id && job.status == Pending && job.attempts == 0 && job.updatedAt == job.createdAt
    && job.result.None? && job.error.None? && job.nextAttemptAt.None? && job.workerId.None? && job.claimedAt.None?
    && job.tags.None?
  }

  /** Only freshly created jobs, and nobody at work. */
  predicate Init(s: State) {
    s.worker.Idle? && s.log == [] && InRange(s.clock) && forall id :: id in s.disk ==> Fresh(id, s.disk[id])
  }

  // ----- reading the log -----------------------------------------------------------------------

  datatype Tally = ClaimTally | ReclaimTally | SuccessTally

  predicate Counts(e: Event, id: string, tally: Tally) {
    && e.id == id
    && match tally
       case ClaimTally => e.Claimed?
       case ReclaimTally => e.Reclaimed?
       case SuccessTally => e.Resolved? && e.status == Succeeded
  }

  function Count(log: seq<Event>, id: string, tally: Tally): nat {
    if log == [] then 0
    else Count(log[..|log| - 1], id, tally) + if Counts(log[|log| - 1], id, tally) then 1 else 0
  }

  /** The last landed write of a job. */
  function Last(log: seq<Event>, id: string): Option<Event> {
    if log == [] then None
    else if log[|log| - 1].id == id then Some(log[|log| - 1])
    else Last(log[..|log| - 1], id)
  }

  lemma Appended(log: seq<Event>, e: Event, id: string)
    ensures Last(log + [e], id) == if e.id == id then Some(e) else Last(log, id)
    ensures forall tally ::
      Count(log + [e], id, tally) == Count(log, id, tally) + if Counts(e, id, tally) then 1 else 0
  {
    assert (log + [e])[..|log|] == log;
  }

  lemma {:induction false} NoEvents(log: seq<Event>, id: string)
    requires forall e :: e in log ==> e.id != id
    ensures Last(log, id) == None && forall tally :: Count(log, id, tally) == 0
  {
    if log != [] {
      assert log[|log| - 1] in log;
      NoEvents(log[..|log| - 1], id);
    }
  }

  // ----- what every state keeps ----------------------------------------------------------------

  /** Which optional fields a record carries, by status. */
  predicate Shape(job: Job) {
    && (job.status == Running <==> job.workerId.Some?)
    && (job.status == Running <==> job.claimedAt.Some?)
    && (job.status == Succeeded <==> job.result.Some?)
    && (job.status == Failed <==> job.nextAttemptAt.Some?)
    && (job.status == Failed || job.status == Dead <==> job.error.Some?)
  }

  /** Attempts against claims, reclaims and the job's own limit. */
  predicate Accounts(job: Job, claims: nat, reclaims: nat) {
    && job.attempts == claims
    && job.attempts <= Max(1, job.maxAttempts) + reclaims
    && (job.status == Pending ==> job.attempts < Max(1, job.maxAttempts) + reclaims)
    && (job.status == Running ==> job.attempts >= 1)
    && (job.status == Failed ==> 1 <= job.attempts < job.maxAttempts)
  }

  /**
   The last write of a job explains its record: where the status came from, and for a resolved job that
   its result or error is what the handler gave, with `dead` meaning fatal or out of attempts.
   */
  predicate Explained(job: Job, last: Option<Event>) {
    match job.status
    case Pending => if last.None? then job.attempts == 0 else last.value.Reclaimed?
    case Running => last.Some? && last.value.Claimed? && InRange(last.value.at)
                    && job.claimedAt == Some(NowIso(last.value.at)) && job.workerId == Some(last.value.worker)
    case Failed => last.Some? && last.value.Resolved? && last.value.status == Failed && Scheduled(job, last.value.at)
                   && job.error.Some? && last.value.outcome == Raised(job.error.value)
    case Succeeded => last.Some? && last.value.Resolved? && last.value.status == Succeeded
                      && job.result.Some? && last.value.outcome == Returned(job.result.value)
    case Dead => last.Some? && last.value.Resolved? && last.value.status == Dead && job.error.Some?
                 && (last.value.outcome == RaisedFatal(job.error.value)
                     || (last.value.outcome == Raised(job.error.value) && job.attempts >= job.maxAttempts))
  }

  /** The clock reading that a write stamped its record with. */
  function StampedAt(e: Event): int {
    if e.Resolved? then e.written else e.at
  }

  /** `updated_at` is the stamp of the last write, or of the submission. */
  predicate Stamped(job: Job, last: Option<Event>) {
    match last
    case None => job.updatedAt == job.createdAt
    case Some(e) => InRange(StampedAt(e)) && job.updatedAt == NowIso(StampedAt(e))
  }

  /** The retry time is the moment of the decision plus the backoff of this attempt. */
  predicate Scheduled(job: Job, decided: int) {
    && ComputeBackoff(job.attempts).Ok?
    && 0 <= decided && InRange(decided + Micros(ComputeBackoff(job.attempts).value))
    && job.nextAttemptAt == Some(NowIso(decided + Micros(ComputeBackoff(job.attempts).value)))
  }

  predicate RecordOk(job: Job, id: string, log: seq<Event>) {
    && job.id == id
    && Shape(job)
    && Accounts(job, Count(log, id, ClaimTally), Count(log, id, ReclaimTally))
    && Count(log, id, SuccessTally) == (if job.status == Succeeded then 1 else 0)
    && Explained(job, Last(log, id)) && Stamped(job, Last(log, id))
  }

  /** The copy in flight is the record on disk, or the record is what a reclaim made of that copy. */
  predicate CopyOk(s: State) {
    s.worker.InFlight? ==>
      var copy := s.worker.job;
      && copy.status == Running && copy.attempts >= 1
      && copy.id in s.disk
      && (s.disk[copy.id] == copy || s.disk[copy.id] == ReclaimedForm(copy, s.disk[copy.id].updatedAt))
  }

  predicate Inv(s: State) {
    && InRange(s.clock)
    && (forall id :: id in s.disk ==> RecordOk(s.disk[id], id, s.log))
    && (forall e :: e in s.log ==> e.id in s.disk)
    && CopyOk(s)
  }

  lemma InitInv(s: State)
    requires Init(s)
    ensures Inv(s)
  {
  }

  /** Appending an event of one job leaves the other records accounted for. */
  lemma OthersKept(disk: map<string, Job>, log: seq<Event>, e: Event)
    requires forall id :: id in disk ==> RecordOk(disk[id], id, log)
    ensures forall id :: id in disk && id != e.id ==> RecordOk(disk[id], id, log + [e])
  {
    forall id | id in disk && id != e.id ensures RecordOk(disk[id], id, log + [e]) {
      Appended(log, e, id);
    }
  }

  lemma ClaimedOk(job: Job, id: string, log: seq<Event>, workerId: string, at: int)
    requires RecordOk(job, id, log) && InRange(at) && Claimable(job, NowIso(at))
    ensures RecordOk(ClaimedForm(job, workerId, NowIso(at)), id, log + [Claimed(id, workerId, at)])
  {
    hide NowIso;
    Appended(log, Claimed(id, workerId, at), id);
  }

  /** The decision is `failed` only for an ordinary error with attempts to spare, and then it is scheduled. */
  lemma DecisionShape(copy: Job, outcome: Outcome, decided: int)
    requires 0 <= decided && Decide(copy, outcome, decided).Ok?
    ensures var d := Decide(copy, outcome, decided).value;
      && d.nextStatus in {Succeeded, Failed, Dead}
      && (d.nextStatus == Succeeded <==> outcome.Returned?)
      && (d.nextStatus == Failed ==> outcome.Raised?)
      && (d.nextStatus == Dead ==> outcome.RaisedFatal? || (outcome.Raised? && copy.attempts >= copy.maxAttempts))
      && (d.nextStatus == Failed <==> d.nextAttemptAt.Some?)
      && (d.nextStatus == Failed ==> 1 <= copy.attempts < copy.maxAttempts)
      && (d.nextStatus == Failed ==> Scheduled(copy.(nextAttemptAt := d.nextAttemptAt), decided))
  {
    hide NowIso;
    hide Pow2;
  }

  /** A late resolve is as good as a prompt one: the disk record only has to agree with the copy on attempts. */
  lemma ResolvedOk(copy: Job, record: Job, log: seq<Event>, outcome: Outcome, decided: int, at: int)
    requires copy.status == Running && RecordOk(record, copy.id, log)
    requires record == copy || record == ReclaimedForm(copy, record.updatedAt)
    requires 0 <= decided && InRange(at) && ResolvedForm(copy, outcome, decided, NowIso(at)).Ok?
    ensures var job := ResolvedForm(copy, outcome, decided, NowIso(at)).value;
      && job.id == copy.id
      && RecordOk(job, copy.id, log + [Resolved(copy.id, outcome, job.status, decided, at)])
  {
    hide NowIso;
    var job := ResolvedForm(copy, outcome, decided, NowIso(at)).value;
    var e := Resolved(copy.id, outcome, job.status, decided, at);
    Appended(log, e, copy.id);
    DecisionShape(copy, outcome, decided);
    assert record.attempts == copy.attempts && record.maxAttempts == copy.maxAttempts && record.status != Succeeded;
    assert Shape(job);
    assert Accounts(job, Count(log, copy.id, ClaimTally), Count(log, copy.id, ReclaimTally));
    assert job.status == Failed ==> Scheduled(job, decided) by {
      var d := Decide(copy, outcome, decided).value;
      assert job.attempts == copy.attempts && job.nextAttemptAt == d.nextAttemptAt;
    }
  }

  lemma ReclaimedOk(job: Job, id: string, log: seq<Event>, at: int)
    requires RecordOk(job, id, log) && job.status == Running && InRange(at)
    ensures RecordOk(ReclaimedForm(job, NowIso(at)), id, log + [Reclaimed(id, at)])
  {
    hide NowIso;
    Appended(log, Reclaimed(id, at), id);
  }

  lemma ClaimKeeps(s: State, step: Step)
    requires Inv(s) && step.Claim? && Enabled(s, step)
    ensures Inv(Apply(s, step))
  {
    hide NowIso;
    OthersKept(s.disk, s.log, Claimed(step.id, step.workerId, step.at));
    ClaimedOk(s.disk[step.id], step.id, s.log, step.workerId, step.at);
  }

  lemma ResolveKeeps(s: State, step: Step)
    requires Inv(s) && step.Resolve? && Enabled(s, step)
    ensures Inv(Apply(s, step))
  {
    hide NowIso;
    var copy := s.worker.job;
    var job := ResolvedForm(copy, step.outcome, step.decided, NowIso(step.at)).value;
    ResolvedOk(copy, s.disk[copy.id], s.log, step.outcome, step.decided, step.at);
    OthersKept(s.disk, s.log, Resolved(copy.id, step.outcome, job.status, step.decided, step.at));
  }

  lemma ReclaimKeeps(s: State, step: Step)
    requires Inv(s) && step.Reclaim? && Enabled(s, step)
    ensures Inv(Apply(s, step))
  {
    hide NowIso;
    OthersKept(s.disk, s.log, Reclaimed(step.id, step.at));
    ReclaimedOk(s.disk[step.id], step.id, s.log, step.at);
  }

  lemma SubmitKeeps(s: State, step: Step)
    requires Inv(s) && step.Submit? && Enabled(s, step)
    ensures Inv(Apply(s, step))
  {
    hide NowIso;
    NoEvents(s.log, step.id);
  }

  lemma StepKeeps(s: State, step: Step)
    requires Inv(s) && Enabled(s, step)
    ensures Inv(Apply(s, step))
  {
    match step
    case Claim(_, _, _) => ClaimKeeps(s, step);
    case Resolve(_, _, _) => ResolveKeeps(s, step);
    case Reclaim(_, _) => ReclaimKeeps(s, step);
    case Submit(_, _, _, _, _) => SubmitKeeps(s, step);
    case Tick(_) =>
    case Lose =>
  }

  /** The invariant over whole runs: every record is shaped, accounted for and explained by its last write. */
  lemma {:induction false} RunKeeps(s: State, steps: seq<Step>)
    requires Inv(s) && Runs(s, steps)
    ensures Inv(Exec(s, steps))
    decreases |steps|
  {
    if steps != [] {
      StepKeeps(s, steps[0]);
      RunKeeps(Apply(s, steps[0]), steps[1..]);
    }
  }

  /** From freshly created jobs, whatever crashes, fails or resolves late. */
  lemma AttemptAccounting(s: State, steps: seq<Step>, id: string)
    requires Init(s) && Runs(s, steps) && id in Exec(s, steps).disk
    ensures var end := Exec(s, steps);
      var job := end.disk[id];
      && job.attempts == Count(end.log, id, ClaimTally)
      && job.attempts <= Max(1, job.maxAttempts) + Count(end.log, id, ReclaimTally)
      && (job.status == Failed ==> job.attempts < job.maxAttempts)
      && Count(end.log, id, SuccessTally) <= 1
      && Shape(job)
  {
    InitInv(s);
    RunKeeps(s, steps);
  }

  /**
   A claim takes a job past its limit exactly when the job is pending with no attempt left, and so has been
   reclaimed.
   */
  lemma ClaimOverLimit(s: State, step: Step)
    requires Inv(s) && Enabled(s, step) && step.Claim?
    ensures var job := s.disk[step.id];
      && (Apply(s, step).disk[step.id].attempts > Max(1, job.maxAttempts)
          <==> job.status == Pending && job.attempts >= Max(1, job.maxAttempts))
      && (job.status == Pending && job.attempts >= Max(1, job.maxAttempts) ==>
            Last(s.log, step.id).Some? && Last(s.log, step.id).value.Reclaimed?)
  {
    hide NowIso;
    assert RecordOk(s.disk[step.id], step.id, s.log);
  }

  // ----- terminal records and attempts along a run -----------------------------------------------

  lemma StepTerminal(s: State, step: Step, id: string)
    requires Inv(s) && Enabled(s, step) && id in s.disk
    ensures id in Apply(s, step).disk
    ensures Terminal(s.disk[id]) ==> Apply(s, step).disk[id] == s.disk[id]
    ensures s.disk[id].attempts <= Apply(s, step).disk[id].attempts
    ensures s.disk[id].maxAttempts == Apply(s, step).disk[id].maxAttempts
  {
    hide NowIso;
    if step.Resolve? {
      var copy := s.worker.job;
      assert s.disk[copy.id].status in {Running, Pending};
    }
  }

  /** A `succeeded` or `dead` record never changes again, and attempts never decrease. */
  lemma {:induction false} TerminalAbsorbing(s: State, steps: seq<Step>, id: string)
    requires Inv(s) && Runs(s, steps) && id in s.disk
    ensures id in Exec(s, steps).disk
    ensures Terminal(s.disk[id]) ==> Exec(s, steps).disk[id] == s.disk[id]
    ensures s.disk[id].attempts <= Exec(s, steps).disk[id].attempts
    decreases |steps|
  {
    if steps != [] {
      StepKeeps(s, steps[0]);
      StepTerminal(s, steps[0], id);
      TerminalAbsorbing(Apply(s, steps[0]), steps[1..], id);
    }
  }

  /** What the submitter put in a job: no actor ever writes it again. */
  predicate SameSubmission(a: Job, b: Job) {
    && a.id == b.id && a.kind == b.kind && a.payload == b.payload
    && a.createdAt == b.createdAt && a.maxAttempts == b.maxAttempts && a.tags == b.tags
  }

  lemma {:induction false} SubmissionKept(s: State, steps: seq<Step>, id: string)
    requires Inv(s) && Runs(s, steps) && id in s.disk
    ensures id in Exec(s, steps).disk && SameSubmission(s.disk[id], Exec(s, steps).disk[id])
    decreases |steps|
  {
    if steps != [] {
      StepKeeps(s, steps[0]);
      StepKeepsSubmission(s, steps[0], id);
      SubmissionKept(Apply(s, steps[0]), steps[1..], id);
    }
  }

  /** What is submitted is what every later record of the job says, on every run. */
  lemma SubmittedAsGiven(s: State, submit: Step, steps: seq<Step>)
    requires Inv(s) && submit.Submit? && Enabled(s, submit) && Runs(Apply(s, submit), steps)
    ensures var end := Exec(Apply(s, submit), steps);
      && submit.id in end.disk
      && var job := end.disk[submit.id];
         && job.id == submit.id && job.kind == submit.kind && job.payload == submit.payload
         && job.maxAttempts == submit.maxAttempts && job.createdAt == NowIso(submit.at) && job.tags == None
  {
    hide NowIso;
    StepKeeps(s, submit);
    SubmissionKept(Apply(s, submit), steps, submit.id);
  }

  lemma StepKeepsSubmission(s: State, step: Step, id: string)
    requires Inv(s) && Enabled(s, step) && id in s.disk
    ensures id in Apply(s, step).disk && SameSubmission(s.disk[id], Apply(s, step).disk[id])
  {
    hide NowIso;
    hide RecordOk;
    assert step.Resolve? ==> SameSubmission(s.worker.job, s.disk[s.worker.job.id]);
    assert forall other :: other in s.disk ==> s.disk[other].id == other by {
      IdsMatch(s);
    }
  }

  lemma IdsMatch(s: State)
    requires Inv(s)
    ensures forall id :: id in s.disk ==> s.disk[id].id == id
  {
  }

  // ----- time ------------------------------------------------------------------------------------

  /**
   A claim opens a job's history or follows a reclaim or a failing resolve, and in the last case comes
   more than min(2^n, 300) - 1 seconds of real time after that resolve, the n-th claim's, chose its delay; a reclaim
   follows the claim it undoes by more than 299 seconds; no resolve follows a resolve.
   */
  predicate WellTimed(log: seq<Event>, k: nat)
    requires k < |log|
  {
    var before := log[..k];
    var last := Last(before, log[k].id);
    match log[k]
    case Claimed(id, _, at) =>
      last.Some? ==>
        || last.value.Reclaimed?
        || (last.value.Resolved? && last.value.status == Failed
            && at - last.value.at > Micros(Min(Pow2(Count(before, id, ClaimTally)), 300) - 1))
    case Reclaimed(id, at) =>
      last.Some? && last.value.Claimed? && at - last.value.at > Micros(299)
    case Resolved(id, _, _, _, _) =>
      last.Some? && !last.value.Resolved?
  }

  predicate Timed(log: seq<Event>) {
    forall k :: 0 <= k < |log| ==> WellTimed(log, k)
  }

  lemma TimedAppend(log: seq<Event>, e: Event)
    requires Timed(log) && WellTimed(log + [e], |log|)
    ensures Timed(log + [e])
  {
    forall k | 0 <= k < |log + [e]| ensures WellTimed(log + [e], k) {
      if k < |log| {
        assert WellTimed(log, k);
        assert (log + [e])[..k] == log[..k];
      }
    }
  }

  lemma ClaimTimed(job: Job, id: string, log: seq<Event>, worker: string, at: int)
    requires RecordOk(job, id, log) && InRange(at) && Claimable(job, NowIso(at))
    ensures WellTimed(log + [Claimed(id, worker, at)], |log|)
  {
    hide NowIso;
    assert (log + [Claimed(id, worker, at)])[..|log|] == log;
    if job.status == Failed {
      ReadyMeansWaited(Last(log, id).value.at, Min(Pow2(job.attempts), 300), at);
    }
  }

  lemma ReclaimTimed(job: Job, id: string, log: seq<Event>, at: int)
    requires RecordOk(job, id, log) && InRange(at) && IsStalled(job, STALL_THRESHOLD_SECONDS, NowIso(at))
    ensures WellTimed(log + [Reclaimed(id, at)], |log|)
  {
    hide NowIso;
    assert (log + [Reclaimed(id, at)])[..|log|] == log;
    StalledMeansWaited(job, Last(log, id).value.at, at);
  }

  lemma StepTimed(s: State, step: Step)
    requires Inv(s) && Enabled(s, step) && Timed(s.log)
    ensures Timed(Apply(s, step).log)
  {
    hide NowIso;
    match step
    case Claim(id, worker, at) =>
      ClaimTimed(s.disk[id], id, s.log, worker, at);
      TimedAppend(s.log, Claimed(id, worker, at));
    case Reclaim(id, at) =>
      ReclaimTimed(s.disk[id], id, s.log, at);
      TimedAppend(s.log, Reclaimed(id, at));
    case Resolve(_, decided, _) =>
      var copy := s.worker.job;
      var e := Apply(s, step).log[|s.log|];
      assert RecordOk(s.disk[copy.id], copy.id, s.log) && s.disk[copy.id].attempts >= 1;
      assert (s.log + [e])[..|s.log|] == s.log;
      TimedAppend(s.log, e);
    case _ =>
  }

  lemma {:induction false} RunTimed(s: State, steps: seq<Step>)
    requires Inv(s) && Timed(s.log) && Runs(s, steps)
    ensures Timed(Exec(s, steps).log)
    decreases |steps|
  {
    if steps != [] {
      StepKeeps(s, steps[0]);
      StepTimed(s, steps[0]);
      RunTimed(Apply(s, steps[0]), steps[1..]);
    }
  }

  /** The timing of every landed write of a run from freshly created jobs. */
  lemma RunsAreTimed(s: State, steps: seq<Step>)
    requires Init(s) && Runs(s, steps)
    ensures Timed(Exec(s, steps).log)
  {
    InitInv(s);
    RunTimed(s, steps);
  }

  // ----- the bound on attempts is tight ------------------------------------------------------------

  lemma {:induction false} RunAppend(s: State, a: seq<Step>, b: seq<Step>)
    requires Runs(s, a) && Runs(Exec(s, a), b)
    ensures Runs(s, a + b) && Exec(s, a + b) == Exec(Exec(s, a), b)
    decreases |a|
  {
    if a == [] {
      assert a + b == b;
    } else {
      assert (a + b)[0] == a[0] && (a + b)[1..] == a[1..] + b;
      RunAppend(Apply(s, a[0]), a[1..], b);
    }
  }

  lemma RunNothing(s: State)
    ensures Runs(s, []) && Exec(s, []) == s
  {
  }

  lemma RunOne(s: State, step: Step)
    requires Enabled(s, step)
    ensures Runs(s, [step]) && Exec(s, [step]) == Apply(s, step)
  {
    assert [step][1..] == [];
    RunNothing(Apply(s, step));
  }

  lemma RunThree(s: State, x: Step, y: Step, z: Step)
    requires Enabled(s, x) && Enabled(Apply(s, x), y) && Enabled(Apply(Apply(s, x), y), z)
    ensures Runs(s, [x, y, z]) && Exec(s, [x, y, z]) == Apply(Apply(Apply(s, x), y), z)
  {
    var s1 := Apply(s, x);
    var s2 := Apply(s1, y);
    assert [x, y, z][1..] == [y, z] && [y, z][1..] == [z] && [z][1..] == [];
    assert Runs(s2, [z]) && Exec(s2, [z]) == Apply(s2, z);
    assert Runs(s1, [y, z]) && Exec(s1, [y, z]) == Exec(s2, [z]);
  }

  /** One job, in flight, on its `n`-th attempt after `r` reclaims. */
  predicate Trying(s: State, id: string, maxAttempts: int, n: int, r: nat, clock: int) {
    && id in s.disk && s.disk[id].id == id && s.disk[id].status == Running && s.disk[id].attempts == n
    && s.disk[id].maxAttempts == maxAttempts
    && s.worker == InFlight(s.disk[id])
    && Count(s.log, id, ReclaimTally) == r
    && s.clock == clock && InRange(clock)
    && s.disk[id].claimedAt == Some(NowIso(clock))
  }

  /** An ordinary failure with attempts to spare, the wait, and the next claim. */
  lemma FailOnce(s: State, id: string, maxAttempts: int, n: int, r: nat, clock: int) returns (steps: seq<Step>)
    requires Trying(s, id, maxAttempts, n, r, clock) && 1 <= n < maxAttempts <= FLOAT_OVERFLOW
    requires InRange(clock + Micros(301))
    ensures Runs(s, steps) && Trying(Exec(s, steps), id, maxAttempts, n + 1, r, clock + Micros(301))
  {
    hide NowIso;
    var later := clock + Micros(301);
    var x, y, z := Resolve(Raised(""), clock, clock), Tick(later), Claim(id, "", later);
    BackoffMonotone(n, n);
    var due := clock + Micros(Min(Pow2(n), 300));
    NowIsoOrder(due, later);
    var s1 := Apply(s, x);
    assert s1.disk[id].status == Failed && s1.disk[id].nextAttemptAt == Some(NowIso(due));
    var s2 := Apply(s1, y);
    var s3 := Apply(s2, z);
    Appended(s.log, Resolved(id, Raised(""), Failed, clock, clock), id);
    Appended(s1.log, Claimed(id, "", later), id);
    RunThree(s, x, y, z);
    steps := [x, y, z];
  }

  /** A stall outlasting the threshold, its reclaim, and the next claim. */
  lemma StallOnce(s: State, id: string, maxAttempts: int, n: int, r: nat, clock: int) returns (steps: seq<Step>)
    requires Trying(s, id, maxAttempts, n, r, clock)
    requires InRange(clock + Micros(301))
    ensures Runs(s, steps) && Trying(Exec(s, steps), id, maxAttempts, n + 1, r + 1, clock + Micros(301))
  {
    hide NowIso;
    hide IsStalled;
    hide Runs;
    hide Exec;
    hide Count;
    var later := clock + Micros(301);
    WaitedMeansStalled(s.disk[id], clock, later);
    var x, y, z := Tick(later), Reclaim(id, later), Lose;
    var s1 := Apply(s, x);
    var s2 := Apply(s1, y);
    RunThree(s, x, y, z);
    Appended(s.log, Reclaimed(id, later), id);
    ClaimAgain(Apply(s2, z), id, later);
    var claim := Claim(id, "", later);
    RunAppend(s, [x, y, z], [claim]);
    steps := [x, y, z] + [claim];
  }

  /** A claim of a pending job by an idle worker. */
  lemma ClaimAgain(s: State, id: string, clock: int)
    requires s.worker.Idle? && s.clock == clock && 0 <= clock && InRange(clock)
    requires id in s.disk && s.disk[id].id == id && s.disk[id].status == Pending
    ensures var steps := [Claim(id, "", clock)];
      Runs(s, steps)
      && Trying(Exec(s, steps), id, s.disk[id].maxAttempts, s.disk[id].attempts + 1,
                Count(s.log, id, ReclaimTally), clock)
  {
    hide NowIso;
    hide Runs;
    hide Exec;
    hide Count;
    RunOne(s, Claim(id, "", clock));
    Appended(s.log, Claimed(id, "", clock), id);
  }

  lemma {:induction false} FailUp(s: State, id: string, maxAttempts: int, n: int, clock: int, more: nat)
    returns (steps: seq<Step>)
    requires Trying(s, id, maxAttempts, n, 0, clock) && 1 <= n && n + more <= Max(1, maxAttempts)
      && maxAttempts <= FLOAT_OVERFLOW
    requires 0 <= clock && InRange(clock + Micros(301 * more))
    ensures Runs(s, steps) && Trying(Exec(s, steps), id, maxAttempts, n + more, 0, clock + Micros(301 * more))
    decreases more
  {
    hide NowIso;
    hide Enabled;
    hide Apply;
    hide Trying;
    RunNothing(s);
    if more == 0 {
      steps := [];
    } else {
      var first := FailOnce(s, id, maxAttempts, n, 0, clock);
      var rest := FailUp(Exec(s, first), id, maxAttempts, n + 1, clock + Micros(301), more - 1);
      RunAppend(s, first, rest);
      steps := first + rest;
    }
  }

  lemma {:induction false} StallUp(s: State, id: string, maxAttempts: int, n: int, r: nat, clock: int, more: nat)
    returns (steps: seq<Step>)
    requires Trying(s, id, maxAttempts, n, r, clock)
    requires 0 <= clock && InRange(clock + Micros(301 * more))
    ensures Runs(s, steps) && Trying(Exec(s, steps), id, maxAttempts, n + more, r + more, clock + Micros(301 * more))
    decreases more
  {
    hide NowIso;
    hide Enabled;
    hide Apply;
    hide Trying;
    RunNothing(s);
    if more == 0 {
      steps := [];
    } else {
      var first := StallOnce(s, id, maxAttempts, n, r, clock);
      var rest := StallUp(Exec(s, first), id, maxAttempts, n + 1, r + 1, clock + Micros(301), more - 1);
      RunAppend(s, first, rest);
      steps := first + rest;
    }
  }

  /** A submitted job, claimed once. */
  lemma ClaimFirst(maxAttempts: int) returns (start: State, steps: seq<Step>)
    ensures Init(start) && Runs(start, steps) && Trying(Exec(start, steps), "j", maxAttempts, 1, 0, 0)
  {
    hide NowIso;
    start := State(map[], Idle, 0, []);
    var submit, claim := Submit("j", "", map[], maxAttempts, 0), Claim("j", "", 0);
    RunOne(start, submit);
    hide Runs;
    hide Exec;
    ClaimAgain(Apply(start, submit), "j", 0);
    RunAppend(start, [submit], [claim]);
    steps := [submit] + [claim];
  }

  /**
   For every limit and every number of reclaims there is a run whose attempts meet the bound, as long
   as its waits fit in the calendar and the limit stays clear of the float overflow in the backoff.
   */
  lemma AttemptBoundTight(maxAttempts: int, r: nat) returns (start: State, steps: seq<Step>)
    requires maxAttempts <= FLOAT_OVERFLOW && InRange(Micros(301 * (Max(1, maxAttempts) + r)))
    ensures Init(start) && Runs(start, steps) && "j" in Exec(start, steps).disk
    ensures var end := Exec(start, steps);
      && end.disk["j"].maxAttempts == maxAttempts
      && Count(end.log, "j", ReclaimTally) == r
      && end.disk["j"].attempts == Max(1, maxAttempts) + r
  {
    hide NowIso;
    hide Runs;
    hide Exec;
    hide Count;
    hide Init;
    var first, limit := [], Max(1, maxAttempts);
    start, first := ClaimFirst(maxAttempts);
    var s := Exec(start, first);
    var fails := FailUp(s, "j", maxAttempts, 1, 0, limit - 1);
    var s' := Exec(s, fails);
    assert Micros(301 * (limit - 1)) + Micros(301 * r) <= Micros(301 * (limit + r));
    var stalls := StallUp(s', "j", maxAttempts, limit, 0, Micros(301 * (limit - 1)), r);
    RunAppend(s, fails, stalls);
    RunAppend(start, first, fails + stalls);
    steps := first + (fails + stalls);
  }
}
