/**
 How a queue with no running orphans drains: repeated cycles of the worker (axiom-queue/worker.py, `run_worker`)
 once every retry is due.
 */
module Draining {
  import opened Wrappers
  import opened Text
  import opened Stamp
  import opened Jobs
  import opened Retry
  import opened Records
  import opened Worker
  import opened Yaml
  import Queue

  /** A job that is waiting or done, with attempts to account for and a limit the backoff can serve. */
  predicate Drainable(id: string, job: Job) {
    && job.id == id && job.status != Running && 0 <= job.attempts && job.maxAttempts <= FLOAT_OVERFLOW
    && (job.status == Failed ==> 1 <= job.attempts < job.maxAttempts)
  }

  predicate AllDrainable(jobs: map<string, Job>) {
    forall id :: id in jobs ==> Drainable(id, jobs[id])
  }

  /** The clock is past every scheduled retry. */
  predicate AllDue(jobs: map<string, Job>, now: string) {
    forall id :: id in jobs && jobs[id].status == Failed ==> IsReadyToRetry(jobs[id].nextAttemptAt, now)
  }

  predicate AllTerminal(jobs: map<string, Job>) {
    forall id :: id in jobs ==> Terminal(jobs[id])
  }

  /** How many more cycles a job can take. */
  function Remaining(job: Job): nat {
    match job.status
    case Pending => Max(1, job.maxAttempts - job.attempts)
    case Failed => Max(0, job.maxAttempts - job.attempts)
    case _ => 0
  }

  function Budget(jobs: map<string, Job>, ids: seq<string>): nat {
    if ids == [] then 0
    else Budget(jobs, ids[1..]) + if ids[0] in jobs then Remaining(jobs[ids[0]]) else 0
  }

  function Limits(jobs: map<string, Job>, ids: seq<string>): nat {
    if ids == [] then 0
    else Limits(jobs, ids[1..]) + if ids[0] in jobs then Max(1, jobs[ids[0]].maxAttempts) else 0
  }

  lemma {:induction false} BudgetUpdate(jobs: map<string, Job>, ids: seq<string>, id: string, job: Job)
    requires StrictlySorted(ids) && id in jobs
    ensures id !in ids ==> Budget(jobs[id := job], ids) == Budget(jobs, ids)
    ensures id in ids ==> Budget(jobs[id := job], ids) + Remaining(jobs[id]) == Budget(jobs, ids) + Remaining(job)
  {
    if ids != [] {
      assert StrictlySorted(ids[1..]);
      BudgetUpdate(jobs, ids[1..], id, job);
      assert ids == [ids[0]] + ids[1..];
      if ids[0] == id && id in ids[1..] {
        var j :| 1 <= j < |ids| && ids[j] == id;
        StrLtIrreflexive(id);
      }
    }
  }

  /** One cycle of the draining worker, whatever its handler does. */
  datatype Cycle = Cycle(workerId: string, outcome: Outcome, t: Readings)

  /** The clock leaves room for a retry to be scheduled and is past every one that was. */
  ghost predicate Ready(jobs: map<string, Job>, c: Cycle) {
    Roomy(c.t) && DueAt(jobs, c.t)
  }

  /** Every retry is due at the first reading of the scan. */
  ghost predicate DueAt(jobs: map<string, Job>, t: Readings)
    requires Roomy(t)
  {
    AllDue(jobs, NowIso(t.scan(0)))
  }

  ghost predicate Roomy(t: Readings) {
    InOrder(t) && InRange(t.decided + Micros(MAX_DELAY_SECONDS))
  }

  /** The jobs after a cycle on a vault where every file reads and every write lands; `None` when it finds nothing. */
  ghost function Next(jobs: map<string, Job>, c: Cycle): Option<map<string, Job>>
    requires Ready(jobs, c)
  {
    var queue := ClaimableJobs(jobs, Sorted(jobs.Keys), Stamps(c.t.scan));
    if queue == [] then None
    else
      match Finished(queue[0], c.workerId, c.outcome, c.t)
      case Err(_) => None
      case Ok(job) => Some(jobs[queue[0].id := job])
  }

  lemma FinishedDrains(id: string, job: Job, c: Cycle)
    requires Drainable(id, job) && !Terminal(job)
    requires Roomy(c.t)
    ensures Finished(job, c.workerId, c.outcome, c.t).Ok?
    ensures var after := Finished(job, c.workerId, c.outcome, c.t).value;
      Drainable(id, after) && Remaining(after) < Remaining(job)
  {
    hide NowIso;
    hide InOrder;
    RoomForDelay(c.t);
    if 1 <= job.attempts + 1 < FLOAT_OVERFLOW {
      BackoffMonotone(job.attempts + 1, job.attempts + 1);
    }
  }

  lemma RoomForDelay(t: Readings)
    requires Roomy(t)
    ensures 0 <= t.decided && forall delay :: 0 <= delay <= MAX_DELAY_SECONDS ==> InRange(t.decided + Micros(delay))
  {
  }

  /** While every retry is due at the first reading of a scan, each reading finds the same jobs claimable. */
  lemma DueIsClaimable(jobs: map<string, Job>, id: string, t: Readings, k: nat)
    requires AllDrainable(jobs) && InOrder(t) && AllDue(jobs, NowIso(t.scan(0))) && id in jobs
    ensures jobs[id].id == id && (Claimable(jobs[id], Stamps(t.scan)(k)) <==> !Terminal(jobs[id]))
  {
    hide NowIso;
    assert Drainable(id, jobs[id]);
    assert Stamps(t.scan)(k) == NowIso(t.scan(k));
    if jobs[id].status == Failed {
      ReadyStaysReady(jobs[id].nextAttemptAt, t.scan(0), t.scan(k));
    }
  }

  lemma LaterInOrder(ids: seq<string>, k: nat, j: nat)
    requires StrictlySorted(ids) && k <= j < |ids|
    ensures StrLe(ids[k], ids[j])
  {
  }

  /** The head of the queue is the least job not yet terminal. */
  lemma QueueHead(jobs: map<string, Job>, t: Readings) returns (id: string)
    requires AllDrainable(jobs) && InOrder(t) && AllDue(jobs, NowIso(t.scan(0)))
    ensures AllTerminal(jobs) <==> ClaimableJobs(jobs, Sorted(jobs.Keys), Stamps(t.scan)) == []
    ensures !AllTerminal(jobs) ==>
      && id in jobs && !Terminal(jobs[id]) && jobs[id].id == id
      && ClaimableJobs(jobs, Sorted(jobs.Keys), Stamps(t.scan))[0] == jobs[id]
      && forall other :: other in jobs && !Terminal(jobs[other]) ==> StrLe(id, other)
  {
    hide ClaimableJobs;
    hide StrictlySorted;
    hide Claimable;
    hide AllDrainable;
    hide AllDue;
    hide Stamps;
    hide Terminal;
    hide StrLt;
    var ids, now := Sorted(jobs.Keys), Stamps(t.scan);
    assert Members(ids) == jobs.Keys && forall n :: n in ids <==> n in Members(ids);
    forall k | 0 <= k < |ids|
      ensures ids[k] in jobs && jobs[ids[k]].id == ids[k]
        && (Claimable(jobs[ids[k]], now(k)) <==> !Terminal(jobs[ids[k]]))
    {
      assert ids[k] in ids;
      DueIsClaimable(jobs, ids[k], t, k);
    }
    FirstClaimable(jobs, ids, now);
    forall other | other in jobs ensures exists j :: 0 <= j < |ids| && ids[j] == other {
      assert other in ids;
    }
    var queue := ClaimableJobs(jobs, ids, now);
    id := "";
    if queue != [] {
      var k :| 0 <= k < |ids| && ids[k] in jobs && queue[0] == jobs[ids[k]] && Claimable(jobs[ids[k]], now(k))
               && forall j :: 0 <= j < k && ids[j] in jobs ==> !Claimable(jobs[ids[j]], now(j));
      id := ids[k];
      forall other | other in jobs && !Terminal(jobs[other]) ensures StrLe(id, other) {
        var j :| 0 <= j < |ids| && ids[j] == other;
        assert k <= j;
        LaterInOrder(ids, k, j);
      }
    }
  }

  /**
   While some job is not terminal a cycle resolves the least of them, leaves every other record alone
   and uses up budget; once all are terminal a cycle finds nothing.
   */
  lemma DrainOnce(jobs: map<string, Job>, c: Cycle) returns (id: string)
    requires AllDrainable(jobs) && Ready(jobs, c)
    ensures AllTerminal(jobs) <==> Next(jobs, c) == None
    ensures !AllTerminal(jobs) ==>
      && id in jobs && !Terminal(jobs[id])
      && (forall other :: other in jobs && !Terminal(jobs[other]) ==> StrLe(id, other))
      && Finished(jobs[id], c.workerId, c.outcome, c.t).Ok?
      && Next(jobs, c) == Some(jobs[id := Finished(jobs[id], c.workerId, c.outcome, c.t).value])
    ensures Next(jobs, c).Some? ==>
      var after := Next(jobs, c).value;
      && AllDrainable(after) && after.Keys == jobs.Keys
      && Budget(after, Sorted(jobs.Keys)) < Budget(jobs, Sorted(jobs.Keys))
  {
    hide NowIso;
    hide Finished;
    hide Remaining;
    hide Budget;
    hide ClaimableJobs;
    hide AllDue;
    hide Terminal;
    id := QueueHead(jobs, c.t);
    if !AllTerminal(jobs) {
      FinishedDrains(id, jobs[id], c);
      var after := jobs[id := Finished(jobs[id], c.workerId, c.outcome, c.t).value];
      assert Next(jobs, c) == Some(after);
      SpendsBudget(jobs, id, after[id]);
      assert after.Keys == jobs.Keys;
    }
  }

  lemma SpendsBudget(jobs: map<string, Job>, id: string, job: Job)
    requires id in jobs && Remaining(job) < Remaining(jobs[id])
    ensures Budget(jobs[id := job], Sorted(jobs.Keys)) < Budget(jobs, Sorted(jobs.Keys))
  {
    assert id in Members(Sorted(jobs.Keys));
    BudgetUpdate(jobs, Sorted(jobs.Keys), id, job);
  }

  /** Cycles that each find work, every retry being due when its turn comes. */
  ghost predicate Drains(jobs: map<string, Job>, cycles: seq<Cycle>)
    decreases |cycles|
  {
    cycles == [] ||
    (Ready(jobs, cycles[0]) && Next(jobs, cycles[0]).Some? && Drains(Next(jobs, cycles[0]).value, cycles[1..]))
  }

  ghost function Drained(jobs: map<string, Job>, cycles: seq<Cycle>): map<string, Job>
    requires Drains(jobs, cycles)
    decreases |cycles|
  {
    if cycles == [] then jobs else Drained(Next(jobs, cycles[0]).value, cycles[1..])
  }

  lemma {:induction false} DrainBudget(jobs: map<string, Job>, cycles: seq<Cycle>)
    requires AllDrainable(jobs) && Drains(jobs, cycles)
    ensures AllDrainable(Drained(jobs, cycles)) && Drained(jobs, cycles).Keys == jobs.Keys
    ensures |cycles| <= Budget(jobs, Sorted(jobs.Keys))
    decreases |cycles|
  {
    hide NowIso;
    if cycles != [] {
      var _ := DrainOnce(jobs, cycles[0]);
      DrainBudget(Next(jobs, cycles[0]).value, cycles[1..]);
    }
  }

  lemma {:induction false} FreshBudget(jobs: map<string, Job>, ids: seq<string>)
    requires forall id :: id in jobs ==> Queue.Fresh(id, jobs[id])
    ensures Budget(jobs, ids) == Limits(jobs, ids)
  {
    if ids != [] {
      FreshBudget(jobs, ids[1..]);
    }
  }

  /**
   From freshly created jobs a worker can find work at most as often as the sum of the limits, and when
   it finds no more, every job has succeeded or is dead.
   */
  lemma DrainingTerminates(jobs: map<string, Job>, cycles: seq<Cycle>, last: Cycle)
    requires forall id :: id in jobs ==> Queue.Fresh(id, jobs[id]) && jobs[id].maxAttempts <= FLOAT_OVERFLOW
    requires Drains(jobs, cycles) && Ready(Drained(jobs, cycles), last)
    ensures |cycles| <= Limits(jobs, Sorted(jobs.Keys))
    ensures Next(Drained(jobs, cycles), last) == None <==> AllTerminal(Drained(jobs, cycles))
  {
    hide NowIso;
    FreshBudget(jobs, Sorted(jobs.Keys));
    DrainBudget(jobs, cycles);
    var _ := DrainOnce(Drained(jobs, cycles), last);
  }

  // ----- the loop --------------------------------------------------------------------------------------------

  /** A cycle of the worker on a reliable vault of readable files is `Next`, with the outcome its handler gives. */
  lemma StepOnceIsNext(f: Files, workerId: string, handlers: Handlers, t: Readings) returns (c: Cycle)
    requires f.corrupt == {} && AllDrainable(f.jobs) && Roomy(t) && DueAt(f.jobs, t)
    ensures c.workerId == workerId && c.t == t
    ensures var found := Found(f, t);
      && (found == [] <==> AllTerminal(f.jobs))
      && (found == [] <==> Next(f.jobs, c) == None)
      && (found != [] ==>
            && c.outcome == handlers(found[0].kind, found[0].payload)
            && Finished(found[0], workerId, c.outcome, t).Ok?
            && forall body :: Put(f, Finished(found[0], workerId, c.outcome, t).value, body).corrupt == {}
                 && Next(f.jobs, c) == Some(Put(f, Finished(found[0], workerId, c.outcome, t).value, body).jobs))
  {
    hide NowIso;
    hide ClaimableJobs;
    hide ResolvedForm;
    var found := Found(f, t);
    assert f.jobs.Keys + f.corrupt == f.jobs.Keys;
    var id := QueueHead(f.jobs, t);
    c := Cycle(workerId, if found == [] then RaisedFatal("") else handlers(found[0].kind, found[0].payload), t);
    var _ := DrainOnce(f.jobs, c);
    FinishedKeepsId(f.jobs, c);
  }

  lemma FinishedKeepsId(jobs: map<string, Job>, c: Cycle)
    requires Roomy(c.t)
    ensures forall job: Job :: Finished(job, c.workerId, c.outcome, c.t).Ok? ==>
      Finished(job, c.workerId, c.outcome, c.t).value.id == job.id
  {
    hide NowIso;
  }

  /** What one cycle leaves is due by the time the longest delay has passed. */
  lemma StaysDue(jobs: map<string, Job>, c: Cycle, later: Readings)
    requires AllDrainable(jobs) && Ready(jobs, c) && Next(jobs, c).Some?
    requires Roomy(later) && c.t.decided + Micros(MAX_DELAY_SECONDS) <= later.scan(0)
    ensures DueAt(Next(jobs, c).value, later)
  {
    hide NowIso;
    hide ClaimableJobs;
    hide StrLt;
    hide ResolvedForm;
    hide IsReadyToRetry;
    var after := Next(jobs, c).value;
    var head := DrainOnce(jobs, c);
    forall id | id in after && after[id].status == Failed
      ensures IsReadyToRetry(after[id].nextAttemptAt, NowIso(later.scan(0)))
    {
      if id == head {
        FailedIsDue(jobs[id], c, later.scan(0));
      } else {
        ReadyStaysReady(jobs[id].nextAttemptAt, c.t.scan(0), later.scan(0));
      }
    }
  }

  lemma FailedIsDue(job: Job, c: Cycle, later: int)
    requires Roomy(c.t) && Finished(job, c.workerId, c.outcome, c.t).Ok?
    requires Finished(job, c.workerId, c.outcome, c.t).value.status == Failed
    requires c.t.decided + Micros(MAX_DELAY_SECONDS) <= later && InRange(later)
    ensures IsReadyToRetry(Finished(job, c.workerId, c.outcome, c.t).value.nextAttemptAt, NowIso(later))
  {
    hide NowIso;
    hide IsReadyToRetry;
    var delay := ComputeBackoff(job.attempts + 1).value;
    assert 0 <= delay <= MAX_DELAY_SECONDS;
    WaitedMeansReady(c.t.decided, delay, later);
  }

  /** Jobs that were done stay as they were. */
  ghost predicate KeepsTerminal(before: map<string, Job>, after: map<string, Job>) {
    forall id :: id in before && Terminal(before[id]) ==> id in after && after[id] == before[id]
  }

  lemma KeepsItself(jobs: map<string, Job>)
    ensures KeepsTerminal(jobs, jobs)
  {
  }

  /** What the loop has to know of one cycle. */
  lemma CycleSpends(jobs: map<string, Job>, c: Cycle, before: map<string, Job>)
    requires AllDrainable(jobs) && Ready(jobs, c) && Next(jobs, c).Some? && KeepsTerminal(before, jobs)
    ensures var after := Next(jobs, c).value;
      && after.Keys == jobs.Keys && AllDrainable(after) && KeepsTerminal(before, after)
      && Budget(after, Sorted(jobs.Keys)) < Budget(jobs, Sorted(jobs.Keys))
  {
    hide Next;
    hide Budget;
    hide Finished;
    hide NowIso;
    var _ := DrainOnce(jobs, c);
  }

  /** Cycles far enough apart for every retry to be due, for as long as `n` of them may be needed. */
  ghost predicate Paced(readings: nat -> Readings, n: nat) {
    && (forall i: nat :: i <= n ==> Roomy(readings(i)))
    && (forall i: nat :: i < n ==> readings(i).decided + Micros(MAX_DELAY_SECONDS) <= readings(i + 1).scan(0))
  }

  lemma PacedAt(readings: nat -> Readings, n: nat, i: nat)
    requires Paced(readings, n) && i <= n
    ensures Roomy(readings(i))
    ensures i < n ==>
      Roomy(readings(i + 1)) && readings(i).decided + Micros(MAX_DELAY_SECONDS) <= readings(i + 1).scan(0)
  {
  }

  /** After `cycles` cycles: what they have spent, and what the next one can count on. */
  ghost predicate OnTheWay(before: map<string, Job>, f: Files, readings: nat -> Readings, n: nat, cycles: nat) {
    && f.corrupt == {} && f.jobs.Keys == before.Keys && AllDrainable(f.jobs) && KeepsTerminal(before, f.jobs)
    && cycles + Budget(f.jobs, Sorted(before.Keys)) <= n && Paced(readings, n)
    && Roomy(readings(cycles)) && DueAt(f.jobs, readings(cycles))
  }

  lemma OneCycle(before: map<string, Job>, f: Files, after: Files, repr: Meta -> string, workerId: string,
                 handlers: Handlers, readings: nat -> Readings, n: nat, cycles: nat, r: StepResult)
    requires OnTheWay(before, f, readings, n, cycles)
    requires Cycled(f, after, repr, true, workerId, handlers, readings(cycles), r)
    ensures r.NothingDone? ==> after == f && AllTerminal(f.jobs)
    ensures !r.NothingDone? ==> cycles < n && OnTheWay(before, after, readings, n, cycles + 1)
  {
    hide Budget;
    hide Found;
    hide Finished;
    hide Next;
    hide Put;
    hide AllDrainable;
    hide AllTerminal;
    hide DueAt;
    hide Paced;
    hide KeepsTerminal;
    hide InOrder;
    hide InRange;
    hide NowIso;
    hide RenderBody;
    var c := StepOnceIsNext(f, workerId, handlers, readings(cycles));
    if !r.NothingDone? {
      CycleSpends(f.jobs, c, before);
      PacedAt(readings, n, cycles);
      StaysDue(f.jobs, c, readings(cycles + 1));
    }
  }

  /**
   The worker's loop until it first finds nothing to do, over a reliable vault of readable files with no running
   orphans: it ends after at most as many cycles as there are attempts left, with every job succeeded or dead.
   */
  method Drain(vault: Vault, workerId: string, handlers: Handlers, readings: nat -> Readings) returns (cycles: nat)
    requires vault.reliable && vault.corrupt == {} && AllDrainable(vault.jobs)
    requires Paced(readings, Budget(vault.jobs, Sorted(vault.jobs.Keys))) && DueAt(vault.jobs, readings(0))
    modifies vault
    ensures AllTerminal(vault.jobs) && vault.jobs.Keys == old(vault.jobs.Keys)
    ensures cycles <= old(Budget(vault.jobs, Sorted(vault.jobs.Keys)))
    ensures KeepsTerminal(old(vault.jobs), vault.jobs)
  {
    hide Budget;
    hide AllDrainable;
    hide AllTerminal;
    hide DueAt;
    hide Paced;
    hide KeepsTerminal;
    hide Roomy;
    hide InOrder;
    hide Cycled;
    hide OnTheWay;
    ghost var before, n := vault.jobs, Budget(vault.jobs, Sorted(vault.jobs.Keys));
    cycles := 0;
    SetsOut(vault.State(), readings);
    while true
      invariant OnTheWay(before, vault.State(), readings, n, cycles)
      decreases n - cycles
    {
      ghost var f := vault.State();
      AlongTheWay(before, f, readings, n, cycles);
      var r := StepOnce(vault, workerId, handlers, readings(cycles));
      OneCycle(before, f, vault.State(), vault.repr, workerId, handlers, readings, n, cycles, r);
      if r.NothingDone? {
        return;
      }
      cycles := cycles + 1;
    }
  }

  lemma SetsOut(f: Files, readings: nat -> Readings)
    requires f.corrupt == {} && AllDrainable(f.jobs)
    requires Paced(readings, Budget(f.jobs, Sorted(f.jobs.Keys))) && DueAt(f.jobs, readings(0))
    ensures OnTheWay(f.jobs, f, readings, Budget(f.jobs, Sorted(f.jobs.Keys)), 0)
  {
    hide Budget;
    KeepsItself(f.jobs);
  }

  lemma AlongTheWay(before: map<string, Job>, f: Files, readings: nat -> Readings, n: nat, cycles: nat)
    requires OnTheWay(before, f, readings, n, cycles)
    ensures InOrder(readings(cycles)) && cycles <= n && f.jobs.Keys == before.Keys && KeepsTerminal(before, f.jobs)
  {
    hide Budget;
    hide Paced;
  }
}
