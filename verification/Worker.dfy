/** The worker's scan, claim, execute, resolve cycle over a vault of job records (axiom-queue/worker.py). */
module Worker {
  import opened Wrappers
  import opened Text
  import opened Stamp
  import opened Yaml
  import opened Jobs
  import opened Retry
  import opened Records
  import Queue

  /**
   The job files as `read_job` sees them: records, and the body of each file that parses. `corrupt` are ids whose
   file does not read as a job. A request may fail unless the vault is reliable; a failed write leaves the files alone.
   */
  datatype Files = Files(jobs: map<string, Job>, bodies: map<string, string>, corrupt: set<string>)

  function Put(f: Files, job: Job, body: string): Files {
    Files(f.jobs[job.id := job], f.bodies[job.id := body], f.corrupt - {job.id})
  }

  class Vault {
    var jobs: map<string, Job>
    var bodies: map<string, string>
    var corrupt: set<string>
    const repr: Meta -> string
    const reliable: bool

    constructor (jobs: map<string, Job>, bodies: map<string, string>, corrupt: set<string>, repr: Meta -> string,
                 reliable: bool)
      ensures this.jobs == jobs && this.bodies == bodies && this.corrupt == corrupt
      ensures this.repr == repr && this.reliable == reliable
    {
      this.jobs, this.bodies, this.corrupt, this.repr, this.reliable := jobs, bodies, corrupt, repr, reliable;
    }

    function State(): Files
      reads this
    {
      Files(jobs, bodies, corrupt)
    }

    /** `list_jobs`: every id, sorted. */
    method ListJobs() returns (ids: seq<string>)
      ensures ids == Sorted(jobs.Keys + corrupt)
    {
      ids := SortNames(jobs.Keys + corrupt);
    }

    method ReadBody(id: string) returns (body: Option<string>)
      ensures body.Some? ==> id in bodies && body.value == bodies[id]
      ensures reliable && id in bodies ==> body.Some?
    {
      var ok := reliable;
      if !ok {
        ok :| true;
      }
      body := if ok && id in bodies then Some(bodies[id]) else None;
    }

    method Store(job: Job, body: string) returns (ok: bool)
      modifies this
      ensures reliable ==> ok
      ensures State() == if ok then Put(old(State()), job, body) else old(State())
    {
      ok := reliable;
      if !ok {
        ok :| true;
      }
      if ok {
        jobs, bodies, corrupt := jobs[job.id := job], bodies[job.id := body], corrupt - {job.id};
      }
    }

    /** `write_job`: the body is generated afresh. */
    method WriteJob(job: Job) returns (ok: bool)
      modifies this
      ensures reliable ==> ok
      ensures State() == if ok then Put(old(State()), job, RenderBody(repr, job)) else old(State())
    {
      ok := Store(job, RenderBody(repr, job));
    }
  }

  // ----- scan ------------------------------------------------------------------------------------

  /** The claimable jobs among `ids`, in that order; `now(i)` is what the clock shows when the `i`-th is judged. */
  function ClaimableJobs(jobs: map<string, Job>, ids: seq<string>, now: nat -> string): seq<Job> {
    if ids == [] then []
    else
      var n := |ids| - 1;
      var init := ClaimableJobs(jobs, ids[..n], now);
      if ids[n] in jobs && Claimable(jobs[ids[n]], now(n)) then init + [jobs[ids[n]]] else init
  }

  method ScanForClaimableJobs(vault: Vault, now: nat -> string) returns (claimable: seq<Job>)
    ensures claimable == ClaimableJobs(vault.jobs, Sorted(vault.jobs.Keys + vault.corrupt), now)
  {
    hide IsReadyToRetry;
    hide ClaimableJobs;
    claimable := [];
    var ids := vault.ListJobs();
    ScanStep(vault.jobs, ids, 0, now);
    for i := 0 to |ids|
      invariant claimable == ClaimableJobs(vault.jobs, ids[..i], now)
    {
      var id := ids[i];
      ScanStep(vault.jobs, ids, i, now);
      if id in vault.jobs {
        var job := vault.jobs[id];
        if job.status == Pending {
          claimable := claimable + [job];
        } else if job.status == Failed {
          if IsReadyToRetry(job.nextAttemptAt, now(i)) {
            claimable := claimable + [job];
          }
        }
      }
    }
    assert ids[..|ids|] == ids;
  }

  lemma ScanStep(jobs: map<string, Job>, ids: seq<string>, i: nat, now: nat -> string)
    requires i <= |ids|
    ensures ClaimableJobs(jobs, ids[..0], now) == []
    ensures i < |ids| ==>
      var before := ClaimableJobs(jobs, ids[..i], now);
      ClaimableJobs(jobs, ids[..i + 1], now)
        == if ids[i] in jobs && Claimable(jobs[ids[i]], now(i)) then before + [jobs[ids[i]]] else before
  {
    hide Claimable;
    if i < |ids| {
      assert ids[..i + 1][..i] == ids[..i];
    }
  }

  /** The file at place `k` of the listing is found claimable. */
  ghost predicate FoundAt(jobs: map<string, Job>, ids: seq<string>, now: nat -> string, k: nat)
    requires k < |ids|
  {
    ids[k] in jobs && Claimable(jobs[ids[k]], now(k))
  }

  /** The scan gives the jobs at these places of the listing, all that are found claimable, in listing order. */
  lemma {:induction false} ClaimableJobsAre(jobs: map<string, Job>, ids: seq<string>, now: nat -> string)
    returns (places: seq<nat>)
    ensures forall i, j :: 0 <= i < j < |places| ==> places[i] < places[j]
    ensures forall k :: k in places <==> 0 <= k < |ids| && FoundAt(jobs, ids, now, k)
    ensures |ClaimableJobs(jobs, ids, now)| == |places|
    ensures forall i :: 0 <= i < |places| ==>
      && places[i] < |ids| && ids[places[i]] in jobs
      && ClaimableJobs(jobs, ids, now)[i] == jobs[ids[places[i]]]
  {
    hide Claimable;
    if ids == [] {
      places := [];
    } else {
      var n := |ids| - 1;
      places := ClaimableJobsAre(jobs, ids[..n], now);
      forall k | 0 <= k < n ensures FoundAt(jobs, ids[..n], now, k) <==> FoundAt(jobs, ids, now, k) {
      }
      forall i | 0 <= i < |places| ensures places[i] < n {
        assert places[i] in places;
      }
      if FoundAt(jobs, ids, now, n) {
        places := places + [n];
      }
    }
  }

  /** The scan is empty when nothing is claimable, and otherwise begins with the first claimable id. */
  lemma {:induction false} FirstClaimable(jobs: map<string, Job>, ids: seq<string>, now: nat -> string)
    ensures ClaimableJobs(jobs, ids, now) == []
      <==> forall k :: 0 <= k < |ids| && ids[k] in jobs ==> !Claimable(jobs[ids[k]], now(k))
    ensures ClaimableJobs(jobs, ids, now) != [] ==>
      exists k :: && 0 <= k < |ids| && ids[k] in jobs && ClaimableJobs(jobs, ids, now)[0] == jobs[ids[k]]
                  && Claimable(jobs[ids[k]], now(k))
                  && forall j :: 0 <= j < k && ids[j] in jobs ==> !Claimable(jobs[ids[j]], now(j))
  {
    hide Claimable;
    if ids != [] {
      var n := |ids| - 1;
      var init := ids[..n];
      FirstClaimable(jobs, init, now);
      assert forall k :: 0 <= k < n ==> init[k] == ids[k];
      if ClaimableJobs(jobs, init, now) != [] {
        var k :| && 0 <= k < n && init[k] in jobs && ClaimableJobs(jobs, init, now)[0] == jobs[init[k]]
                 && Claimable(jobs[init[k]], now(k))
                 && forall j :: 0 <= j < k && init[j] in jobs ==> !Claimable(jobs[init[j]], now(j));
        assert ids[k] in jobs && Claimable(jobs[ids[k]], now(k));
      }
    }
  }

  // ----- claim, execute, resolve -------------------------------------------------------------------

  method Claim(vault: Vault, job: Job, workerId: string, now: string) returns (claimed: Option<Job>)
    modifies vault
    ensures vault.reliable ==> claimed.Some?
    ensures claimed.Some? ==> claimed.value == ClaimedForm(job, workerId, now)
    ensures vault.State()
         == if claimed.Some? then Put(old(vault.State()), claimed.value, RenderBody(vault.repr, claimed.value))
           else old(vault.State())
  {
    var running := ClaimedForm(job, workerId, now);
    var ok := vault.WriteJob(running);
    claimed := if ok then Some(running) else None;
  }

  /** The registry of handlers is any function of kind and payload. */
  type Handlers = (string, Meta) -> Outcome

  datatype ResolveError = NoDecision(e: RetryError) | WriteFailed

  method Resolve(vault: Vault, job: Job, outcome: Outcome, decided: int, now: string)
    returns (r: Result<Job, ResolveError>)
    modifies vault
    ensures r.Ok? ==> Ok(r.value) == ResolvedForm(job, outcome, decided, now)
    ensures r.Err? && r.error.NoDecision? ==> ResolvedForm(job, outcome, decided, now) == Err(r.error.e)
    ensures vault.reliable && r.Err? ==> r.error.NoDecision?
    ensures vault.State()
         == if r.Ok? then Put(old(vault.State()), r.value, RenderBody(vault.repr, r.value)) else old(vault.State())
  {
    var decision: RetryDecision;
    match outcome {
      case Returned(_) => decision := AFTER_SUCCESS;
      case RaisedFatal(_) => decision := TO_DEAD;
      case Raised(_) =>
        var d := DecideAfterFailure(job.attempts, job.maxAttempts, decided);
        if d.Err? {
          return Err(NoDecision(d.error));
        }
        decision := d.value;
    }
    var resolved := job.(status := decision.nextStatus, updatedAt := now,
                         result := if outcome.Returned? then Some(outcome.result) else None,
                         error := if outcome.Returned? then None else Some(outcome.error),
                         nextAttemptAt := decision.nextAttemptAt, workerId := None, claimedAt := None);
    var ok := vault.WriteJob(resolved);
    r := if ok then Ok(resolved) else Err(WriteFailed);
  }

  // ----- one cycle -----------------------------------------------------------------------------------

  /** When each part of a cycle reads the clock; the scan reads it again for each job. */
  datatype Readings = Readings(scan: nat -> int, claim: int, decided: int, resolve: int)

  ghost predicate InOrder(t: Readings) {
    && 0 <= t.scan(0) <= t.claim <= t.decided <= t.resolve && InRange(t.resolve)
    && (forall i: nat :: t.scan(0) <= t.scan(i) <= t.claim)
  }

  /** The stamps a scan judges by. */
  function Stamps(scan: nat -> int): nat -> string {
    (i: nat) => if InRange(scan(i)) then NowIso(scan(i)) else ""
  }

  datatype StepResult = NothingDone | Worked(job: Job) | Failure

  /** The record a claim leaves. */
  ghost function Begun(job: Job, workerId: string, t: Readings): Job
    requires InOrder(t)
  {
    ClaimedForm(job, workerId, NowIso(t.claim))
  }

  /** The record a full cycle leaves, unless the decision raises. */
  ghost function Finished(job: Job, workerId: string, outcome: Outcome, t: Readings): Result<Job, RetryError>
    requires InOrder(t)
  {
    ResolvedForm(Begun(job, workerId, t), outcome, t.decided, NowIso(t.resolve))
  }

  /** What a cycle finds to do. */
  ghost function Found(f: Files, t: Readings): seq<Job> {
    ClaimableJobs(f.jobs, Sorted(f.jobs.Keys + f.corrupt), Stamps(t.scan))
  }

  /**
   What one cycle may do to the files: nothing, and on a reliable vault only when it finds nothing; finish the first
   claimable job; or leave that job claimed, and on a reliable vault only when its resolve raises.
   */
  ghost predicate Cycled(before: Files, after: Files, repr: Meta -> string, reliable: bool, workerId: string,
                         handlers: Handlers, t: Readings, r: StepResult)
    requires InOrder(t)
  {
    var found := Found(before, t);
    match r
    case NothingDone => after == before && (reliable ==> found == [])
    case Worked(job) =>
      && found != [] && Finished(found[0], workerId, handlers(found[0].kind, found[0].payload), t) == Ok(job)
      && after == Put(before, job, RenderBody(repr, job))
    case Failure =>
      && found != [] && (reliable ==> Finished(found[0], workerId, handlers(found[0].kind, found[0].payload), t).Err?)
      && after == Put(before, Begun(found[0], workerId, t), RenderBody(repr, Begun(found[0], workerId, t)))
  }

  /** The first claimable id is taken; its record and body are all a cycle changes. */
  method StepOnce(vault: Vault, workerId: string, handlers: Handlers, t: Readings) returns (r: StepResult)
    requires InOrder(t)
    modifies vault
    ensures Cycled(old(vault.State()), vault.State(), vault.repr, vault.reliable, workerId, handlers, t, r)
  {
    hide NowIso;
    hide ClaimableJobs;
    hide RenderBody;
    hide Stamps;
    hide Put;
    ghost var before := vault.State();
    var claimable := ScanForClaimableJobs(vault, Stamps(t.scan));
    if claimable == [] {
      return NothingDone;
    }
    var target := claimable[0];
    var claimed := Claim(vault, target, workerId, NowIso(t.claim));
    if claimed.None? {
      return NothingDone;
    }
    var running := claimed.value;
    var outcome := handlers(running.kind, running.payload);
    var resolved := Resolve(vault, running, outcome, t.decided, NowIso(t.resolve));
    match resolved {
      case Ok(job) =>
        PutTwice(before, running, RenderBody(vault.repr, running), job, RenderBody(vault.repr, job));
        r := Worked(job);
      case Err(_) => r := Failure;
    }
  }

  lemma PutTwice(f: Files, a: Job, x: string, b: Job, y: string)
    requires a.id == b.id
    ensures Put(Put(f, a, x), b, y) == Put(f, b, y)
  {
  }

  /** A finished cycle is a claim and a resolve of the step system, whichever reading of the scan judged the job. */
  lemma CycleIsRun(s: Queue.State, id: string, workerId: string, outcome: Outcome, t: Readings, k: nat)
    requires s.worker.Idle? && InOrder(t) && t.resolve <= s.clock && InRange(s.clock)
    requires id in s.disk && s.disk[id].id == id && Claimable(s.disk[id], NowIso(t.scan(k)))
    requires Finished(s.disk[id], workerId, outcome, t).Ok?
    ensures var steps := [Queue.Claim(id, workerId, t.claim), Queue.Resolve(outcome, t.decided, t.resolve)];
      Queue.Runs(s, steps) && Queue.Exec(s, steps).disk
        == s.disk[id := Finished(s.disk[id], workerId, outcome, t).value]
  {
    hide NowIso;
    ClaimableStaysClaimable(s.disk[id], t.scan(k), t.claim);
    var claim, resolve := Queue.Claim(id, workerId, t.claim), Queue.Resolve(outcome, t.decided, t.resolve);
    var s1 := Queue.Apply(s, claim);
    assert Queue.Enabled(s1, resolve);
    Queue.RunOne(s1, resolve);
    assert [claim, resolve][1..] == [resolve];
  }
}
