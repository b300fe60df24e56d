/**
 The queue at the grain of single store requests. The worker lists, reads job after job, then writes
 its claim and its resolve; the watchdog lists and reads, holds the stalled copies it saw, then writes
 each one back as pending without looking at the status again. Any of these steps may interleave.
 */
module Requests {
  import opened Wrappers
  import opened Text
  import opened Stamp
  import opened Yaml
  import opened Jobs
  import opened Records
  import Queue

  /** `read` is a copy fetched and not yet judged; `found` is the first claimable one, as judged at `since`. */
  datatype Worker =
    | Idle
    | Scanning(todo: seq<string>, read: Option<Job>, found: Option<Job>, since: int)
    | InFlight(job: Job)

  /** `held` are the stalled copies, all judged by `since`. */
  datatype Watchdog =
    | Resting
    | Looking(todo: seq<string>, read: Option<Job>, held: seq<Job>, since: int)
    | Reclaiming(held: seq<Job>, since: int)

  /** `dirty` is history only: the ids the worker wrote since the watchdog last read them. */
  datatype State = State(disk: map<string, Job>, clock: int, log: seq<Queue.Event>,
                         worker: Worker, watchdog: Watchdog, dirty: set<string>)

  datatype Step =
    | Tick(now: int)
    | Submit(id: string, kind: string, payload: Meta, maxAttempts: int, at: int)
    | ListJobs
    | Read
    | Skip
    | Judge
    | Claim(workerId: string, at: int)
    | Resolve(outcome: Outcome, decided: int, at: int)
    | Lose
    | DogListJobs
    | DogRead
    | DogSkip
    | DogJudge
    | DogSettle
    | DogWrite(at: int)
    | DogFail
    | DogLose

  predicate Reading(s: State, since: int, at: int) {
    0 <= since <= at <= s.clock && InRange(s.clock)
  }

  ghost predicate Enabled(s: State, step: Step) {
    match step
    case Tick(now) => s.clock <= now && InRange(now)
    case Submit(id, _, _, _, at) => id !in s.disk && Reading(s, 0, at)
    case ListJobs => s.worker.Idle?
    case Read => s.worker.Scanning? && s.worker.todo != [] && s.worker.read.None? && s.worker.todo[0] in s.disk
    case Skip => s.worker.Scanning? && s.worker.todo != []
    case Judge => s.worker.Scanning? && s.worker.todo != [] && s.worker.read.Some? && InRange(s.clock)
    case Claim(_, at) =>
      && s.worker.Scanning? && s.worker.todo == [] && s.worker.found.Some? && Reading(s, s.worker.since, at)
    case Resolve(outcome, decided, at) =>
      && s.worker.InFlight? && Reading(s, decided, at) && ResolvedForm(s.worker.job, outcome, decided, NowIso(at)).Ok?
    case Lose => true
    case DogListJobs => s.watchdog.Resting?
    case DogRead => s.watchdog.Looking? && s.watchdog.todo != [] && s.watchdog.read.None?
      && s.watchdog.todo[0] in s.disk
    case DogSkip => s.watchdog.Looking? && s.watchdog.todo != []
    case DogJudge => s.watchdog.Looking? && s.watchdog.todo != [] && s.watchdog.read.Some? && InRange(s.clock)
    case DogSettle => s.watchdog.Looking? && s.watchdog.todo == []
    case DogWrite(at) => s.watchdog.Reclaiming? && s.watchdog.held != [] && Reading(s, s.watchdog.since, at)
    case DogFail => s.watchdog.Reclaiming? && s.watchdog.held != []
    case DogLose => true
  }

  ghost function Apply(s: State, step: Step): State
    requires Enabled(s, step)
  {
    match step
    case Tick(now) => s.(clock := now)
    case Submit(id, kind, payload, maxAttempts, at) =>
      s.(disk := s.disk[id := CreatePendingJob(id, kind, payload, maxAttempts, NowIso(at))])
    case ListJobs => s.(worker := Scanning(Sorted(s.disk.Keys), None, None, 0))
    case Read => s.(worker := s.worker.(read := Some(s.disk[s.worker.todo[0]])))
    case Skip => s.(worker := s.worker.(todo := s.worker.todo[1..], read := None))
    case Judge =>
      var job := s.worker.read.value;
      var next := s.worker.(todo := s.worker.todo[1..], read := None);
      s.(worker := if s.worker.found.None? && Claimable(job, NowIso(s.clock))
                   then next.(found := Some(job), since := s.clock) else next)
    case Claim(workerId, at) =>
      var job := ClaimedForm(s.worker.found.value, workerId, NowIso(at));
      s.(disk := s.disk[job.id := job], worker := InFlight(job),
         log := s.log + [Queue.Claimed(job.id, workerId, at)], dirty := s.dirty + {job.id})
    case Resolve(outcome, decided, at) =>
      var job := ResolvedForm(s.worker.job, outcome, decided, NowIso(at)).value;
      s.(disk := s.disk[job.id := job], worker := Idle,
         log := s.log + [Queue.Resolved(job.id, outcome, job.status, decided, at)], dirty := s.dirty + {job.id})
    case Lose => s.(worker := Idle)
    case DogListJobs => s.(watchdog := Looking(Sorted(s.disk.Keys), None, [], 0))
    case DogRead =>
      var id := s.watchdog.todo[0];
      s.(watchdog := s.watchdog.(read := Some(s.disk[id])), dirty := s.dirty - {id})
    case DogSkip => s.(watchdog := s.watchdog.(todo := s.watchdog.todo[1..], read := None))
    case DogJudge =>
      var job := s.watchdog.read.value;
      var next := s.watchdog.(todo := s.watchdog.todo[1..], read := None);
      s.(watchdog := if IsStalled(job, STALL_THRESHOLD_SECONDS, NowIso(s.clock))
                     then next.(held := s.watchdog.held + [job], since := s.clock) else next)
    case DogSettle => s.(watchdog := Reclaiming(s.watchdog.held, s.watchdog.since))
    case DogWrite(at) =>
      var job := s.watchdog.held[0];
      s.(disk := s.disk[job.id := ReclaimedForm(job, NowIso(at))], log := s.log + [Queue.Reclaimed(job.id, at)],
         watchdog := Reclaiming(s.watchdog.held[1..], s.watchdog.since))
    case DogFail => s.(watchdog := Reclaiming(s.watchdog.held[1..], s.watchdog.since))
    case DogLose => s.(watchdog := Resting)
  }

  ghost predicate Runs(s: State, steps: seq<Step>)
    decreases |steps|
  {
    steps == [] || (Enabled(s, steps[0]) && Runs(Apply(s, steps[0]), steps[1..]))
  }

  ghost function Exec(s: State, steps: seq<Step>): State
    requires Runs(s, steps)
    decreases |steps|
  {
    if steps == [] then s else Exec(Apply(s, steps[0]), steps[1..])
  }

  /** The same job records seen without the actors' unfinished business. */
  function Abs(s: State): Queue.State {
    Queue.State(s.disk, if s.worker.InFlight? then Queue.InFlight(s.worker.job) else Queue.Idle, s.clock, s.log)
  }

  predicate Init(s: State) {
    Queue.Init(Abs(s)) && s.worker.Idle? && s.watchdog.Resting?
  }

  // ----- what any interleaving keeps ---------------------------------------------------------------

  function Held(w: Watchdog): seq<Job> {
    if w.Resting? then [] else w.held
  }

  /** Copies the watchdog has fetched and not yet let go. */
  function Copies(w: Watchdog): seq<Job> {
    if w.Looking? && w.read.Some? then w.held + [w.read.value] else Held(w)
  }

  predicate Waiting(job: Job) {
    job.status == Pending || job.status == Failed
  }

  /** The record has moved past the running copy `c`. */
  predicate Later(record: Job, c: Job) {
    record.attempts > c.attempts || (record.attempts == c.attempts && record.status != Running)
  }

  /** A copy is the record on disk until the worker writes that job, and then never again. */
  predicate CopyOk(s: State, c: Job) {
    && c.id in s.disk
    && (c.id !in s.dirty ==> s.disk[c.id] == c)
    && (c.id in s.dirty && c.status == Running ==> Later(s.disk[c.id], c))
  }

  predicate Distinct(copies: seq<Job>) {
    forall i, j :: 0 <= i < j < |copies| ==> copies[i].id != copies[j].id
  }

  ghost predicate WatchdogOk(s: State) {
    && (forall c :: c in Copies(s.watchdog) ==> CopyOk(s, c))
    && Distinct(Copies(s.watchdog))
    && (!s.watchdog.Resting? ==>
          && 0 <= s.watchdog.since <= s.clock && InRange(s.watchdog.since)
          && forall c :: c in s.watchdog.held ==> IsStalled(c, STALL_THRESHOLD_SECONDS, NowIso(s.watchdog.since)))
    && (s.watchdog.Looking? ==>
          && StrictlySorted(s.watchdog.todo)
          && (s.watchdog.read.Some? ==> s.watchdog.todo != [] && s.watchdog.read.value.id == s.watchdog.todo[0])
          && forall c :: c in s.watchdog.held ==> c.id !in s.watchdog.todo)
  }

  /** A copy the worker will or may write over the record of its job. */
  predicate Covers(s: State, job: Job) {
    && job.id in s.disk
    && forall c :: c in Copies(s.watchdog) && c.id == job.id && c.status == Running ==> c.attempts <= job.attempts
  }

  ghost predicate WorkerOk(s: State) {
    match s.worker
    case Idle => true
    case InFlight(copy) =>
      && copy.status == Running && Covers(s, copy)
      && (s.disk[copy.id] == copy || s.disk[copy.id].status == Pending)
    case Scanning(todo, read, found, since) =>
      && 0 <= since <= s.clock && InRange(since)
      && (read.Some? ==> read.value.id in s.disk)
      && (read.Some? && Waiting(read.value) ==> Covers(s, read.value) && Waiting(s.disk[read.value.id]))
      && (found.Some? ==>
            Covers(s, found.value) && Waiting(s.disk[found.value.id]) && Claimable(found.value, NowIso(since)))
  }

  ghost predicate Inv(s: State) {
    && InRange(s.clock)
    && (forall id :: id in s.disk ==> s.disk[id].id == id)
    && WatchdogOk(s)
    && WorkerOk(s)
  }

  lemma InitInv(s: State)
    requires Init(s)
    ensures Inv(s)
  {
  }

  lemma TickKeeps(s: State, step: Step)
    requires Inv(s) && Enabled(s, step) && (step.Tick? || step.Lose? || step.ListJobs? || step.Skip?)
    ensures Inv(Apply(s, step))
  {
    hide NowIso;
    assert Copies(Apply(s, step).watchdog) == Copies(s.watchdog);
  }

  lemma SubmitKeeps(s: State, step: Step)
    requires Inv(s) && Enabled(s, step) && step.Submit?
    ensures Inv(Apply(s, step))
  {
    hide NowIso;
  }

  lemma ReadKeeps(s: State, step: Step)
    requires Inv(s) && Enabled(s, step) && step.Read?
    ensures Inv(Apply(s, step))
  {
    hide NowIso;
  }

  lemma JudgeKeeps(s: State, step: Step)
    requires Inv(s) && Enabled(s, step) && step.Judge?
    ensures Inv(Apply(s, step))
  {
    hide NowIso;
  }

  lemma ClaimKeeps(s: State, step: Step)
    requires Inv(s) && Enabled(s, step) && step.Claim?
    ensures Inv(Apply(s, step))
  {
    hide NowIso;
    var s' := Apply(s, step);
    forall c | c in Copies(s'.watchdog) ensures CopyOk(s', c) {
      assert CopyOk(s, c);
    }
  }

  lemma ResolveKeeps(s: State, step: Step)
    requires Inv(s) && Enabled(s, step) && step.Resolve?
    ensures Inv(Apply(s, step))
  {
    hide NowIso;
    var s' := Apply(s, step);
    forall c | c in Copies(s'.watchdog) ensures CopyOk(s', c) {
      assert CopyOk(s, c);
    }
  }

  lemma DogReadKeeps(s: State, step: Step)
    requires Inv(s) && Enabled(s, step) && step.DogRead?
    ensures Inv(Apply(s, step))
  {
    hide NowIso;
    var s' := Apply(s, step);
    forall c | c in Copies(s'.watchdog) ensures CopyOk(s', c) {
      assert c in Copies(s.watchdog) || c == s'.watchdog.read.value;
    }
  }

  lemma DogSkipKeeps(s: State, step: Step)
    requires Inv(s) && Enabled(s, step) && step.DogSkip?
    ensures Inv(Apply(s, step))
  {
    hide NowIso;
    hide InRange;
    hide IsStalled;
    hide Claimable;
    hide StrictlySorted;
    hide CopyOk;
    var s' := Apply(s, step);
    TailSorted(s.watchdog.todo);
    assert Copies(s'.watchdog) == s.watchdog.held;
    assert forall c :: c in s.watchdog.held ==> c in Copies(s.watchdog);
    SameCopies(s, s');
    assert forall i :: 0 <= i < |s.watchdog.held| ==> s.watchdog.held[i] == Copies(s.watchdog)[i];
  }

  lemma DogJudgeKeeps(s: State, step: Step)
    requires Inv(s) && Enabled(s, step) && step.DogJudge?
    ensures Inv(Apply(s, step))
  {
    hide NowIso;
    hide InRange;
    hide IsStalled;
    hide Claimable;
    hide StrictlySorted;
    hide CopyOk;
    var s', copies := Apply(s, step), Copies(s.watchdog);
    TailSorted(s.watchdog.todo);
    assert Copies(s'.watchdog) == copies || Copies(s'.watchdog) == s.watchdog.held;
    assert forall c :: c in s.watchdog.held ==> c in copies;
    SameCopies(s, s');
    forall c | c in s'.watchdog.held
      ensures IsStalled(c, STALL_THRESHOLD_SECONDS, NowIso(s'.watchdog.since))
    {
      if c in s.watchdog.held {
        StalledStaysStalled(c, STALL_THRESHOLD_SECONDS, s.watchdog.since, s'.watchdog.since);
      }
    }
    assert forall i :: 0 <= i < |s.watchdog.held| ==> s.watchdog.held[i] == copies[i];
  }

  lemma SameCopies(s: State, s': State)
    requires s'.disk == s.disk && s'.dirty == s.dirty
    ensures forall c :: CopyOk(s, c) ==> CopyOk(s', c)
  {
  }

  lemma TailSorted(todo: seq<string>)
    requires todo != [] && StrictlySorted(todo)
    ensures StrictlySorted(todo[1..]) && todo[0] !in todo[1..]
  {
    TailMembers(todo);
    assert forall n :: n in todo[1..] ==> n in Members(todo[1..]);
  }

  lemma DogMovesKeep(s: State, step: Step)
    requires Inv(s) && Enabled(s, step) && (step.DogListJobs? || step.DogSettle? || step.DogFail? || step.DogLose?)
    ensures Inv(Apply(s, step))
  {
    hide NowIso;
    hide IsStalled;
    hide Claimable;
    hide StrictlySorted;
    hide CopyOk;
    var s' := Apply(s, step);
    assert forall c :: c in Copies(s'.watchdog) ==> c in Copies(s.watchdog);
    assert step.DogFail? ==> forall i :: 0 <= i < |s'.watchdog.held| ==> s'.watchdog.held[i] == s.watchdog.held[i + 1];
    SameCopies(s, s');
  }

  lemma DogWriteKeeps(s: State, step: Step)
    requires Inv(s) && Enabled(s, step) && step.DogWrite?
    ensures Inv(Apply(s, step))
  {
    hide NowIso;
    var s' := Apply(s, step);
    forall c | c in Copies(s'.watchdog) ensures CopyOk(s', c) && c in Copies(s.watchdog) {
      var i :| 0 <= i < |s'.watchdog.held| && s'.watchdog.held[i] == c;
      assert s.watchdog.held[i + 1] == c && CopyOk(s, c);
    }
  }

  lemma StepKeeps(s: State, step: Step)
    requires Inv(s) && Enabled(s, step)
    ensures Inv(Apply(s, step))
  {
    hide *;
    match step
    case Tick(_) => TickKeeps(s, step);
    case Submit(_, _, _, _, _) => SubmitKeeps(s, step);
    case ListJobs => TickKeeps(s, step);
    case Read => ReadKeeps(s, step);
    case Skip => TickKeeps(s, step);
    case Judge => JudgeKeeps(s, step);
    case Claim(_, _) => ClaimKeeps(s, step);
    case Resolve(_, _, _) => ResolveKeeps(s, step);
    case Lose => TickKeeps(s, step);
    case DogListJobs => DogMovesKeep(s, step);
    case DogRead => DogReadKeeps(s, step);
    case DogSkip => DogSkipKeeps(s, step);
    case DogJudge => DogJudgeKeeps(s, step);
    case DogSettle => DogMovesKeep(s, step);
    case DogWrite(_) => DogWriteKeeps(s, step);
    case DogFail => DogMovesKeep(s, step);
    case DogLose => DogMovesKeep(s, step);
  }

  lemma {:induction false} RunKeeps(s: State, steps: seq<Step>)
    requires Inv(s) && Runs(s, steps)
    ensures Inv(Exec(s, steps))
    decreases |steps|
  {
    hide NowIso;
    if steps != [] {
      StepKeeps(s, steps[0]);
      RunKeeps(Apply(s, steps[0]), steps[1..]);
    }
  }

  /**
   In every state any interleaving reaches, a stalled copy the watchdog holds is the record on disk if
   and only if no worker write of that job landed since the watchdog read it.
   */
  lemma HeldCopyCurrent(s: State, steps: seq<Step>, c: Job)
    requires Init(s) && Runs(s, steps) && c in Held(Exec(s, steps).watchdog)
    ensures var end := Exec(s, steps);
      c.id in end.disk && c.status == Running && (end.disk[c.id] == c <==> c.id !in end.dirty)
  {
    hide NowIso;
    InitInv(s);
    RunKeeps(s, steps);
    var end := Exec(s, steps);
    assert c in Copies(end.watchdog) && CopyOk(end, c);
  }

  /**
   In every reachable state, a terminal record is changed by exactly one kind of step: a reclaim write
   of a copy of that job that a worker write has meanwhile made stale.
   */
  lemma TerminalChangesOnlyByStaleReclaim(s: State, steps: seq<Step>, step: Step, id: string)
    requires Init(s) && Runs(s, steps)
    requires Enabled(Exec(s, steps), step) && id in Exec(s, steps).disk && Terminal(Exec(s, steps).disk[id])
    ensures var end := Exec(s, steps);
      && (Apply(end, step).disk[id] != end.disk[id] <==> step.DogWrite? && end.watchdog.held[0].id == id)
      && (step.DogWrite? && end.watchdog.held[0].id == id ==> id in end.dirty)
  {
    hide NowIso;
    InitInv(s);
    RunKeeps(s, steps);
    var end := Exec(s, steps);
    if step.DogWrite? {
      HeldCopyCurrent(s, steps, end.watchdog.held[0]);
    }
  }

  // ----- attempts ----------------------------------------------------------------------------------

  /** A copy the worker may write is never behind the record on attempts, whatever stale reclaims put there. */
  predicate NotBehind(s: State, job: Job) {
    job.id in s.disk ==> s.disk[job.id].attempts <= job.attempts
  }

  ghost predicate AttemptsInv(s: State) {
    match s.worker
    case Idle => true
    case InFlight(copy) => NotBehind(s, copy)
    case Scanning(_, read, found, _) =>
      (read.Some? && Waiting(read.value) ==> NotBehind(s, read.value)) && (found.Some? ==> NotBehind(s, found.value))
  }

  lemma AttemptsKeep(s: State, step: Step)
    requires Inv(s) && AttemptsInv(s) && Enabled(s, step)
    ensures AttemptsInv(Apply(s, step))
  {
    hide NowIso;
    hide IsStalled;
    hide StrictlySorted;
    hide Distinct;
    if step.DogWrite? {
      ReclaimKeepsAttempts(s, step);
    }
  }

  lemma ReclaimKeepsAttempts(s: State, step: Step)
    requires Inv(s) && AttemptsInv(s) && Enabled(s, step) && step.DogWrite?
    ensures AttemptsInv(Apply(s, step))
  {
    hide NowIso;
    hide IsStalled;
    hide StrictlySorted;
    hide Claimable;
    hide Distinct;
    var held := s.watchdog.held[0];
    assert held in Copies(s.watchdog);
    assert IsStalled(held, STALL_THRESHOLD_SECONDS, NowIso(s.watchdog.since));
    StalledRuns(held, NowIso(s.watchdog.since));
  }

  lemma StalledRuns(job: Job, now: string)
    requires IsStalled(job, STALL_THRESHOLD_SECONDS, now)
    ensures job.status == Running
  {
  }

  lemma {:induction false} RunKeepsAttempts(s: State, steps: seq<Step>)
    requires Inv(s) && AttemptsInv(s) && Runs(s, steps)
    ensures Inv(Exec(s, steps)) && AttemptsInv(Exec(s, steps))
    decreases |steps|
  {
    hide Inv;
    hide AttemptsInv;
    hide Enabled;
    hide Apply;
    if steps != [] {
      StepKeeps(s, steps[0]);
      AttemptsKeep(s, steps[0]);
      RunKeepsAttempts(Apply(s, steps[0]), steps[1..]);
    }
  }

  /** Attempts fall exactly when the watchdog writes back a copy that has fewer, and then it is a stale one. */
  lemma AttemptsFallOnlyByStaleReclaim(s: State, steps: seq<Step>, step: Step, id: string)
    requires Init(s) && Runs(s, steps) && Enabled(Exec(s, steps), step) && id in Exec(s, steps).disk
    ensures var end := Exec(s, steps);
      && id in Apply(end, step).disk
      && (Apply(end, step).disk[id].attempts < end.disk[id].attempts
          <==> step.DogWrite? && end.watchdog.held[0].id == id
               && end.watchdog.held[0].attempts < end.disk[id].attempts)
      && (Apply(end, step).disk[id].attempts < end.disk[id].attempts ==> id in end.dirty)
  {
    hide NowIso;
    hide IsStalled;
    hide StrictlySorted;
    InitInv(s);
    RunKeepsAttempts(s, steps);
    var end := Exec(s, steps);
    if step.DogWrite? {
      assert end.watchdog.held[0] in Copies(end.watchdog);
    }
  }

  // ----- reduction to atomic reclaims ----------------------------------------------------------------

  /** A reclaim write is clean when the worker has not written the job since the watchdog read it. */
  predicate Clean(s: State, step: Step) {
    step.DogWrite? && s.watchdog.Reclaiming? && s.watchdog.held != [] ==> s.watchdog.held[0].id !in s.dirty
  }

  ghost predicate CleanRuns(s: State, steps: seq<Step>)
    decreases |steps|
  {
    steps == [] || (Enabled(s, steps[0]) && Clean(s, steps[0]) && CleanRuns(Apply(s, steps[0]), steps[1..]))
  }

  /** With clean reclaims only, what the worker found claimable is still what the disk says. */
  predicate Current(s: State) {
    s.worker.Scanning? ==>
      && (s.worker.read.Some? && Waiting(s.worker.read.value) ==>
            s.worker.read.value.id in s.disk && s.disk[s.worker.read.value.id] == s.worker.read.value)
      && (s.worker.found.Some? ==>
            s.worker.found.value.id in s.disk && s.disk[s.worker.found.value.id] == s.worker.found.value)
  }

  lemma CurrentKeeps(s: State, step: Step)
    requires Inv(s) && Current(s) && Enabled(s, step) && Clean(s, step)
    ensures Current(Apply(s, step))
  {
    hide NowIso;
    if step.DogWrite? {
      assert s.watchdog.held[0] in Copies(s.watchdog) && CopyOk(s, s.watchdog.held[0]);
    }
  }

  /** Each step is one step of the atomic system on the same records, or none. */
  lemma StepReduces(s: State, step: Step) returns (atomic: seq<Queue.Step>)
    requires Inv(s) && Current(s) && Enabled(s, step) && Clean(s, step)
    ensures Queue.Runs(Abs(s), atomic) && Queue.Exec(Abs(s), atomic) == Abs(Apply(s, step))
  {
    hide NowIso;
    hide IsStalled;
    hide StrictlySorted;
    hide Queue.Runs;
    hide Queue.Exec;
    var a := Abs(s);
    Queue.RunNothing(a);
    atomic := [];
    match step
    case Tick(now) =>
      Queue.RunOne(a, Queue.Tick(now));
      atomic := [Queue.Tick(now)];
    case Submit(id, kind, payload, maxAttempts, at) =>
      Queue.RunOne(a, Queue.Submit(id, kind, payload, maxAttempts, at));
      atomic := [Queue.Submit(id, kind, payload, maxAttempts, at)];
    case Claim(workerId, at) =>
      var job := s.worker.found.value;
      ClaimableStaysClaimable(job, s.worker.since, at);
      Queue.RunOne(a, Queue.Claim(job.id, workerId, at));
      atomic := [Queue.Claim(job.id, workerId, at)];
    case Resolve(outcome, decided, at) =>
      Queue.RunOne(a, Queue.Resolve(outcome, decided, at));
      atomic := [Queue.Resolve(outcome, decided, at)];
    case Lose =>
      Queue.RunOne(a, Queue.Lose);
      atomic := [Queue.Lose];
    case DogWrite(at) =>
      var job := s.watchdog.held[0];
      assert job in Copies(s.watchdog) && CopyOk(s, job);
      StalledStaysStalled(job, STALL_THRESHOLD_SECONDS, s.watchdog.since, at);
      Queue.RunOne(a, Queue.Reclaim(job.id, at));
      atomic := [Queue.Reclaim(job.id, at)];
    case _ =>
  }

  /**
   Every interleaving whose reclaim writes are clean reaches the records, the log and the clock of a run
   in which each reclaim is one atomic step and a claim takes some job that is claimable as it is written.
   */
  lemma {:induction false} Reduction(s: State, steps: seq<Step>) returns (atomic: seq<Queue.Step>)
    requires Inv(s) && Current(s) && CleanRuns(s, steps)
    ensures Runs(s, steps) && Queue.Runs(Abs(s), atomic) && Queue.Exec(Abs(s), atomic) == Abs(Exec(s, steps))
    decreases |steps|
  {
    hide NowIso;
    hide Enabled;
    hide Apply;
    hide Inv;
    hide Queue.Enabled;
    hide Queue.Apply;
    if steps == [] {
      atomic := [];
    } else {
      var s' := Apply(s, steps[0]);
      var first := StepReduces(s, steps[0]);
      StepKeeps(s, steps[0]);
      CurrentKeeps(s, steps[0]);
      var rest := Reduction(s', steps[1..]);
      Queue.RunAppend(Abs(s), first, rest);
      atomic := first + rest;
    }
  }

  /** So the guarantees of the atomic system hold of every interleaving with clean reclaims. */
  lemma CleanRunsAreSafe(s: State, steps: seq<Step>, id: string)
    requires Init(s) && CleanRuns(s, steps) && Runs(s, steps) && id in Exec(s, steps).disk
    ensures var end := Exec(s, steps);
      && Queue.RecordOk(end.disk[id], id, end.log)
      && Queue.Timed(end.log)
      && (id in s.disk ==> s.disk[id].attempts <= end.disk[id].attempts)
  {
    hide NowIso;
    InitInv(s);
    var atomic := Reduction(s, steps);
    Queue.InitInv(Abs(s));
    Queue.RunKeeps(Abs(s), atomic);
    Queue.RunsAreTimed(Abs(s), atomic);
    if id in s.disk {
      Queue.TerminalAbsorbing(Abs(s), atomic, id);
    }
  }

  lemma {:induction false} CleanRunsStayCurrent(s: State, steps: seq<Step>)
    requires Inv(s) && Current(s) && CleanRuns(s, steps)
    ensures Runs(s, steps) && Inv(Exec(s, steps)) && Current(Exec(s, steps))
    decreases |steps|
  {
    hide Inv;
    hide Current;
    hide Enabled;
    hide Apply;
    hide Clean;
    if steps != [] {
      StepKeeps(s, steps[0]);
      CurrentKeeps(s, steps[0]);
      CleanRunsStayCurrent(Apply(s, steps[0]), steps[1..]);
    }
  }

  /** A record that has become terminal stays as it is for as long as the reclaims stay clean. */
  lemma CleanRunsKeepTerminal(s: State, before: seq<Step>, after: seq<Step>, id: string)
    requires Init(s) && CleanRuns(s, before) && Runs(s, before)
    requires CleanRuns(Exec(s, before), after) && Runs(Exec(s, before), after)
    requires id in Exec(s, before).disk && Terminal(Exec(s, before).disk[id])
    ensures id in Exec(Exec(s, before), after).disk
    ensures Exec(Exec(s, before), after).disk[id] == Exec(s, before).disk[id]
  {
    hide NowIso;
    InitInv(s);
    var mid := Exec(s, before);
    var first := Reduction(s, before);
    Queue.InitInv(Abs(s));
    Queue.RunKeeps(Abs(s), first);
    CleanRunsStayCurrent(s, before);
    var rest := Reduction(mid, after);
    Queue.TerminalAbsorbing(Abs(mid), rest, id);
  }

  // ----- why the reclaim has to be clean -------------------------------------------------------------

  lemma {:induction false} RunSnoc(s: State, steps: seq<Step>, step: Step)
    requires Runs(s, steps) && Enabled(Exec(s, steps), step)
    ensures Runs(s, steps + [step]) && Exec(s, steps + [step]) == Apply(Exec(s, steps), step)
    decreases |steps|
  {
    hide NowIso;
    hide Enabled;
    hide Apply;
    if steps == [] {
      assert [] + [step] == [step] && [step][1..] == [];
      assert Runs(Apply(s, step), []);
    } else {
      assert (steps + [step])[0] == steps[0] && (steps + [step])[1..] == steps[1..] + [step];
      RunSnoc(Apply(s, steps[0]), steps[1..], step);
    }
  }

  /** Job "j" alone on disk. */
  ghost predicate OnlyJ(s: State, status: Status) {
    && s.disk.Keys == {"j"} && s.disk["j"].id == "j" && s.disk["j"].status == status
    && 0 <= s.clock && InRange(s.clock)
  }

  /** An idle worker finds job "j" pending and claims it. */
  lemma ClaimsJ(start: State, before: seq<Step>) returns (steps: seq<Step>)
    requires Runs(start, before) && OnlyJ(Exec(start, before), Pending) && Exec(start, before).worker.Idle?
    ensures Runs(start, steps)
    ensures var s, end := Exec(start, before), Exec(start, steps);
      && OnlyJ(end, Running) && end.clock == s.clock && end.watchdog == s.watchdog
      && end.disk["j"].claimedAt == Some(NowIso(s.clock)) && end.worker == InFlight(end.disk["j"])
      && end.log == s.log + [Queue.Claimed("j", "", s.clock)]
  {
    hide NowIso;
    hide Runs;
    hide Exec;
    SortedOne("j");
    var s0 := Exec(start, before);
    RunSnoc(start, before, ListJobs);
    var s1 := Apply(s0, ListJobs);
    var run := before + [ListJobs];
    RunSnoc(start, run, Read);
    var s2 := Apply(s1, Read);
    RunSnoc(start, run + [Read], Judge);
    var s3 := Apply(s2, Judge);
    RunSnoc(start, run + [Read] + [Judge], Claim("", s0.clock));
    steps := run + [Read] + [Judge] + [Claim("", s0.clock)];
  }

  /** The handler returns. */
  lemma SucceedsJ(start: State, before: seq<Step>) returns (steps: seq<Step>)
    requires Runs(start, before) && OnlyJ(Exec(start, before), Running)
    requires Exec(start, before).worker == InFlight(Exec(start, before).disk["j"])
    ensures Runs(start, steps)
    ensures var s, end := Exec(start, before), Exec(start, steps);
      && OnlyJ(end, Succeeded) && end.clock == s.clock && end.watchdog == s.watchdog && end.worker.Idle?
      && end.log == s.log + [Queue.Resolved("j", Returned(map[]), Succeeded, s.clock, s.clock)]
  {
    hide NowIso;
    hide Runs;
    hide Exec;
    var s := Exec(start, before);
    RunSnoc(start, before, Resolve(Returned(map[]), s.clock, s.clock));
    steps := before + [Resolve(Returned(map[]), s.clock, s.clock)];
  }

  /** A submitted job. */
  lemma SubmittedOnce() returns (start: State, steps: seq<Step>)
    ensures Init(start) && Runs(start, steps)
    ensures var end := Exec(start, steps);
      OnlyJ(end, Pending) && end.clock == 0 && end.watchdog.Resting? && end.worker.Idle? && end.log == []
  {
    hide NowIso;
    start := State(map[], 0, [], Idle, Resting, {});
    var submit := Submit("j", "", map[], 1, 0);
    assert Exec(start, []) == start;
    RunSnoc(start, [], submit);
    steps := [] + [submit];
  }

  /** The watchdog reads the claimed job as stalled and holds the copy. */
  lemma HeldOnce() returns (start: State, steps: seq<Step>)
    ensures Init(start) && Runs(start, steps)
    ensures var end := Exec(start, steps);
      && OnlyJ(end, Running) && end.worker == InFlight(end.disk["j"]) && end.log == [Queue.Claimed("j", "", 0)]
      && end.watchdog.Reclaiming? && |end.watchdog.held| == 1 && end.watchdog.held[0].id == "j"
      && 0 <= end.watchdog.since <= end.clock
  {
    hide NowIso;
    hide Runs;
    hide Exec;
    start, steps := SubmittedOnce();
    var run := ClaimsJ(start, steps);
    SortedOne("j");
    var s0 := Exec(start, run);
    RunSnoc(start, run, Tick(Micros(301)));
    var s1 := Apply(s0, Tick(Micros(301)));
    run := run + [Tick(Micros(301))];
    RunSnoc(start, run, DogListJobs);
    var s2 := Apply(s1, DogListJobs);
    RunSnoc(start, run + [DogListJobs], DogRead);
    var s3 := Apply(s2, DogRead);
    WaitedMeansStalled(s3.watchdog.read.value, 0, Micros(301));
    RunSnoc(start, run + [DogListJobs] + [DogRead], DogJudge);
    var s4 := Apply(s3, DogJudge);
    RunSnoc(start, run + [DogListJobs] + [DogRead] + [DogJudge], DogSettle);
    steps := run + [DogListJobs] + [DogRead] + [DogJudge] + [DogSettle];
  }

  /** A run in which a job succeeds and the next step, a stale reclaim write, makes it pending again. */
  lemma StaleReclaimUndoesSuccess() returns (start: State, steps: seq<Step>, last: Step)
    ensures Init(start) && Runs(start, steps) && OnlyJ(Exec(start, steps), Succeeded) && Exec(start, steps).worker.Idle?
    ensures var s := Exec(start, steps);
      s.log == [Queue.Claimed("j", "", 0), Queue.Resolved("j", Returned(map[]), Succeeded, s.clock, s.clock)]
    ensures Enabled(Exec(start, steps), last) && OnlyJ(Apply(Exec(start, steps), last), Pending)
    ensures last == DogWrite(Exec(start, steps).clock) && Exec(start, steps).watchdog.held[0].id == "j"
  {
    hide NowIso;
    hide Runs;
    hide Exec;
    var before: seq<Step>;
    start, before := HeldOnce();
    steps := SucceedsJ(start, before);
    last := DogWrite(Exec(start, steps).clock);
  }

  /** And so a job can succeed twice. */
  lemma SucceedsTwice() returns (start: State, steps: seq<Step>)
    ensures Init(start) && Runs(start, steps) && OnlyJ(Exec(start, steps), Succeeded)
    ensures Queue.Count(Exec(start, steps).log, "j", Queue.SuccessTally) == 2
  {
    hide NowIso;
    hide Runs;
    hide Exec;
    hide Init;
    var first: seq<Step>, last: Step;
    start, first, last := StaleReclaimUndoesSuccess();
    var s0 := Exec(start, first);
    RunSnoc(start, first, last);
    var s1 := Exec(start, first + [last]);
    var claimed := ClaimsJ(start, first + [last]);
    steps := SucceedsJ(start, claimed);
    SuccessesAmong(s0.clock, s1.clock, Exec(start, steps).log);
  }

  lemma SuccessesAmong(a: int, b: int, log: seq<Queue.Event>)
    requires log == [
      Queue.Claimed("j", "", 0), Queue.Resolved("j", Returned(map[]), Succeeded, a, a), Queue.Reclaimed("j", a),
      Queue.Claimed("j", "", b), Queue.Resolved("j", Returned(map[]), Succeeded, b, b)]
    ensures Queue.Count(log, "j", Queue.SuccessTally) == 2
  {
    hide Queue.Count;
    var none: seq<Queue.Event> := [];
    var l1 := none + [log[0]];
    var l2 := l1 + [log[1]];
    var l3 := l2 + [log[2]];
    var l4 := l3 + [log[3]];
    Queue.NoEvents(none, "j");
    Queue.Appended(none, log[0], "j");
    Queue.Appended(l1, log[1], "j");
    Queue.Appended(l2, log[2], "j");
    Queue.Appended(l3, log[3], "j");
    Queue.Appended(l4, log[4], "j");
    assert log == l4 + [log[4]];
  }
}
