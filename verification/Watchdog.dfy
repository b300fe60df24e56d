/** The watchdog's scan and reclaim pass over a vault of job files (axiom-queue/watchdog.py). */
module Watchdog {
  import opened Wrappers
  import opened Text
  import opened Stamp
  import opened Jobs
  import opened Records
  import opened Worker
  import Queue

  // ----- scan ------------------------------------------------------------------------------------

  /** The stalled jobs among `ids`, in that order; `now(i)` is what the clock shows when the `i`-th is judged. */
  function StalledJobs(jobs: map<string, Job>, ids: seq<string>, threshold: real, now: nat -> string): seq<Job> {
    if ids == [] then []
    else
      var n := |ids| - 1;
      var init := StalledJobs(jobs, ids[..n], threshold, now);
      if ids[n] in jobs && IsStalled(jobs[ids[n]], threshold, now(n)) then init + [jobs[ids[n]]] else init
  }

  method ScanForStalledJobs(vault: Vault, threshold: real, now: nat -> string) returns (stalled: seq<Job>)
    ensures stalled == StalledJobs(vault.jobs, Sorted(vault.jobs.Keys + vault.corrupt), threshold, now)
  {
    hide IsStalled;
    hide StalledJobs;
    stalled := [];
    var ids := vault.ListJobs();
    ScanStep(vault.jobs, ids, threshold, 0, now);
    for i := 0 to |ids|
      invariant stalled == StalledJobs(vault.jobs, ids[..i], threshold, now)
    {
      var id := ids[i];
      ScanStep(vault.jobs, ids, threshold, i, now);
      if id in vault.jobs {
        var job := vault.jobs[id];
        if IsStalled(job, threshold, now(i)) {
          stalled := stalled + [job];
        }
      }
    }
    assert ids[..|ids|] == ids;
  }

  lemma ScanStep(jobs: map<string, Job>, ids: seq<string>, threshold: real, i: nat, now: nat -> string)
    requires i <= |ids|
    ensures StalledJobs(jobs, ids[..0], threshold, now) == []
    ensures i < |ids| ==>
      var before := StalledJobs(jobs, ids[..i], threshold, now);
      StalledJobs(jobs, ids[..i + 1], threshold, now)
        == if ids[i] in jobs && IsStalled(jobs[ids[i]], threshold, now(i)) then before + [jobs[ids[i]]] else before
  {
    hide IsStalled;
    if i < |ids| {
      assert ids[..i + 1][..i] == ids[..i];
    }
  }

  /** The `k`-th file of the listing is judged stalled. */
  predicate Judged(jobs: map<string, Job>, ids: seq<string>, threshold: real, now: nat -> string, k: nat)
    requires k < |ids|
  {
    ids[k] in jobs && IsStalled(jobs[ids[k]], threshold, now(k))
  }

  ghost predicate OwnIds(jobs: map<string, Job>) {
    forall id :: id in jobs ==> jobs[id].id == id
  }

  /** A job that some reading of the scan judged stalled. */
  ghost predicate Picked(jobs: map<string, Job>, ids: seq<string>, threshold: real, now: nat -> string, job: Job) {
    exists k :: 0 <= k < |ids| && Judged(jobs, ids, threshold, now, k) && jobs[ids[k]] == job
  }

  /** The scan finds exactly the jobs judged stalled, each once, in order of their ids. */
  lemma {:induction false} StalledJobsAre(jobs: map<string, Job>, ids: seq<string>, threshold: real, now: nat -> string)
    requires StrictlySorted(ids) && OwnIds(jobs)
    ensures var stalled := StalledJobs(jobs, ids, threshold, now);
      && (forall job :: job in stalled <==> Picked(jobs, ids, threshold, now, job))
      && (forall i, j :: 0 <= i < j < |stalled| ==> StrLt(stalled[i].id, stalled[j].id))
  {
    hide IsStalled;
    hide StrLt;
    hide StalledJobs;
    hide Picked;
    if ids == [] {
      NonePicked(jobs, threshold, now);
    } else {
      var n := |ids| - 1;
      var before := ids[..n];
      StalledJobsAre(jobs, before, threshold, now);
      ScanStep(jobs, ids, threshold, n, now);
      assert ids[..n + 1] == ids;
      var init := StalledJobs(jobs, before, threshold, now);
      forall i | 0 <= i < |init| ensures StrLt(init[i].id, ids[n]) {
        assert init[i] in init;
        PickedBefore(jobs, ids, threshold, now, init[i]);
      }
      forall job ensures Picked(jobs, ids, threshold, now, job)
        <==> Picked(jobs, before, threshold, now, job) || (Judged(jobs, ids, threshold, now, n) && jobs[ids[n]] == job)
      {
        PickedSplit(jobs, ids, threshold, now, job);
      }
    }
  }

  lemma NonePicked(jobs: map<string, Job>, threshold: real, now: nat -> string)
    ensures StalledJobs(jobs, [], threshold, now) == []
    ensures forall job :: !Picked(jobs, [], threshold, now, job)
  {
  }

  lemma PickedSplit(jobs: map<string, Job>, ids: seq<string>, threshold: real, now: nat -> string, job: Job)
    requires ids != []
    ensures var n := |ids| - 1;
      Picked(jobs, ids, threshold, now, job)
      <==> Picked(jobs, ids[..n], threshold, now, job) || (Judged(jobs, ids, threshold, now, n) && jobs[ids[n]] == job)
  {
    hide IsStalled;
    var n := |ids| - 1;
    assert forall k :: 0 <= k < n ==>
      (Judged(jobs, ids[..n], threshold, now, k) <==> Judged(jobs, ids, threshold, now, k));
    assert forall k :: 0 <= k < n ==> ids[..n][k] == ids[k];
    if Picked(jobs, ids[..n], threshold, now, job) {
      var k :| 0 <= k < n && Judged(jobs, ids[..n], threshold, now, k) && jobs[ids[..n][k]] == job;
      assert Judged(jobs, ids, threshold, now, k) && jobs[ids[k]] == job;
    }
  }

  lemma PickedBefore(jobs: map<string, Job>, ids: seq<string>, threshold: real, now: nat -> string, job: Job)
    requires ids != [] && StrictlySorted(ids) && OwnIds(jobs) && Picked(jobs, ids[..|ids| - 1], threshold, now, job)
    ensures StrLt(job.id, ids[|ids| - 1])
  {
    hide IsStalled;
    hide StrLt;
    var n := |ids| - 1;
    var k :| 0 <= k < n && Judged(jobs, ids[..n], threshold, now, k) && jobs[ids[..n][k]] == job;
    assert job.id == ids[k];
  }

  // ----- reclaim -----------------------------------------------------------------------------------

  /** The file is read again for its body, and written back as pending with the note after the body. */
  method Reclaim(vault: Vault, job: Job, now: string, note: string) returns (reclaimed: Option<Job>)
    modifies vault
    ensures reclaimed.Some? ==> job.id in old(vault.bodies) && reclaimed.value == ReclaimedForm(job, now)
    ensures vault.reliable && job.id in old(vault.bodies) ==> reclaimed.Some?
    ensures vault.State()
         == if reclaimed.Some? then Put(old(vault.State()), ReclaimedForm(job, now), old(vault.bodies)[job.id] + note)
            else old(vault.State())
  {
    var pending := job.(status := Pending, updatedAt := now, result := None, error := None,
                        nextAttemptAt := None, workerId := None, claimedAt := None);
    var body := vault.ReadBody(job.id);
    if body.None? {
      return None;
    }
    var ok := vault.Store(pending, body.value + note);
    reclaimed := if ok then Some(pending) else None;
  }

  /** The stamp and the note of the `i`-th reclaim of a pass. */
  datatype Notes = Notes(written: nat -> string, text: (nat, Job) -> string)

  /** One reclaim, the `i`-th of its pass. */
  function Reclaimed(g: Files, job: Job, i: nat, notes: Notes): Files
    requires job.id in g.bodies
  {
    Put(g, ReclaimedForm(job, notes.written(i)), g.bodies[job.id] + notes.text(i, job))
  }

  /** The files after the first `|landed|` reclaims, of which `landed` says which went through. */
  function AfterReclaims(f: Files, stalled: seq<Job>, landed: seq<bool>, notes: Notes): Files
    requires |landed| <= |stalled|
  {
    if landed == [] then f
    else
      var i := |landed| - 1;
      var g := AfterReclaims(f, stalled, landed[..i], notes);
      var job := stalled[i];
      if landed[i] && job.id in g.bodies then Reclaimed(g, job, i, notes) else g
  }

  ghost predicate DistinctIds(stalled: seq<Job>) {
    forall i, j :: 0 <= i < j < |stalled| ==> stalled[i].id != stalled[j].id
  }

  /** No reclaim of this id went through. */
  ghost predicate Spared(stalled: seq<Job>, landed: seq<bool>, id: string)
    requires |landed| <= |stalled|
  {
    forall i :: 0 <= i < |landed| && landed[i] ==> stalled[i].id != id
  }

  /** The `i`-th stalled job is pending again, with its own note after its own body. */
  ghost predicate Redone(f: Files, g: Files, job: Job, i: nat, notes: Notes) {
    && job.id in g.jobs && g.jobs[job.id] == ReclaimedForm(job, notes.written(i))
    && job.id in f.bodies && job.id in g.bodies && g.bodies[job.id] == f.bodies[job.id] + notes.text(i, job)
  }

  /** Record and body under this id are what they were. */
  ghost predicate Same(f: Files, g: Files, id: string) {
    && (id in g.jobs <==> id in f.jobs) && (id in f.jobs ==> g.jobs[id] == f.jobs[id])
    && (id in g.bodies <==> id in f.bodies) && (id in f.bodies ==> g.bodies[id] == f.bodies[id])
  }

  /** Every job whose reclaim went through is redone, and every other record and body is what it was. */
  lemma {:induction false} ReclaimsAre(f: Files, stalled: seq<Job>, landed: seq<bool>, notes: Notes)
    requires |landed| <= |stalled| && DistinctIds(stalled)
    requires forall i :: 0 <= i < |landed| && landed[i] ==> stalled[i].id in f.bodies
    ensures var g := AfterReclaims(f, stalled, landed, notes);
      && (forall i :: 0 <= i < |landed| && landed[i] ==> Redone(f, g, stalled[i], i, notes))
      && (forall id :: Spared(stalled, landed, id) ==> Same(f, g, id))
  {
    hide AfterReclaims;
    hide Redone;
    hide Same;
    hide Put;
    hide Spared;
    if landed == [] {
      NoReclaims(f, stalled, notes);
      forall id ensures Same(f, f, id) {
        SameAsItself(f, id);
      }
    } else {
      var n := |landed| - 1;
      var init := landed[..n];
      var g, g' := AfterReclaims(f, stalled, init, notes), AfterReclaims(f, stalled, landed, notes);
      var job := stalled[n];
      assert init + [landed[n]] == landed;
      assert forall i :: 0 <= i < n ==> init[i] == landed[i];
      ReclaimsAre(f, stalled, init, notes);
      NextReclaim(f, stalled, init, notes, landed[n]);
      SparedSplit(stalled, landed);
      if landed[n] {
        ReclaimRedoes(f, g, job, n, notes);
        forall i | 0 <= i < n && landed[i] ensures Redone(f, g', stalled[i], i, notes) {
          RedoneStays(f, g, stalled[i], i, job, n, notes);
        }
        forall id | Spared(stalled, landed, id) ensures Same(f, g', id) {
          SameStays(f, g, id, job, n, notes);
        }
      }
    }
  }

  lemma SparedSplit(stalled: seq<Job>, landed: seq<bool>)
    requires landed != [] && |landed| <= |stalled| && DistinctIds(stalled)
    ensures var n := |landed| - 1;
      && Spared(stalled, landed[..n], stalled[n].id)
      && forall id :: Spared(stalled, landed, id) ==>
         Spared(stalled, landed[..n], id) && (landed[n] ==> stalled[n].id != id)
  {
  }

  lemma SameAsItself(f: Files, id: string)
    ensures Same(f, f, id)
  {
  }

  lemma ReclaimRedoes(f: Files, g: Files, job: Job, i: nat, notes: Notes)
    requires Same(f, g, job.id) && job.id in f.bodies
    ensures job.id in g.bodies && Redone(f, Reclaimed(g, job, i, notes), job, i, notes)
  {
  }

  lemma RedoneStays(f: Files, g: Files, done: Job, j: nat, job: Job, i: nat, notes: Notes)
    requires Redone(f, g, done, j, notes) && job.id in g.bodies && done.id != job.id
    ensures Redone(f, Reclaimed(g, job, i, notes), done, j, notes)
  {
  }

  lemma SameStays(f: Files, g: Files, id: string, job: Job, i: nat, notes: Notes)
    requires Same(f, g, id) && job.id in g.bodies && id != job.id
    ensures Same(f, Reclaimed(g, job, i, notes), id)
  {
  }

  lemma NoReclaims(f: Files, stalled: seq<Job>, notes: Notes)
    ensures AfterReclaims(f, stalled, [], notes) == f && Forms(stalled, [], notes) == []
  {
  }

  /** The records `step_once` returns. */
  function Forms(stalled: seq<Job>, landed: seq<bool>, notes: Notes): seq<Job>
    requires |landed| <= |stalled|
  {
    if landed == [] then []
    else
      var i := |landed| - 1;
      var init := Forms(stalled, landed[..i], notes);
      if landed[i] then init + [ReclaimedForm(stalled[i], notes.written(i))] else init
  }

  /**
   A pass over the first `|landed|` stalled jobs: the reclaims that went through made the files what they are and are
   what is returned; each was of a file that could be read, and on a reliable vault of readable files each went through.
   */
  ghost predicate Passed(before: Files, after: Files, reliable: bool, stalled: seq<Job>, landed: seq<bool>,
                         reclaimed: seq<Job>, notes: Notes)
    requires |landed| <= |stalled|
  {
    && after == AfterReclaims(before, stalled, landed, notes) && reclaimed == Forms(stalled, landed, notes)
    && after.bodies.Keys == before.bodies.Keys
    && (forall i :: 0 <= i < |landed| && landed[i] ==> stalled[i].id in before.bodies)
    && (reliable && (forall job :: job in stalled ==> job.id in before.bodies) ==>
          forall i :: 0 <= i < |landed| ==> landed[i])
  }

  /** One pass: the scan, then a reclaim of each stalled job in turn; one that fails does not stop the others. */
  method StepOnce(vault: Vault, threshold: real, judged: nat -> string, notes: Notes)
    returns (reclaimed: seq<Job>, ghost landed: seq<bool>)
    modifies vault
    ensures var ids := Sorted(old(vault.jobs.Keys + vault.corrupt));
      var stalled := StalledJobs(old(vault.jobs), ids, threshold, judged);
      && |landed| == |stalled|
      && Passed(old(vault.State()), vault.State(), vault.reliable, stalled, landed, reclaimed, notes)
  {
    hide IsStalled;
    hide StalledJobs;
    hide Passed;
    ghost var before := vault.State();
    var stalled := ScanForStalledJobs(vault, threshold, judged);
    reclaimed, landed := [], [];
    NothingPassed(before, vault.reliable, stalled, notes);
    for i := 0 to |stalled|
      invariant |landed| == i && Passed(before, vault.State(), vault.reliable, stalled, landed, reclaimed, notes)
    {
      ghost var f := vault.State();
      var r := Reclaim(vault, stalled[i], notes.written(i), notes.text(i, stalled[i]));
      PassesOn(before, f, vault.State(), vault.reliable, stalled, landed, reclaimed, notes, r);
      landed := landed + [r.Some?];
      if r.Some? {
        reclaimed := reclaimed + [r.value];
      }
    }
  }

  lemma NothingPassed(before: Files, reliable: bool, stalled: seq<Job>, notes: Notes)
    ensures Passed(before, before, reliable, stalled, [], [], notes)
  {
  }

  lemma PassesOn(before: Files, f: Files, after: Files, reliable: bool, stalled: seq<Job>, landed: seq<bool>,
                 reclaimed: seq<Job>, notes: Notes, r: Option<Job>)
    requires |landed| < |stalled| && Passed(before, f, reliable, stalled, landed, reclaimed, notes)
    requires var job := stalled[|landed|];
      && (r.Some? ==> job.id in f.bodies && r.value == ReclaimedForm(job, notes.written(|landed|)))
      && (reliable && job.id in f.bodies ==> r.Some?)
      && after == if r.Some? then Reclaimed(f, job, |landed|, notes) else f
    ensures Passed(before, after, reliable, stalled, landed + [r.Some?],
                   if r.Some? then reclaimed + [r.value] else reclaimed, notes)
  {
    hide AfterReclaims;
    hide Forms;
    var n := |landed|;
    assert stalled[n] in stalled;
    NextReclaim(before, stalled, landed, notes, r.Some?);
    assert Forms(stalled, landed, notes) + [] == Forms(stalled, landed, notes);
  }

  lemma NextReclaim(f: Files, stalled: seq<Job>, landed: seq<bool>, notes: Notes, ok: bool)
    requires |landed| < |stalled|
    ensures var i, g := |landed|, AfterReclaims(f, stalled, landed, notes);
      && AfterReclaims(f, stalled, landed + [ok], notes)
         == (if ok && stalled[i].id in g.bodies then Reclaimed(g, stalled[i], i, notes) else g)
      && Forms(stalled, landed + [ok], notes)
         == Forms(stalled, landed, notes) + (if ok then [ReclaimedForm(stalled[i], notes.written(i))] else [])
  {
    assert (landed + [ok])[..|landed|] == landed;
  }

  // ----- the pass as a run of the step system ------------------------------------------------------------

  /** The clock never goes back: every judgement comes before every write. */
  ghost predicate PassInOrder(judgedAt: nat -> int, writtenAt: nat -> int, clock: int) {
    && (forall k: nat :: 0 <= judgedAt(k) <= writtenAt(0))
    && (forall i: nat :: writtenAt(0) <= writtenAt(i) <= clock)
  }

  /** A pass whose readings lie in this order is a run of atomic reclaims, one for each that went through. */
  lemma {:induction false} PassIsRun(s: Queue.State, f: Files, ids: seq<string>, judgedAt: nat -> int,
                                     writtenAt: nat -> int,
                                     stalled: seq<Job>, landed: seq<bool>, text: (nat, Job) -> string)
    returns (steps: seq<Queue.Step>)
    requires s.disk == f.jobs && OwnIds(f.jobs) && StrictlySorted(ids) && InRange(s.clock)
    requires stalled == StalledJobs(f.jobs, ids, STALL_THRESHOLD_SECONDS, Stamps(judgedAt)) && |landed| <= |stalled|
    requires PassInOrder(judgedAt, writtenAt, s.clock)
    requires forall i :: 0 <= i < |landed| && landed[i] ==> stalled[i].id in f.bodies
    ensures Queue.Runs(s, steps) && Queue.Exec(s, steps).clock == s.clock
    ensures Queue.Exec(s, steps).disk == AfterReclaims(f, stalled, landed, Notes(Stamps(writtenAt), text)).jobs
  {
    hide NowIso;
    hide IsStalled;
    hide StalledJobs;
    hide AfterReclaims;
    hide StrLt;
    var notes := Notes(Stamps(writtenAt), text);
    steps := [];
    Queue.RunNothing(s);
    NoReclaims(f, stalled, notes);
    if landed != [] {
      var n := |landed| - 1;
      var init := landed[..n];
      steps := PassIsRun(s, f, ids, judgedAt, writtenAt, stalled, init, text);
      StalledJobsAre(f.jobs, ids, STALL_THRESHOLD_SECONDS, Stamps(judgedAt));
      SortedAreDistinct(stalled);
      ReclaimsAre(f, stalled, init, notes);
      assert init + [landed[n]] == landed;
      NextReclaim(f, stalled, init, notes, landed[n]);
      if landed[n] {
        assert stalled[n] in stalled;
        assert Picked(f.jobs, ids, STALL_THRESHOLD_SECONDS, Stamps(judgedAt), stalled[n]);
        var k :| 0 <= k < |ids| && Judged(f.jobs, ids, STALL_THRESHOLD_SECONDS, Stamps(judgedAt), k)
          && f.jobs[ids[k]] == stalled[n];
        assert Stamps(judgedAt)(k) == NowIso(judgedAt(k)) && Stamps(writtenAt)(n) == NowIso(writtenAt(n));
        StalledStaysStalled(stalled[n], STALL_THRESHOLD_SECONDS, judgedAt(k), writtenAt(n));
        var mid, reclaim := Queue.Exec(s, steps), Queue.Reclaim(stalled[n].id, writtenAt(n));
        assert Spared(stalled, init, stalled[n].id);
        assert mid.disk[stalled[n].id] == stalled[n];
        Queue.RunOne(mid, reclaim);
        Queue.RunAppend(s, steps, [reclaim]);
        steps := steps + [reclaim];
      }
    }
  }

  lemma SortedAreDistinct(stalled: seq<Job>)
    requires forall i, j :: 0 <= i < j < |stalled| ==> StrLt(stalled[i].id, stalled[j].id)
    ensures DistinctIds(stalled)
  {
    hide StrLt;
    forall i, j | 0 <= i < j < |stalled| ensures stalled[i].id != stalled[j].id {
      StrLtIrreflexive(stalled[i].id);
    }
  }
}
