/** Runs of job writes and reclaims through the store client, against a plain map from id to record and body. */
module JobRuns {
  import opened Wrappers
  import opened Yaml
  import opened Filesystem
  import opened Cache
  import opened Server
  import opened Client
  import opened Jobs
  import opened JobStore
  import Schema

  /** `write_job` with a body, or the two calls of `reclaim`. */
  datatype JobCall = WriteCall(job: Job, body: string) | ReclaimCall(job: Job, note: string)

  type JobMap = map<string, (Job, string)>

  /** The store after a call, and whether the call returned. */
  ghost function Made(cfg: Config, root: Node, s: Store, c: JobCall): (Store, bool) {
    match c
    case WriteCall(job, body) =>
      var (s', wrote) := ClientStep(cfg, root, s, Storing(cfg.yaml, job, body));
      (s', wrote == Finished)
    case ReclaimCall(job, note) => ReclaimCalls(cfg, root, s, job, note)
  }

  /** What a call does to the plain map. */
  function OnMap(m: JobMap, c: JobCall, returned: bool): JobMap {
    if !returned then m
    else
      match c
      case WriteCall(job, body) => m[job.id := (job, body)]
      case ReclaimCall(job, note) => if job.id in m then m[job.id := (job, m[job.id].1 + note)] else m
  }

  /** The jobs with these ids as reads through the client see them. */
  ghost function View(cfg: Config, root: Node, s: Store, ids: set<string>): JobMap {
    map id | id in ids && JobSeen(cfg, root, s, id).Some? :: JobSeen(cfg, root, s, id).value
  }

  ghost predicate Readable(ids: set<string>) {
    forall id :: id in ids ==> Canonical(JobPath(id)) && Sendable(RequestFor(Reading(id)))
  }

  /** The wire carries what the call writes, YAML is faithful on it, and a reclaim is of a job that reads. */
  ghost predicate Fits(cfg: Config, ids: set<string>, m: JobMap, c: JobCall) {
    && c.job.id in ids && Faithful(cfg.yaml, ToFrontmatter(c.job))
    && match c
       case WriteCall(job, body) => Sendable(RequestFor(Storing(cfg.yaml, job, body)))
       case ReclaimCall(job, note) => job.id in m && Sendable(RequestFor(Storing(cfg.yaml, job, m[job.id].1 + note)))
  }

  /** What the store is set up with. */
  ghost predicate SetUp(cfg: Config, root: Node, s: Store) {
    Sound(root, s) && QuietErrors(cfg) && cfg.registry == Schema.REGISTRY
  }

  /** One call is one step of the map. */
  lemma CallIsMapStep(cfg: Config, root: Node, s: Store, ids: set<string>, c: JobCall)
    requires SetUp(cfg, root, s) && Readable(ids) && Fits(cfg, ids, View(cfg, root, s, ids), c)
    ensures var (s', returned) := Made(cfg, root, s, c);
      && SetUp(cfg, root, s')
      && View(cfg, root, s', ids) == OnMap(View(cfg, root, s, ids), c, returned)
  {
    hide JobSeen;
    hide ClientStep;
    hide ReclaimCalls;
    hide Canonical;
    hide Sendable;
    hide Sound;
    var m := View(cfg, root, s, ids);
    var (s', returned) := Made(cfg, root, s, c);
    CallSound(cfg, root, s, ids, c);
    forall id | id in ids
      ensures JobSeen(cfg, root, s', id)
           == if returned && id == c.job.id
              then Some(OnMap(m, c, true)[id])
              else JobSeen(cfg, root, s, id)
    {
      CallAt(cfg, root, s, ids, c, id);
    }
  }

  /** A call seen at one id. */
  lemma CallAt(cfg: Config, root: Node, s: Store, ids: set<string>, c: JobCall, id: string)
    requires SetUp(cfg, root, s) && Readable(ids) && Fits(cfg, ids, View(cfg, root, s, ids), c) && id in ids
    ensures c.ReclaimCall? ==> c.job.id in View(cfg, root, s, ids)
    ensures var (s', returned) := Made(cfg, root, s, c);
      JobSeen(cfg, root, s', id)
      == if returned && id == c.job.id
         then Some(OnMap(View(cfg, root, s, ids), c, true)[id])
         else JobSeen(cfg, root, s, id)
  {
    hide JobSeen;
    hide ClientStep;
    hide ReclaimCalls;
    hide Canonical;
    hide Sendable;
    hide Sound;
    match c
    case WriteCall(job, body) => StoreIsJobMap(cfg, root, s, job, body, id);
    case ReclaimCall(job, note) => ReclaimThroughStore(cfg, root, s, job, note, id);
  }

  lemma CallSound(cfg: Config, root: Node, s: Store, ids: set<string>, c: JobCall)
    requires SetUp(cfg, root, s) && Readable(ids) && Fits(cfg, ids, View(cfg, root, s, ids), c)
    ensures SetUp(cfg, root, Made(cfg, root, s, c).0)
  {
    hide JobSeen;
    hide ClientStep;
    hide ReclaimCalls;
    hide Canonical;
    hide Sendable;
    hide Sound;
    match c
    case WriteCall(job, body) => StoreIsJobMap(cfg, root, s, job, body, job.id);
    case ReclaimCall(job, note) => ReclaimThroughStore(cfg, root, s, job, note, job.id);
  }

  // ----- runs ------------------------------------------------------------------------------------------------

  /** The store after a run, and which calls returned. */
  ghost function MadeAll(cfg: Config, root: Node, s: Store, calls: seq<JobCall>): (Store, seq<bool>)
    decreases |calls|
  {
    if calls == [] then (s, [])
    else
      var (s1, returned) := Made(cfg, root, s, calls[0]);
      var (s', others) := MadeAll(cfg, root, s1, calls[1..]);
      (s', [returned] + others)
  }

  function OnMapAll(m: JobMap, calls: seq<JobCall>, returned: seq<bool>): JobMap
    requires |calls| == |returned|
    decreases |calls|
  {
    if calls == [] then m else OnMapAll(OnMap(m, calls[0], returned[0]), calls[1..], returned[1..])
  }

  ghost predicate AllFit(cfg: Config, root: Node, ids: set<string>, s: Store, calls: seq<JobCall>)
    decreases |calls|
  {
    calls == []
    || (Fits(cfg, ids, View(cfg, root, s, ids), calls[0])
        && AllFit(cfg, root, ids, Made(cfg, root, s, calls[0]).0, calls[1..]))
  }

  /**
   On every run of job writes and reclaims over wire, gate, cache and files, each of which may return or raise,
   the jobs read through the client are those of the plain map under the calls that returned.
   */
  lemma {:induction false} RunsAreMapRuns(cfg: Config, root: Node, s: Store, ids: set<string>, calls: seq<JobCall>)
    requires SetUp(cfg, root, s) && Readable(ids) && AllFit(cfg, root, ids, s, calls)
    ensures var (s', returned) := MadeAll(cfg, root, s, calls);
      && SetUp(cfg, root, s') && |returned| == |calls|
      && View(cfg, root, s', ids) == OnMapAll(View(cfg, root, s, ids), calls, returned)
    decreases |calls|
  {
    hide View;
    hide Made;
    hide Fits;
    hide OnMap;
    hide SetUp;
    if calls != [] {
      CallIsMapStep(cfg, root, s, ids, calls[0]);
      RunsAreMapRuns(cfg, root, Made(cfg, root, s, calls[0]).0, ids, calls[1..]);
      var (s1, first) := Made(cfg, root, s, calls[0]);
      var (s', others) := MadeAll(cfg, root, s1, calls[1..]);
      assert ([first] + others)[1..] == others;
    }
  }
}
