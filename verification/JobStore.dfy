/**
 Job records kept through the store client: axiom-queue/jobs.py, and the reclaim of axiom-queue/watchdog.py,
 over the whole stack of axiom-store. This is what lets the queue be modelled as a map from id to record.
 */
module JobStore {
  import opened Wrappers
  import opened Text
  import opened Utf8
  import opened Yaml
  import opened Filesystem
  import opened Cache
  import opened Protocol
  import opened Server
  import opened Client
  import opened Jobs
  import Schema

  lemma DocumentPassesGate(cfg: Config, job: Job, body: string)
    requires cfg.registry == Schema.REGISTRY && Faithful(cfg.yaml, ToFrontmatter(job))
    ensures Gate(cfg, JobPath(job.id), Document(cfg.yaml, job, body)).None?
  {
    hide Schema.Conforms;
    hide Gate;
    NonEmptyDictionary(job);
    JobsConform(job);
    JobPathRoutes(job.id);
    RenderedPassesGate(cfg, JobPath(job.id), ToFrontmatter(job), body);
  }

  /** `client.write` of a job file. */
  function Storing(y: Yaml, job: Job, body: string): Op {
    Op.Write(JobPath(job.id), Document(y, job, body))
  }

  function Reading(id: string): Op {
    Op.Read(JobPath(id))
  }

  /** Record and body that stored bytes spell; `None` when reading them as a job raises. */
  function Spells(y: Yaml, raw: bytes): Option<(Job, string)> {
    match ReadJob(y, raw)
    case Err(_) => None
    case Ok(job) =>
      match BodyOf(y, raw)
      case None => None
      case Some(body) => Some((job, body))
  }

  /** The job and body that reading a job through the client gives; `None` for any exception. */
  ghost function JobSeen(cfg: Config, root: Node, s: Store, id: string): Option<(Job, string)> {
    match ClientStep(cfg, root, s, Reading(id)).1
    case Value(raw) => Spells(cfg.yaml, raw)
    case _ => None
  }

  /** What the files themselves spell, up to the size that fits in a message. */
  function JobOnDisk(y: Yaml, root: Node, d: Disk, id: string): Option<(Job, string)> {
    match FsRead(root, d, JobPath(id))
    case Err(_) => None
    case Ok(raw) => if |raw| <= MAX_BODY_BYTES then Spells(y, raw) else None
  }

  lemma SeenIsOnDisk(cfg: Config, root: Node, s: Store, id: string)
    requires Sound(root, s) && QuietErrors(cfg) && Proper(root, Reading(id))
    ensures JobSeen(cfg, root, s, id) == JobOnDisk(cfg.yaml, root, s.disk, id)
  {
    hide ClientStep;
    hide Sound;
    hide FsRead;
    hide Spells;
    hide Sendable;
    CallIsPlain(cfg, root, s, Reading(id));
  }

  lemma JobPathInjective(a: string, b: string)
    requires JobPath(a) == JobPath(b)
    ensures a == b
  {
    assert JobPath(a)[5..|JobPath(a)| - 3] == a && JobPath(b)[5..|JobPath(b)| - 3] == b;
  }

  /**
   A job file written through the client, over wire, gate, cache and files, is never refused by the gate. If the
   write returns, every read through the client sees the map of records and bodies updated at that job and nowhere
   else; if it raises, what it saw before.
   */
  lemma StoreIsJobMap(cfg: Config, root: Node, s: Store, job: Job, body: string, other: string)
    requires Sound(root, s) && QuietErrors(cfg) && cfg.registry == Schema.REGISTRY
    requires Faithful(cfg.yaml, ToFrontmatter(job))
    requires Canonical(JobPath(job.id)) && Sendable(RequestFor(Storing(cfg.yaml, job, body)))
    requires Canonical(JobPath(other)) && Sendable(RequestFor(Reading(other)))
    ensures var (s', wrote) := ClientStep(cfg, root, s, Storing(cfg.yaml, job, body));
      && Sound(root, s')
      && (wrote == Finished || wrote == Outcome.Raised(StoreError))
      && JobSeen(cfg, root, s', other)
         == if wrote == Finished && other == job.id then Some((job, body)) else JobSeen(cfg, root, s, other)
  {
    hide ClientStep;
    hide Sound;
    hide Sendable;
    hide Canonical;
    hide JobSeen;
    hide JobOnDisk;
    hide PlainGated;
    var op := Storing(cfg.yaml, job, body);
    var s' := ClientStep(cfg, root, s, op).0;
    SendableFits(RequestFor(op));
    StepSound(cfg, root, s, op);
    CallIsPlain(cfg, root, s, op);
    SeenIsOnDisk(cfg, root, s, other);
    SeenIsOnDisk(cfg, root, s', other);
    SoundDisk(root, s);
    PlainWrite(cfg, root, s.disk, job, body, other);
  }

  lemma SendableFits(q: Request)
    requires Sendable(q)
    ensures |q.body| <= MAX_BODY_BYTES
  {
  }

  lemma SoundDisk(root: Node, s: Store)
    requires Sound(root, s)
    ensures DiskOk(s.disk)
  {
  }

  /** The same of the plain gated files. */
  lemma PlainWrite(cfg: Config, root: Node, d: Disk, job: Job, body: string, other: string)
    requires DiskOk(d) && cfg.registry == Schema.REGISTRY && Faithful(cfg.yaml, ToFrontmatter(job))
    requires Canonical(JobPath(job.id)) && Canonical(JobPath(other))
      && |Document(cfg.yaml, job, body)| <= MAX_BODY_BYTES
    ensures var (d', wrote) := PlainGated(cfg, root, d, Storing(cfg.yaml, job, body));
      && (wrote == Finished || wrote == Outcome.Raised(OsError))
      && JobOnDisk(cfg.yaml, root, d', other)
         == if wrote == Finished && other == job.id then Some((job, body)) else JobOnDisk(cfg.yaml, root, d, other)
  {
    hide Gate;
    hide ReadJob;
    hide BodyOf;
    hide Document;
    hide JobPath;
    hide Canonical;
    hide Resolve;
    DocumentPassesGate(cfg, job, body);
    RenderedJobReadsBack(cfg.yaml, job, body);
    var path := JobPath(job.id);
    CanonicalResolves(root, path);
    CanonicalResolves(root, JobPath(other));
    if FsWrite(root, d, path, Document(cfg.yaml, job, body)).1.Ok? {
      ReadAfterWrite(root, d, path, Document(cfg.yaml, job, body), JobPath(other));
      if Resolve(root, JobPath(other)) == Resolve(root, path) {
        CanonicalUnique(root, JobPath(other), path);
        JobPathInjective(other, job.id);
      }
    }
  }

  // ----- reclaims --------------------------------------------------------------------------------------------

  /** The two calls of a reclaim: fetch the file, then write the pending record in front of its body and a note. */
  ghost function ReclaimCalls(cfg: Config, root: Node, s: Store, reclaimed: Job, note: string): (Store, bool) {
    var (s1, got) := ClientStep(cfg, root, s, Reading(reclaimed.id));
    match got
    case Value(raw) =>
      (match ReclaimJob(cfg.yaml, raw, reclaimed, note)
       case Err(_) => (s1, false)
       case Ok(next) =>
         var (s2, wrote) := ClientStep(cfg, root, s1, Op.Write(JobPath(reclaimed.id), next));
         (s2, wrote == Finished))
    case _ => (s1, false)
  }

  /**
   A reclaim of a readable job through the client replaces its record, keeps its body verbatim with the note after it,
   and touches no other job; if it fails, every job reads as before.
   */
  lemma ReclaimThroughStore(cfg: Config, root: Node, s: Store, reclaimed: Job, note: string, other: string)
    requires Sound(root, s) && QuietErrors(cfg) && cfg.registry == Schema.REGISTRY
    requires Faithful(cfg.yaml, ToFrontmatter(reclaimed))
    requires Canonical(JobPath(reclaimed.id)) && Sendable(RequestFor(Reading(reclaimed.id)))
    requires Canonical(JobPath(other)) && Sendable(RequestFor(Reading(other)))
    requires JobSeen(cfg, root, s, reclaimed.id).Some?
    requires Sendable(RequestFor(Storing(cfg.yaml, reclaimed, JobSeen(cfg, root, s, reclaimed.id).value.1 + note)))
    ensures var (s', done) := ReclaimCalls(cfg, root, s, reclaimed, note);
      && Sound(root, s')
      && JobSeen(cfg, root, s', other)
         == if done && other == reclaimed.id then Some((reclaimed, JobSeen(cfg, root, s, other).value.1 + note))
            else JobSeen(cfg, root, s, other)
  {
    hide ClientStep;
    hide Sound;
    hide Sendable;
    hide Canonical;
    hide ReadJob;
    hide BodyOf;
    hide ReclaimJob;
    var id := reclaimed.id;
    var (s1, got) := ClientStep(cfg, root, s, Reading(id));
    StepSound(cfg, root, s, Reading(id));
    ReadKeepsJobs(cfg, root, s, id, other);
    var body := JobSeen(cfg, root, s, id).value.1;
    ReclaimReadsBack(cfg.yaml, got.body, reclaimed, note);
    StoreIsJobMap(cfg, root, s1, reclaimed, body + note, other);
  }

  /** Reading a job changes nothing that reads of jobs see. */
  lemma ReadKeepsJobs(cfg: Config, root: Node, s: Store, id: string, other: string)
    requires Sound(root, s) && QuietErrors(cfg)
    requires Canonical(JobPath(id)) && Sendable(RequestFor(Reading(id)))
    requires Canonical(JobPath(other)) && Sendable(RequestFor(Reading(other)))
    ensures JobSeen(cfg, root, ClientStep(cfg, root, s, Reading(id)).0, other) == JobSeen(cfg, root, s, other)
  {
    hide ClientStep;
    hide Sound;
    hide Sendable;
    hide Canonical;
    hide JobSeen;
    hide JobOnDisk;
    var s1 := ClientStep(cfg, root, s, Reading(id)).0;
    StepSound(cfg, root, s, Reading(id));
    CallIsPlain(cfg, root, s, Reading(id));
    SeenIsOnDisk(cfg, root, s, other);
    SeenIsOnDisk(cfg, root, s1, other);
  }

  // ----- listing ---------------------------------------------------------------------------------------------

  const JOBS_DIR := "jobs/"

  lemma JobsDirectory(root: Node)
    ensures Resolve(root, JOBS_DIR) == Ok(["jobs"])
  {
    SplitWhole("jobs", '/');
    SplitWhole("", '/');
    SplitAt("jobs", '/', "");
    assert "jobs" + ['/'] + "" == JOBS_DIR;
    assert Split(JOBS_DIR, '/') == ["jobs", ""];
    WalkInto(root, "jobs");
    assert (root + ["jobs"])[|root|..] == ["jobs"];
  }

  /** A directory named with a trailing slash. */
  lemma WalkInto(base: Node, name: string)
    requires name != "" && name != "." && name != ".."
    ensures Walk(base, [name, ""]) == base + [name]
  {
    var segments := [name, ""];
    assert segments[1..] == [""] && [""][1..] == [];
    assert Walk(base, segments) == Walk(base + [name], [""]) == Walk(base + [name], []) == base + [name];
  }

  lemma JobSegments(id: string)
    requires '/' !in id
    ensures Split(JobPath(id), '/') == ["jobs", id + SUFFIX]
  {
    SplitWhole("jobs", '/');
    SplitWhole(id + SUFFIX, '/');
    SplitAt("jobs", '/', id + SUFFIX);
    assert "jobs" + ['/'] + (id + SUFFIX) == JobPath(id);
  }

  /** `list_jobs` over the store lists an id exactly when its file is on disk and the id is not `README`. */
  lemma ListedIffOnDisk(root: Node, d: Disk, id: string)
    requires FsList(root, d, JOBS_DIR).Ok? && '/' !in id
    ensures id in Sorted(JobIds(FsList(root, d, JOBS_DIR).value))
      <==> Split(JobPath(id), '/') in d.files && id != "README"
  {
    var names := FsList(root, d, JOBS_DIR).value;
    JobsDirectory(root);
    JobSegments(id);
    ListedIffStored(names, id);
    assert FsList(root, d, JOBS_DIR) == ListNode(d, ["jobs"]);
    NamesListed(d, ["jobs"], id + SUFFIX);
    assert ["jobs"] + [id + SUFFIX] == ["jobs", id + SUFFIX];
  }

  /**
   The same of the listing the client brings back, if it fits in a message and no file name under `jobs/` has a
   newline in it.
   */
  lemma ListedThroughClient(cfg: Config, root: Node, s: Store, id: string)
    requires Sound(root, s) && QuietErrors(cfg) && '/' !in id
    requires FsList(root, s.disk, JOBS_DIR).Ok? && Transfers(Listed(FsList(root, s.disk, JOBS_DIR).value))
    ensures Sendable(RequestFor(ListDir(JOBS_DIR)))
    ensures var o := ClientStep(cfg, root, s, ListDir(JOBS_DIR)).1;
      o.Listed? && (id in Sorted(JobIds(o.names)) <==> Split(JobPath(id), '/') in s.disk.files && id != "README")
  {
    hide ClientStep;
    hide Sound;
    hide FsList;
    hide JobIds;
    hide Transfers;
    hide HandedOn;
    var op := ListDir(JOBS_DIR);
    JobsDirIsSendable();
    CallIsPlain(cfg, root, s, op);
    HandedOnExactly(Listed(FsList(root, s.disk, JOBS_DIR).value));
    ListedIffOnDisk(root, s.disk, id);
  }

  lemma ShortHeader(q: Request)
    requires Framable(q) && |RequestLine(q)| + |Decimal(|q.body|)| <= 2000
    ensures Sendable(q)
  {
    hide Encode;
    hide Framable;
    BlockBytes(RequestLine(q), |q.body|);
    EncodeLength(RequestLine(q));
    EncodeLength("content-length: " + Decimal(|q.body|));
  }

  lemma JobsDirIsSendable()
    ensures Sendable(RequestFor(ListDir(JOBS_DIR)))
  {
    var q := RequestFor(ListDir(JOBS_DIR));
    assert Framable(q);
    assert |Decimal(0)| == 1;
    hide *;
    ShortHeader(q);
  }
}
