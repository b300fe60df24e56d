/** Job records and their Markdown form (axiom-queue/jobs.py). */
module Jobs {
  import opened Wrappers
  import opened Text
  import opened Yaml
  import Utf8
  import Frontmatter
  import Schema

  datatype Status = Pending | Running | Succeeded | Failed | Dead

  /** The in-memory job; its field types are what the JOB schema asks of the frontmatter. */
  datatype Job = Job(
    id: string,
    kind: string,
    status: Status,
    createdAt: string,
    updatedAt: string,
    attempts: int,
    maxAttempts: int,
    payload: Meta,
    result: Option<Meta>,
    error: Option<string>,
    nextAttemptAt: Option<string>,
    workerId: Option<string>,
    claimedAt: Option<string>,
    tags: Option<seq<Value>>)

  function StatusText(s: Status): string {
    match s
    case Pending => "pending"
    case Running => "running"
    case Succeeded => "succeeded"
    case Failed => "failed"
    case Dead => "dead"
  }

  function ParseStatus(text: string): (r: Option<Status>)
    ensures r.Some? <==> exists s :: StatusText(s) == text
    ensures r.Some? ==> StatusText(r.value) == text
  {
    if text == "pending" then assert StatusText(Pending) == text; Some(Pending)
    else if text == "running" then assert StatusText(Running) == text; Some(Running)
    else if text == "succeeded" then assert StatusText(Succeeded) == text; Some(Succeeded)
    else if text == "failed" then assert StatusText(Failed) == text; Some(Failed)
    else if text == "dead" then assert StatusText(Dead) == text; Some(Dead)
    else None
  }

  // ----- frontmatter -----------------------------------------------------------------------

  const OPTIONAL_KEYS := ["result", "error", "next_attempt_at", "worker_id", "claimed_at", "tags"]

  /** `getattr(job, key)` for an optional key. */
  function Attribute(job: Job, key: string): Option<Value> {
    if key == "result" && job.result.Some? then Some(Dict(job.result.value))
    else if key == "error" && job.error.Some? then Some(Str(job.error.value))
    else if key == "next_attempt_at" && job.nextAttemptAt.Some? then Some(Str(job.nextAttemptAt.value))
    else if key == "worker_id" && job.workerId.Some? then Some(Str(job.workerId.value))
    else if key == "claimed_at" && job.claimedAt.Some? then Some(Str(job.claimedAt.value))
    else if key == "tags" && job.tags.Some? then Some(List(job.tags.value))
    else None
  }

  function RequiredFields(job: Job): Meta {
    map["id" := Str(job.id), "kind" := Str(job.kind), "status" := Str(StatusText(job.status)),
        "created_at" := Str(job.createdAt), "updated_at" := Str(job.updatedAt),
        "attempts" := Int(job.attempts), "max_attempts" := Int(job.maxAttempts), "payload" := Dict(job.payload)]
  }

  /** The dictionary after the first `n` optional keys have been considered. */
  function Partial(job: Job, n: nat): Meta
    requires n <= |OPTIONAL_KEYS|
  {
    if n == 0 then RequiredFields(job)
    else
      var key := OPTIONAL_KEYS[n - 1];
      var value := Attribute(job, key);
      if value.Some? then Partial(job, n - 1)[key := value.value] else Partial(job, n - 1)
  }

  /** The dictionary of a job: the required keys, and the optional ones that are set. */
  function ToFrontmatter(job: Job): Meta {
    Partial(job, |OPTIONAL_KEYS|)
  }

  method BuildFrontmatter(job: Job) returns (md: Meta)
    ensures md == ToFrontmatter(job)
  {
    md := RequiredFields(job);
    for i := 0 to |OPTIONAL_KEYS|
      invariant md == Partial(job, i)
    {
      var value := Attribute(job, OPTIONAL_KEYS[i]);
      if value.Some? {
        md := md[OPTIONAL_KEYS[i] := value.value];
      }
    }
  }

  /** Every reason a dictionary is not a job surfaces as `JobValidationError`. */
  datatype JobError = Invalid | Unparseable | Undecodable

  const KNOWN_KEYS: set<string> :=
    {"id", "kind", "status", "created_at", "updated_at", "attempts", "max_attempts", "payload",
     "result", "error", "next_attempt_at", "worker_id", "claimed_at", "tags"}

  /** A keyword argument, with `None` for a missing key or a null. */
  function Argument(md: Meta, key: string): Option<Value> {
    if key in md && md[key] != Null then Some(md[key]) else None
  }

  predicate OptionalKinds(md: Meta) {
    && (Argument(md, "result").Some? ==> md["result"].Dict?)
    && (Argument(md, "error").Some? ==> md["error"].Str?)
    && (Argument(md, "next_attempt_at").Some? ==> md["next_attempt_at"].Str?)
    && (Argument(md, "worker_id").Some? ==> md["worker_id"].Str?)
    && (Argument(md, "claimed_at").Some? ==> md["claimed_at"].Str?)
    && (Argument(md, "tags").Some? ==> md["tags"].List?)
  }

  predicate HasStr(md: Meta, key: string) {
    key in md && md[key].Str?
  }

  predicate HasInt(md: Meta, key: string) {
    key in md && (md[key].Int? || md[key].Bool?)
  }

  predicate RequiredKinds(md: Meta) {
    && HasStr(md, "id") && HasStr(md, "kind") && HasStr(md, "status")
    && HasStr(md, "created_at") && HasStr(md, "updated_at")
    && HasInt(md, "attempts") && HasInt(md, "max_attempts")
    && ("payload" in md ==> md["payload"].Dict?)
  }

  /** Python's True and False are the numbers 1 and 0. */
  function AsInt(v: Value): int
    requires v.Int? || v.Bool?
  {
    match v
    case Int(i) => i
    case Bool(b) => if b then 1 else 0
  }

  function StrArg(md: Meta, key: string): Option<string>
    requires Argument(md, key).Some? ==> md[key].Str?
  {
    if Argument(md, key).Some? then Some(md[key].s) else None
  }

  /** Keyword construction with the dataclass defaults: a missing payload is the empty dictionary. */
  function FromFrontmatter(md: Meta): Result<Job, JobError> {
    if !(md.Keys <= KNOWN_KEYS) || !RequiredKinds(md) || !OptionalKinds(md) then
      Err(Invalid)
    else
      match ParseStatus(md["status"].s)
      case None => Err(Invalid)
      case Some(status) =>
        Ok(Job(md["id"].s, md["kind"].s, status, md["created_at"].s, md["updated_at"].s,
               AsInt(md["attempts"]), AsInt(md["max_attempts"]),
               if "payload" in md then md["payload"].entries else map[],
               if Argument(md, "result").Some? then Some(md["result"].entries) else None,
               StrArg(md, "error"), StrArg(md, "next_attempt_at"), StrArg(md, "worker_id"), StrArg(md, "claimed_at"),
               if Argument(md, "tags").Some? then Some(md["tags"].items) else None))
  }

  /** Which keys a job's dictionary has and what they hold. */
  ghost predicate DescribesRequired(md: Meta, job: Job) {
    && md.Keys <= KNOWN_KEYS
    && HasStr(md, "id") && HasStr(md, "kind") && HasStr(md, "status")
    && HasStr(md, "created_at") && HasStr(md, "updated_at")
    && md["id"].s == job.id && md["kind"].s == job.kind && md["status"].s == StatusText(job.status)
    && md["created_at"].s == job.createdAt && md["updated_at"].s == job.updatedAt
    && "attempts" in md && md["attempts"] == Int(job.attempts)
    && "max_attempts" in md && md["max_attempts"] == Int(job.maxAttempts)
    && "payload" in md && md["payload"] == Dict(job.payload)
  }

  ghost predicate DescribesOptional(md: Meta, job: Job) {
    && (if job.result.Some? then "result" in md && md["result"] == Dict(job.result.value) else "result" !in md)
    && (if job.error.Some? then "error" in md && md["error"] == Str(job.error.value) else "error" !in md)
    && (if job.nextAttemptAt.Some? then "next_attempt_at" in md && md["next_attempt_at"] == Str(job.nextAttemptAt.value)
        else "next_attempt_at" !in md)
    && (if job.workerId.Some? then "worker_id" in md && md["worker_id"] == Str(job.workerId.value)
        else "worker_id" !in md)
    && (if job.claimedAt.Some? then "claimed_at" in md && md["claimed_at"] == Str(job.claimedAt.value)
        else "claimed_at" !in md)
    && (if job.tags.Some? then "tags" in md && md["tags"] == List(job.tags.value) else "tags" !in md)
  }

  lemma {:induction false} PartialAt(job: Job, n: nat, key: string)
    requires n <= |OPTIONAL_KEYS|
    ensures key in OPTIONAL_KEYS[..n] && Attribute(job, key).Some? ==>
      key in Partial(job, n) && Partial(job, n)[key] == Attribute(job, key).value
    ensures !(key in OPTIONAL_KEYS[..n] && Attribute(job, key).Some?) ==>
      (key in Partial(job, n) <==> key in RequiredFields(job))
    ensures key !in OPTIONAL_KEYS[..n] && key in RequiredFields(job) ==>
      Partial(job, n)[key] == RequiredFields(job)[key]
  {
    if n != 0 {
      PartialAt(job, n - 1, key);
      assert OPTIONAL_KEYS[..n] == OPTIONAL_KEYS[..n - 1] + [OPTIONAL_KEYS[n - 1]];
    }
  }

  lemma RequiredAt(job: Job, key: string)
    requires key in RequiredFields(job)
    ensures key in ToFrontmatter(job) && ToFrontmatter(job)[key] == RequiredFields(job)[key]
  {
    PartialAt(job, 6, key);
  }

  lemma OptionalAt(job: Job, key: string)
    requires key in OPTIONAL_KEYS
    ensures key in ToFrontmatter(job) <==> Attribute(job, key).Some?
    ensures key in ToFrontmatter(job) ==> ToFrontmatter(job)[key] == Attribute(job, key).value
  {
    PartialAt(job, 6, key);
    assert OPTIONAL_KEYS[..6] == OPTIONAL_KEYS;
  }

  lemma OnlyKnownKeys(job: Job)
    ensures ToFrontmatter(job).Keys <= KNOWN_KEYS
  {
    forall key | key in ToFrontmatter(job) ensures key in KNOWN_KEYS {
      PartialAt(job, 6, key);
      assert OPTIONAL_KEYS[..6] == OPTIONAL_KEYS;
    }
  }

  lemma RequiredDescribed(job: Job)
    ensures DescribesRequired(ToFrontmatter(job), job)
  {
    OnlyKnownKeys(job);
    RequiredAt(job, "id");
    RequiredAt(job, "kind");
    RequiredAt(job, "status");
    RequiredAt(job, "created_at");
    RequiredAt(job, "updated_at");
    RequiredAt(job, "attempts");
    RequiredAt(job, "max_attempts");
    RequiredAt(job, "payload");
  }

  lemma OptionalDescribed(job: Job)
    ensures DescribesOptional(ToFrontmatter(job), job)
  {
    OptionalAt(job, "result");
    OptionalAt(job, "error");
    OptionalAt(job, "next_attempt_at");
    OptionalAt(job, "worker_id");
    OptionalAt(job, "claimed_at");
    OptionalAt(job, "tags");
  }

  /** Reading a job's dictionary back gives the job. */
  lemma DictionaryRoundTrip(job: Job)
    ensures FromFrontmatter(ToFrontmatter(job)) == Ok(job)
  {
    RequiredDescribed(job);
    OptionalDescribed(job);
    StatusRoundTrip(job.status);
  }

  /** An optional text: absent, null, or given. */
  ghost predicate GivesText(md: Meta, key: string, text: Option<string>) {
    if text.Some? then key in md && md[key] == Str(text.value) else key in md ==> md[key] == Null
  }

  /** A whole number, for which Python also takes True and False. */
  ghost predicate GivesNumber(md: Meta, key: string, n: int) {
    key in md && (md[key] == Int(n) || (md[key] == Bool(false) && n == 0) || (md[key] == Bool(true) && n == 1))
  }

  ghost predicate GivesStatus(md: Meta, status: Status) {
    "status" in md
    && match status
       case Pending => md["status"] == Str("pending")
       case Running => md["status"] == Str("running")
       case Succeeded => md["status"] == Str("succeeded")
       case Failed => md["status"] == Str("failed")
       case Dead => md["status"] == Str("dead")
  }

  ghost predicate GivesRequired(md: Meta, job: Job) {
    && "id" in md && md["id"] == Str(job.id) && "kind" in md && md["kind"] == Str(job.kind)
    && GivesStatus(md, job.status)
    && "created_at" in md && md["created_at"] == Str(job.createdAt)
    && "updated_at" in md && md["updated_at"] == Str(job.updatedAt)
    && GivesNumber(md, "attempts", job.attempts) && GivesNumber(md, "max_attempts", job.maxAttempts)
    && (if "payload" in md then md["payload"] == Dict(job.payload) else job.payload == map[])
  }

  ghost predicate GivesOptional(md: Meta, job: Job) {
    && GivesText(md, "error", job.error) && GivesText(md, "next_attempt_at", job.nextAttemptAt)
    && GivesText(md, "worker_id", job.workerId) && GivesText(md, "claimed_at", job.claimedAt)
    && (if job.result.Some? then "result" in md && md["result"] == Dict(job.result.value)
        else "result" in md ==> md["result"] == Null)
    && (if job.tags.Some? then "tags" in md && md["tags"] == List(job.tags.value)
        else "tags" in md ==> md["tags"] == Null)
  }

  lemma OptionalGiven(md: Meta, job: Job)
    requires FromFrontmatter(md).Ok?
    ensures GivesOptional(md, job) <==>
      var read := FromFrontmatter(md).value;
      && read.error == job.error && read.nextAttemptAt == job.nextAttemptAt && read.workerId == job.workerId
      && read.claimedAt == job.claimedAt && read.result == job.result && read.tags == job.tags
  {
    hide RequiredKinds;
    hide ParseStatus;
    hide AsInt;
  }

  lemma RequiredGiven(md: Meta, job: Job)
    requires FromFrontmatter(md).Ok?
    ensures GivesRequired(md, job) <==>
      var read := FromFrontmatter(md).value;
      && read.id == job.id && read.kind == job.kind && read.status == job.status && read.createdAt == job.createdAt
      && read.updatedAt == job.updatedAt && read.attempts == job.attempts && read.maxAttempts == job.maxAttempts
      && read.payload == job.payload
  {
    hide OptionalKinds;
    hide StrArg;
    StatusRoundTrip(job.status);
  }

  /** The dictionaries that read as a job, and as which: every attribute under its own key, and no other keys. */
  lemma FromFrontmatterExactly(md: Meta, job: Job)
    ensures FromFrontmatter(md) == Ok(job)
      <==> md.Keys <= KNOWN_KEYS && GivesRequired(md, job) && GivesOptional(md, job)
  {
    hide GivesRequired;
    hide GivesOptional;
    if md.Keys <= KNOWN_KEYS && GivesRequired(md, job) && GivesOptional(md, job) {
      GivenReads(md, job);
    }
    if FromFrontmatter(md).Ok? {
      RequiredGiven(md, job);
      OptionalGiven(md, job);
      KnownKeysOnly(md);
    }
  }

  lemma GivenReads(md: Meta, job: Job)
    requires md.Keys <= KNOWN_KEYS && GivesRequired(md, job) && GivesOptional(md, job)
    ensures FromFrontmatter(md).Ok?
  {
    StatusRoundTrip(job.status);
    assert RequiredKinds(md) && OptionalKinds(md);
    hide GivesOptional;
    hide OptionalKinds;
  }

  lemma KnownKeysOnly(md: Meta)
    requires FromFrontmatter(md).Ok?
    ensures md.Keys <= KNOWN_KEYS
  {
  }

  lemma StatusRoundTrip(s: Status)
    ensures ParseStatus(StatusText(s)) == Some(s)
  {
  }

  // ----- the schema gate -------------------------------------------------------------------

  const REQUIRED_KEYS: set<string> :=
    {"id", "kind", "status", "created_at", "updated_at", "attempts", "max_attempts", "payload"}

  lemma NameAt(fields: seq<Schema.Field>, i: nat)
    requires i < |fields|
    ensures fields[i].0 in Schema.FieldNames(fields)
  {
  }

  lemma RequiredKeysListed()
    ensures REQUIRED_KEYS <= Schema.FieldNames(Schema.JOB.required)
  {
    var fields := Schema.JOB.required;
    NameAt(fields, 0);
    NameAt(fields, 1);
    NameAt(fields, 2);
    NameAt(fields, 3);
    NameAt(fields, 4);
    NameAt(fields, 5);
    NameAt(fields, 6);
    NameAt(fields, 7);
  }

  lemma RequiredKeys()
    ensures Schema.FieldNames(Schema.JOB.required) == REQUIRED_KEYS
  {
    RequiredKeysListed();
    RequiredKeysOnly();
  }

  lemma RequiredKeysOnly()
    ensures Schema.FieldNames(Schema.JOB.required) <= REQUIRED_KEYS
  {
    var fields := Schema.JOB.required;
    forall i | 0 <= i < |fields| ensures fields[i].0 in REQUIRED_KEYS {
    }
  }

  lemma OptionalKeys()
    ensures Schema.FieldNames(Schema.JOB.optional)
         == {"result", "error", "next_attempt_at", "worker_id", "claimed_at", "tags"}
  {
    var fields := Schema.JOB.optional;
    assert fields[0] in fields && fields[1] in fields && fields[2] in fields;
    assert fields[3] in fields && fields[4] in fields && fields[5] in fields;
  }

  lemma JobKeys()
    ensures Schema.Known(Schema.JOB) == KNOWN_KEYS
  {
    RequiredKeys();
    OptionalKeys();
  }

  lemma RequiredHasField(job: Job, f: Schema.Field)
    requires f in Schema.JOB.required
    ensures Schema.HasField(ToFrontmatter(job), f)
  {
    RequiredDescribed(job);
  }

  lemma OptionalFieldOk(job: Job, f: Schema.Field)
    requires f in Schema.JOB.optional
    ensures Schema.FieldOk(ToFrontmatter(job), f)
  {
    OptionalDescribed(job);
  }

  /** Every job passes the gate under `jobs/`. */
  lemma JobsConform(job: Job)
    ensures Schema.Conforms(ToFrontmatter(job), Schema.JOB)
  {
    forall f | f in Schema.JOB.required ensures Schema.HasField(ToFrontmatter(job), f) {
      RequiredHasField(job, f);
    }
    forall f | f in Schema.JOB.optional ensures Schema.FieldOk(ToFrontmatter(job), f) {
      OptionalFieldOk(job, f);
    }
    OnlyKnownKeys(job);
    JobKeys();
  }

  lemma ConformingKinds(md: Meta)
    requires Schema.Conforms(md, Schema.JOB)
    ensures RequiredKinds(md)
  {
    assert ("id", Schema.StrKind) in Schema.JOB.required && ("kind", Schema.StrKind) in Schema.JOB.required;
    assert ("status", Schema.StrKind) in Schema.JOB.required;
    assert ("created_at", Schema.StrKind) in Schema.JOB.required
      && ("updated_at", Schema.StrKind) in Schema.JOB.required;
    assert ("attempts", Schema.IntKind) in Schema.JOB.required
      && ("max_attempts", Schema.IntKind) in Schema.JOB.required;
    assert ("payload", Schema.DictKind) in Schema.JOB.required;
  }

  lemma ConformingOptionalKinds(md: Meta)
    requires Schema.Conforms(md, Schema.JOB)
    ensures OptionalKinds(md)
  {
    hide Schema.Conforms;
    ConformingField(md, "result", Schema.DictKind);
    ConformingField(md, "error", Schema.StrKind);
    ConformingField(md, "next_attempt_at", Schema.StrKind);
    ConformingField(md, "worker_id", Schema.StrKind);
    ConformingField(md, "claimed_at", Schema.StrKind);
    ConformingField(md, "tags", Schema.ListKind);
  }

  lemma ConformingField(md: Meta, key: string, kind: Schema.Kind)
    requires Schema.Conforms(md, Schema.JOB) && (key, kind) in Schema.JOB.optional
    ensures Schema.FieldOk(md, (key, kind))
  {
  }

  /** What the gate lets through under `jobs/` reads as a job exactly when its status is a known word. */
  lemma {:induction false} GateAdmitsJobs(md: Meta)
    requires Schema.Conforms(md, Schema.JOB)
    ensures RequiredKinds(md) && (FromFrontmatter(md).Ok? <==> ParseStatus(md["status"].s).Some?)
  {
    ConformingKinds(md);
    ConformingOptionalKinds(md);
    JobKeys();
  }

  /** Null is a way to leave an optional attribute out for the constructor, but not for the gate. */
  ghost predicate NoNulls(md: Meta) {
    forall key :: key in OPTIONAL_KEYS && key in md ==> md[key] != Null
  }

  /**
   What the gate admits with a known status word is what the constructor takes, except that the gate asks for a payload
   and turns nulls away.
   */
  lemma GateAdmitsExactly(md: Meta)
    ensures Schema.Conforms(md, Schema.JOB) && HasStr(md, "status") && ParseStatus(md["status"].s).Some?
      <==> FromFrontmatter(md).Ok? && "payload" in md && NoNulls(md)
  {
    hide Schema.Conforms;
    hide ParseStatus;
    hide NoNulls;
    if Schema.Conforms(md, Schema.JOB) {
      GateAdmitsJobs(md);
      ConformingNoNulls(md);
    }
    if FromFrontmatter(md).Ok? && "payload" in md && NoNulls(md) {
      ReadableConforms(md);
    }
  }

  lemma ConformingNoNulls(md: Meta)
    requires Schema.Conforms(md, Schema.JOB)
    ensures NoNulls(md) && "payload" in md
  {
    hide Schema.Conforms;
    ConformingKinds(md);
    ConformingField(md, "result", Schema.DictKind);
    ConformingField(md, "error", Schema.StrKind);
    ConformingField(md, "next_attempt_at", Schema.StrKind);
    ConformingField(md, "worker_id", Schema.StrKind);
    ConformingField(md, "claimed_at", Schema.StrKind);
    ConformingField(md, "tags", Schema.ListKind);
    PayloadAdmitted(md);
  }

  lemma PayloadAdmitted(md: Meta)
    requires Schema.Conforms(md, Schema.JOB)
    ensures "payload" in md
  {
    assert ("payload", Schema.DictKind) in Schema.JOB.required;
  }

  lemma ReadableConforms(md: Meta)
    requires FromFrontmatter(md).Ok? && "payload" in md && NoNulls(md)
    ensures Schema.Conforms(md, Schema.JOB)
  {
    hide ParseStatus;
    forall f | f in Schema.JOB.required ensures Schema.HasField(md, f) {
      ReadableHasField(md, f);
    }
    forall f | f in Schema.JOB.optional ensures Schema.FieldOk(md, f) {
      ReadableFieldOk(md, f);
    }
    JobKeys();
    KnownKeysOnly(md);
  }

  lemma ReadableHasField(md: Meta, f: Schema.Field)
    requires RequiredKinds(md) && "payload" in md && f in Schema.JOB.required
    ensures Schema.HasField(md, f)
  {
  }

  lemma ReadableFieldOk(md: Meta, f: Schema.Field)
    requires OptionalKinds(md) && NoNulls(md) && f in Schema.JOB.optional
    ensures Schema.FieldOk(md, f)
  {
    var i :| 0 <= i < 6 && Schema.JOB.optional[i] == f;
    assert OPTIONAL_KEYS[i] == f.0;
  }

  // ----- file names ------------------------------------------------------------------------

  function JobPath(id: string): string {
    "jobs/" + id + ".md"
  }

  /** What `write_job` insists on before it writes: every job's path is routed to the JOB schema. */
  lemma JobPathRoutes(id: string)
    ensures Schema.SchemaOf(Schema.REGISTRY, JobPath(id)) == Some(Schema.JOB)
  {
    var e := ("jobs/", Schema.JOB);
    assert Schema.REGISTRY[4] == e;
    assert e.0 <= JobPath(id) by { assert JobPath(id) == e.0 + (id + ".md"); }
    Schema.RegisteredPathRoutes(e, JobPath(id));
  }

  const SUFFIX := ".md"
  const README := "README.md"

  predicate NamesJob(name: string) {
    |name| >= 3 && name[|name| - 3..] == SUFFIX && name != README
  }

  function Stem(name: string): string
    requires NamesJob(name)
  {
    name[..|name| - 3]
  }

  ghost function JobIds(names: seq<string>): set<string> {
    set n | n in names && NamesJob(n) :: Stem(n)
  }

  /** `list_jobs` on the names the store lists under `jobs/`. */
  method ListJobs(names: seq<string>) returns (ids: seq<string>)
    ensures ids == Sorted(JobIds(names))
  {
    var found: set<string> := {};
    for i := 0 to |names|
      invariant found == JobIds(names[..i])
    {
      assert names[..i + 1] == names[..i] + [names[i]];
      if NamesJob(names[i]) {
        found := found + {Stem(names[i])};
      }
    }
    assert names[..|names|] == names;
    ids := SortNames(found);
  }

  /** A job is listed exactly when its file is there, whatever else is; the one id that hides is `README`. */
  lemma ListedIffStored(names: seq<string>, id: string)
    ensures id in Sorted(JobIds(names)) <==> id + SUFFIX in names && id != "README"
  {
    hide NamesJob;
    NameOf(id);
    var ids := Sorted(JobIds(names));
    assert id in ids <==> id in Members(ids);
    if id in JobIds(names) {
      var n :| n in names && NamesJob(n) && Stem(n) == id;
      NameFromStem(n);
    }
  }

  lemma NameOf(id: string)
    ensures NamesJob(id + SUFFIX) <==> id != "README"
    ensures NamesJob(id + SUFFIX) ==> Stem(id + SUFFIX) == id
  {
    var name := id + SUFFIX;
    assert name[|name| - 3..] == SUFFIX && name[..|name| - 3] == id;
    assert README[..|README| - 3] == "README" && "README" + SUFFIX == README;
  }

  lemma NameFromStem(name: string)
    requires NamesJob(name)
    ensures name == Stem(name) + SUFFIX
  {
  }

  // ----- files -----------------------------------------------------------------------------

  /** The line on the latest result; `repr` is Python's `repr` of a result dictionary. */
  function Latest(repr: Meta -> string, job: Job): string {
    if job.status == Succeeded then "result: " + (if job.result.Some? then repr(job.result.value) else "None")
    else if job.status in {Failed, Dead} then
      "error: " + (if job.error.Some? && job.error.value != "" then job.error.value else "(none)")
    else StatusText(job.status)
  }

  /** The default body. */
  function RenderBody(repr: Meta -> string, job: Job): string {
    ("## Job: " + job.kind + "\n\n")
    + ("- Created: " + job.createdAt + "\n")
    + ("- Attempts: " + DecimalInt(job.attempts) + "/" + DecimalInt(job.maxAttempts) + "\n\n")
    + ("### Latest result" + "\n" + Latest(repr, job) + "\n")
  }

  /** What the last line of the body says. */
  ghost predicate LatestLine(repr: Meta -> string, job: Job, line: string) {
    && (job.status == Pending ==> line == "pending")
    && (job.status == Running ==> line == "running")
    && (job.status == Succeeded && job.result.Some? ==> line == "result: " + repr(job.result.value))
    && (job.status == Succeeded && job.result.None? ==> line == "result: None")
    && (job.status in {Failed, Dead} && job.error in {None, Some("")} ==> line == "error: (none)")
    && (job.status in {Failed, Dead} && job.error !in {None, Some("")} ==> line == "error: " + job.error.value)
  }

  /** The default body line by line. */
  lemma {:induction false} BodyLines(repr: Meta -> string, job: Job)
    ensures LatestLine(repr, job, Latest(repr, job))
    ensures RenderBody(repr, job) == Join(
      ["## Job: " + job.kind,
       "",
       "- Created: " + job.createdAt,
       "- Attempts: " + DecimalInt(job.attempts) + "/" + DecimalInt(job.maxAttempts),
       "",
       "### Latest result",
       Latest(repr, job),
       ""], '\n')
  {
    hide DecimalInt;
    hide Join;
    hide Latest;
    LatestIs(repr, job);
    EightLines(
      "## Job: " + job.kind, "- Created: " + job.createdAt,
      "- Attempts: " + DecimalInt(job.attempts) + "/" + DecimalInt(job.maxAttempts),
      "### Latest result", Latest(repr, job));
  }

  lemma LatestIs(repr: Meta -> string, job: Job)
    ensures LatestLine(repr, job, Latest(repr, job))
  {
  }

  lemma JoinCons(line: string, rest: seq<string>)
    requires rest != []
    ensures Join([line] + rest, '\n') == line + "\n" + Join(rest, '\n')
  {
    assert ([line] + rest)[1..] == rest;
  }

  lemma EightLines(a: string, b: string, c: string, d: string, e: string)
    ensures Join([a, "", b, c, "", d, e, ""], '\n')
         == (a + "\n\n") + (b + "\n") + (c + "\n\n") + (d + "\n" + e + "\n")
  {
    hide Join;
    var last := [d, e, ""];
    var middle := [c, ""] + last;
    LastLines(d, e);
    ParagraphEnds(c, last);
    JoinCons(b, middle);
    ParagraphEnds(a, [b] + middle);
    assert [a, "", b, c, "", d, e, ""] == [a, ""] + ([b] + middle);
  }

  lemma ParagraphEnds(line: string, rest: seq<string>)
    requires rest != []
    ensures Join([line, ""] + rest, '\n') == (line + "\n\n") + Join(rest, '\n')
  {
    hide Join;
    JoinCons("", rest);
    JoinCons(line, [""] + rest);
    assert [line, ""] + rest == [line] + ([""] + rest);
  }

  lemma LastLines(d: string, e: string)
    ensures Join([d, e, ""], '\n') == d + "\n" + e + "\n"
  {
    JoinCons(e, [""]);
    JoinCons(d, [e, ""]);
  }

  /** A job file: the record in front of a body. */
  function Document(y: Yaml, job: Job, body: string): Utf8.bytes {
    Utf8.Encode(Frontmatter.Render(y, ToFrontmatter(job), body))
  }

  /** The bytes `write_job` stores. */
  function WriteJob(y: Yaml, repr: Meta -> string, job: Job): Utf8.bytes {
    Document(y, job, RenderBody(repr, job))
  }

  /** What `read_job` makes of stored bytes. */
  function ReadJob(y: Yaml, raw: Utf8.bytes): Result<Job, JobError> {
    match Utf8.Decode(raw)
    case None => Err(Undecodable)
    case Some(text) =>
      match Frontmatter.Parse(y, text)
      case Err(_) => Err(Unparseable)
      case Ok((md, _)) => FromFrontmatter(md)
  }

  /** The bytes `reclaim` stores over `raw`: the new record in front of the old body and a note. */
  function ReclaimJob(y: Yaml, raw: Utf8.bytes, reclaimed: Job, note: string): Result<Utf8.bytes, JobError> {
    match Utf8.Decode(raw)
    case None => Err(Undecodable)
    case Some(text) =>
      match Frontmatter.AppendNote(y, text, ToFrontmatter(reclaimed), note)
      case Err(_) => Err(Unparseable)
      case Ok(next) => Ok(Utf8.Encode(next))
  }

  function BodyOf(y: Yaml, raw: Utf8.bytes): Option<string> {
    match Utf8.Decode(raw)
    case None => None
    case Some(text) =>
      match Frontmatter.Parse(y, text)
      case Err(_) => None
      case Ok((_, body)) => Some(body)
  }

  lemma NonEmptyDictionary(job: Job)
    ensures ToFrontmatter(job) != map[]
  {
    RequiredAt(job, "id");
  }

  lemma RenderedJobReadsBack(y: Yaml, job: Job, body: string)
    requires Faithful(y, ToFrontmatter(job))
    ensures ReadJob(y, Document(y, job, body)) == Ok(job)
    ensures BodyOf(y, Document(y, job, body)) == Some(body)
  {
    var text := Frontmatter.Render(y, ToFrontmatter(job), body);
    Utf8.DecodeEncode(text);
    NonEmptyDictionary(job);
    Frontmatter.RoundTrip(y, ToFrontmatter(job), body);
    DictionaryRoundTrip(job);
  }

  /** `read_job` after `write_job` is the job; the body is the generated one, whatever was there before. */
  lemma {:induction false} WriteReadRoundTrip(y: Yaml, repr: Meta -> string, job: Job)
    requires Faithful(y, ToFrontmatter(job))
    ensures ReadJob(y, WriteJob(y, repr, job)) == Ok(job)
    ensures BodyOf(y, WriteJob(y, repr, job)) == Some(RenderBody(repr, job))
  {
    RenderedJobReadsBack(y, job, RenderBody(repr, job));
  }

  /** A reclaim of a readable file stores the reclaimed record and keeps the body verbatim before its note. */
  lemma ReclaimReadsBack(y: Yaml, raw: Utf8.bytes, reclaimed: Job, note: string)
    requires Faithful(y, ToFrontmatter(reclaimed))
    ensures ReclaimJob(y, raw, reclaimed, note).Ok? <==> BodyOf(y, raw).Some?
    ensures ReclaimJob(y, raw, reclaimed, note).Ok? ==>
      var next := ReclaimJob(y, raw, reclaimed, note).value;
      && next == Document(y, reclaimed, BodyOf(y, raw).value + note)
      && ReadJob(y, next) == Ok(reclaimed)
      && BodyOf(y, next) == Some(BodyOf(y, raw).value + note)
  {
    if BodyOf(y, raw).Some? {
      RenderedJobReadsBack(y, reclaimed, BodyOf(y, raw).value + note);
    }
  }
}
