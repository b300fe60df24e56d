/**
 An ingest over the store client (axiom-fetch/pipeline.py over axiom-store/client.py): its writes land in the file
 store as they do in the plain map of files, and what a reader gets through the client is what that map holds.
 */
module IngestStore {
  import opened Wrappers
  import opened Text
  import opened Utf8
  import opened Yaml
  import opened Filesystem
  import opened Cache
  import opened Protocol
  import opened Transport
  import opened Server
  import opened Client
  import opened Chunker
  import opened Ids
  import Frontmatter
  import Schema
  import Pipeline

  /** At canonical paths the disk holds exactly these files. */
  ghost predicate Mirrors(root: Node, d: Disk, files: map<string, bytes>) {
    forall p :: Canonical(p) ==>
      (p in files <==> FsRead(root, d, p).Ok?) && (p in files ==> FsRead(root, d, p) == Ok(files[p]))
  }

  function Sending(y: Yaml, w: Pipeline.Write): Op {
    Op.Write(w.path, Pipeline.Contents(y, w))
  }

  /** A write the wire carries and the gate lets through. */
  ghost predicate Fits(cfg: Config, w: Pipeline.Write) {
    && Canonical(w.path) && Sendable(RequestFor(Sending(cfg.yaml, w)))
    && Gate(cfg, w.path, Pipeline.Contents(cfg.yaml, w)).None?
  }

  ghost predicate SetUp(cfg: Config, root: Node, s: Store, files: map<string, bytes>) {
    Sound(root, s) && QuietErrors(cfg) && Mirrors(root, s.disk, files)
  }

  /** One write through the client is one write to the map, or raises and changes nothing. */
  lemma SendIsWrite(cfg: Config, root: Node, s: Store, files: map<string, bytes>, w: Pipeline.Write)
    requires SetUp(cfg, root, s, files) && Fits(cfg, w)
    ensures var (s', wrote) := ClientStep(cfg, root, s, Sending(cfg.yaml, w));
      && (wrote == Finished || wrote == Raised(StoreError))
      && SetUp(cfg, root, s', if wrote == Finished then files[w.path := Pipeline.Contents(cfg.yaml, w)] else files)
  {
    hide ClientStep;
    hide Sound;
    hide Canonical;
    hide Sendable;
    hide Gate;
    hide Resolve;
    hide Pipeline.Contents;
    var op, body := Sending(cfg.yaml, w), Pipeline.Contents(cfg.yaml, w);
    StepSound(cfg, root, s, op);
    CallIsPlain(cfg, root, s, op);
    SoundDisk(root, s);
    CanonicalResolves(root, w.path);
    if FsWrite(root, s.disk, w.path, body).1.Ok? {
      WriteMirrors(root, s.disk, files, w.path, body);
    }
  }

  lemma SoundDisk(root: Node, s: Store)
    requires Sound(root, s)
    ensures DiskOk(s.disk)
  {
  }

  lemma WriteMirrors(root: Node, d: Disk, files: map<string, bytes>, path: string, body: bytes)
    requires DiskOk(d) && Mirrors(root, d, files) && Canonical(path) && FsWrite(root, d, path, body).1.Ok?
    ensures Mirrors(root, FsWrite(root, d, path, body).0, files[path := body])
  {
    hide Canonical;
    hide Resolve;
    hide FsWrite;
    hide FsRead;
    forall p | Canonical(p)
      ensures var r := FsRead(root, FsWrite(root, d, path, body).0, p);
        if p == path then r == Ok(body) else (r.Ok? <==> FsRead(root, d, p).Ok?) && (r.Ok? ==> r == FsRead(root, d, p))
    {
      ReadAfterWrite(root, d, path, body, p);
      CanonicalResolves(root, p);
      CanonicalResolves(root, path);
      if Resolve(root, p) == Resolve(root, path) {
        CanonicalUnique(root, p, path);
      }
    }
  }

  /** The writes in order until one raises: the store, and how many returned. */
  ghost function SendAll(cfg: Config, root: Node, s: Store, writes: seq<Pipeline.Write>): (Store, nat)
    decreases |writes|
  {
    if writes == [] then (s, 0)
    else
      var (s1, wrote) := ClientStep(cfg, root, s, Sending(cfg.yaml, writes[0]));
      if wrote != Finished then (s1, 0)
      else
        var (s', k) := SendAll(cfg, root, s1, writes[1..]);
        (s', k + 1)
  }

  /** However many writes return, the disk then holds what that prefix of them makes of the files. */
  lemma {:induction false} SentIsApplied(cfg: Config, root: Node, s: Store, files: map<string, bytes>,
                                         writes: seq<Pipeline.Write>)
    requires SetUp(cfg, root, s, files) && forall w :: w in writes ==> Fits(cfg, w)
    ensures var (s', k) := SendAll(cfg, root, s, writes);
      k <= |writes| && SetUp(cfg, root, s', Pipeline.Apply(cfg.yaml, files, writes[..k]))
    decreases |writes|
  {
    hide ClientStep;
    hide SetUp;
    hide Fits;
    hide Pipeline.Contents;
    if writes == [] {
      Pipeline.ApplyNothing(cfg.yaml, files);
    } else {
      var w, rest := writes[0], writes[1..];
      assert w in writes && forall v :: v in rest ==> v in writes;
      SendIsWrite(cfg, root, s, files, w);
      Pipeline.ApplyNothing(cfg.yaml, files);
      var (s1, wrote) := ClientStep(cfg, root, s, Sending(cfg.yaml, w));
      if wrote == Finished {
        var next := files[w.path := Pipeline.Contents(cfg.yaml, w)];
        SentIsApplied(cfg, root, s1, next, rest);
        var k := SendAll(cfg, root, s1, rest).1;
        assert [] + [w] == [w] && writes[..k + 1] == [w] + rest[..k];
        Pipeline.OneMoreLanded(cfg.yaml, [], files, [], w);
        Pipeline.ApplyAppend(cfg.yaml, files, [w], rest[..k]);
      }
    }
  }

  /** Metadata and body that reading and parsing a file through the client gives; `None` for any exception. */
  ghost function DocSeen(cfg: Config, root: Node, s: Store, path: string): Option<(Meta, string)> {
    match ClientStep(cfg, root, s, Op.Read(path)).1
    case Value(raw) =>
      (match Decode(raw)
       case None => None
       case Some(text) =>
         match Frontmatter.Parse(cfg.yaml, text)
         case Err(_) => None
         case Ok(doc) => Some(doc))
    case _ => None
  }

  /** Through the client a reader gets what the map of files holds. */
  lemma SeenIsHeld(cfg: Config, root: Node, s: Store, files: map<string, bytes>, path: string)
    requires SetUp(cfg, root, s, files) && Canonical(path) && (path in files ==> |files[path]| <= MAX_BODY_BYTES)
    ensures DocSeen(cfg, root, s, path) == Pipeline.ReadDoc(cfg.yaml, files, path)
  {
    hide ClientStep;
    hide Sound;
    hide Canonical;
    hide FsRead;
    hide Decode;
    hide Frontmatter.Parse;
    CallIsPlain(cfg, root, s, Op.Read(path));
  }

  // ----- a whole ingest ----------------------------------------------------------------------------------------

  /** Source ids as the code makes them up: no character that a path or a request line treats specially. */
  predicate PlainId(sourceId: string) {
    '/' !in sourceId && '\0' !in sourceId && '\\' !in sourceId && '\n' !in sourceId
  }

  /** Three segments, the last of which ends in `.md`, are a canonical path. */
  lemma CanonicalParts(a: string, b: string, name: string)
    requires PlainSegment(a) && PlainSegment(b) && PlainId(name)
    ensures Canonical(a + "/" + b + "/" + (name + ".md"))
  {
    hide Split;
    var last := name + ".md";
    var path := a + "/" + b + "/" + last;
    assert path == a + ['/'] + (b + ['/'] + last);
    SplitAt(a, '/', b + ['/'] + last);
    SplitAt(b, '/', last);
    SplitWhole(a, '/');
    SplitWhole(b, '/');
    SplitWhole(last, '/');
    assert Split(path, '/') == [a, b, last];
    assert |last| >= 3 && last[|last| - 1] == 'd';
  }

  lemma IndexPlain(sourceId: string, i: nat)
    requires PlainId(sourceId)
    ensures PlainId(sourceId + "-" + Index04(i))
  {
    hide Index04;
    Index04Value(i);
    forall c | c in Index04(i) ensures IsDigit(c) {
    }
  }

  lemma PathsCanonical(sourceId: string, i: nat)
    requires PlainId(sourceId)
    ensures Canonical(Pipeline.SourcePath(sourceId)) && Canonical(Pipeline.ChunkPath(sourceId, i))
  {
    hide Canonical;
    hide Index04;
    hide PlainId;
    hide Split;
    var name := sourceId + "-" + Index04(i);
    IndexPlain(sourceId, i);
    CanonicalParts("fetch", "sources", sourceId);
    CanonicalParts("fetch", "chunks", name);
    assert Pipeline.SourcePath(sourceId) == "fetch" + "/" + "sources" + "/" + (sourceId + ".md");
    assert Pipeline.ChunkPath(sourceId, i) == "fetch" + "/" + "chunks" + "/" + (name + ".md");
  }

  /** What the wire carries of a plan. */
  ghost predicate AllSendable(y: Yaml, writes: seq<Pipeline.Write>) {
    forall w :: w in writes ==> Canonical(w.path) && Sendable(RequestFor(Sending(y, w)))
  }

  /** A file of the source holds what its last write put there, and so fits in a message. */
  lemma HeldFits(y: Yaml, files: map<string, bytes>, writes: seq<Pipeline.Write>, path: string)
    requires AllSendable(y, writes) && path !in files
    ensures var now := Pipeline.Apply(y, files, writes); path in now ==> |now[path]| <= MAX_BODY_BYTES
  {
    hide Pipeline.Contents;
    hide HeaderSize;
    Pipeline.ApplyLast(y, files, writes, path);
    Pipeline.LastAtIsWrite(writes, path);
  }

  /**
   An ingest of a new source over the client, stopped by a failing write anywhere or not at all: the source file does
   not lie, and whoever reads the source or a chunk through the client gets what the pipeline's results speak of.
   */
  lemma IngestThroughClient(cfg: Config, root: Node, s: Store, files: map<string, bytes>, url: string, sourceId: string,
                            clock: nat -> string, f: Pipeline.Fetched, e: Pipeline.Extracted, size: int, overlap: int)
    requires SetUp(cfg, root, s, files) && cfg.registry == Schema.REGISTRY
    requires PlainId(sourceId) && Pipeline.Untouched(files, sourceId)
    requires var plan := Pipeline.Plan(url, sourceId, clock, f, e, size, overlap);
      Pipeline.DumpsWell(cfg.yaml, plan) && AllSendable(cfg.yaml, plan)
    ensures var plan := Pipeline.Plan(url, sourceId, clock, f, e, size, overlap);
      var (s', k) := SendAll(cfg, root, s, plan);
      && k <= |plan|
      && var now := Pipeline.Apply(cfg.yaml, files, plan[..k]);
         && Pipeline.Honest(cfg.yaml, now, sourceId)
         && DocSeen(cfg, root, s', Pipeline.SourcePath(sourceId))
            == Pipeline.ReadDoc(cfg.yaml, now, Pipeline.SourcePath(sourceId))
         && forall i: nat :: DocSeen(cfg, root, s', Pipeline.ChunkPath(sourceId, i))
                             == Pipeline.ReadDoc(cfg.yaml, now, Pipeline.ChunkPath(sourceId, i))
  {
    hide SendAll;
    hide DocSeen;
    hide Pipeline.ReadDoc;
    hide Pipeline.Plan;
    hide Pipeline.Honest;
    hide Pipeline.Apply;
    hide Pipeline.Contents;
    hide Pipeline.SourcePath;
    hide Pipeline.ChunkPath;
    hide Canonical;
    hide Sendable;
    hide Gate;
    hide SetUp;
    hide Faithful;
    var plan := Pipeline.Plan(url, sourceId, clock, f, e, size, overlap);
    Pipeline.IngestPassesGate(cfg, url, sourceId, clock, f, e, size, overlap);
    SentIsApplied(cfg, root, s, files, plan);
    var (s', k) := SendAll(cfg, root, s, plan);
    var landed := plan[..k];
    var now := Pipeline.Apply(cfg.yaml, files, landed);
    assert forall w :: w in landed ==> w in plan;
    Pipeline.CrashSafe(cfg.yaml, files, url, sourceId, clock, f, e, size, overlap, landed);
    PathsCanonical(sourceId, 0);
    HeldFits(cfg.yaml, files, landed, Pipeline.SourcePath(sourceId));
    SeenIsHeld(cfg, root, s', now, Pipeline.SourcePath(sourceId));
    forall i: nat
      ensures DocSeen(cfg, root, s', Pipeline.ChunkPath(sourceId, i))
           == Pipeline.ReadDoc(cfg.yaml, now, Pipeline.ChunkPath(sourceId, i))
    {
      PathsCanonical(sourceId, i);
      HeldFits(cfg.yaml, files, landed, Pipeline.ChunkPath(sourceId, i));
      SeenIsHeld(cfg, root, s', now, Pipeline.ChunkPath(sourceId, i));
    }
  }

  /** The first `n` chunk files read through the client and put back together. */
  ghost function ReassembledSeen(cfg: Config, root: Node, s: Store, sourceId: string, n: nat): Option<string> {
    if n == 0 then Some("")
    else
      match (ReassembledSeen(cfg, root, s, sourceId, n - 1),
             Pipeline.OwnTextOf(DocSeen(cfg, root, s, Pipeline.ChunkPath(sourceId, n - 1))))
      case (Some(a), Some(b)) => Some(a + b)
      case _ => None
  }

  lemma {:induction false} SeenReassembles(cfg: Config, root: Node, s: Store, files: map<string, bytes>,
                                           sourceId: string, n: nat)
    requires forall i: nat :: DocSeen(cfg, root, s, Pipeline.ChunkPath(sourceId, i))
                              == Pipeline.ReadDoc(cfg.yaml, files, Pipeline.ChunkPath(sourceId, i))
    ensures ReassembledSeen(cfg, root, s, sourceId, n) == Pipeline.Reassembled(cfg.yaml, files, sourceId, n)
  {
    hide DocSeen;
    hide Pipeline.ReadDoc;
    hide Pipeline.ChunkPath;
    hide Pipeline.OwnTextOf;
    if n > 0 {
      SeenReassembles(cfg, root, s, files, sourceId, n - 1);
    }
  }

  /**
   When every write of a succeeding ingest returns, reading through the client as many chunk files as the source
   counts, in order, and dropping their overlaps gives back exactly the stripped extracted text.
   */
  lemma ClientReconstructs(cfg: Config, root: Node, s: Store, files: map<string, bytes>, url: string, sourceId: string,
                           clock: nat -> string, f: Pipeline.Fetched, e: Pipeline.Extracted, size: int, overlap: int)
    requires SetUp(cfg, root, s, files) && cfg.registry == Schema.REGISTRY
    requires PlainId(sourceId) && Pipeline.Untouched(files, sourceId)
    requires f.FetchOk? && e.ExtractOk? && Sizes(size, overlap)
    requires var plan := Pipeline.Plan(url, sourceId, clock, f, e, size, overlap);
      Pipeline.DumpsWell(cfg.yaml, plan) && AllSendable(cfg.yaml, plan)
    ensures var plan := Pipeline.Plan(url, sourceId, clock, f, e, size, overlap);
      var (s', k) := SendAll(cfg, root, s, plan);
      k == |plan| ==>
        var now := Pipeline.Apply(cfg.yaml, files, plan);
        var count := Pipeline.SourceCount(cfg.yaml, now, sourceId);
        && DocSeen(cfg, root, s', Pipeline.SourcePath(sourceId))
           == Pipeline.ReadDoc(cfg.yaml, now, Pipeline.SourcePath(sourceId))
        && count.Some? && count.value >= 0
        && ReassembledSeen(cfg, root, s', sourceId, count.value) == Some(Strip(e.markdown))
  {
    hide SendAll;
    hide DocSeen;
    hide ReassembledSeen;
    hide Pipeline.Reassembled;
    hide Pipeline.ReadDoc;
    hide Pipeline.Plan;
    hide Pipeline.Honest;
    hide Pipeline.Apply;
    hide Pipeline.SourceCount;
    hide Pipeline.SourceStatus;
    hide Pipeline.SourcePath;
    hide Pipeline.ChunkPath;
    hide Pipeline.Untouched;
    hide Pipeline.DumpsWell;
    hide AllSendable;
    hide SetUp;
    hide Strip;
    var plan := Pipeline.Plan(url, sourceId, clock, f, e, size, overlap);
    IngestThroughClient(cfg, root, s, files, url, sourceId, clock, f, e, size, overlap);
    Pipeline.IngestReconstructs(cfg.yaml, files, url, sourceId, clock, f, e, size, overlap);
    var (s', k) := SendAll(cfg, root, s, plan);
    if k == |plan| {
      assert plan[..k] == plan;
      var now := Pipeline.Apply(cfg.yaml, files, plan);
      SeenReassembles(cfg, root, s', now, sourceId, Pipeline.SourceCount(cfg.yaml, now, sourceId).value);
    }
  }
}
