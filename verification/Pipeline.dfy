/**
 Ingestion of a fetched document into the vault as one source file and its chunk files
 (axiom-fetch/pipeline.py). Fetching and extraction are inputs; every store write may raise.
 */
module Pipeline {
  import opened Wrappers
  import opened Text
  import opened Utf8
  import opened Yaml
  import opened Chunker
  import opened Ids
  import Frontmatter
  import Schema
  import Server

  datatype Fetched =
    | FetchFailed(url: string, contentType: Option<string>, error: Option<string>)
    | FetchOk(url: string, contentType: Option<string>)

  datatype Extracted = ExtractFailed(message: string) | ExtractOk(markdown: string, title: Option<string>)

  // ----- metadata --------------------------------------------------------------------------------------------

  function Put(m: Meta, key: string, value: Option<Value>): Meta {
    match value
    case None => m
    case Some(v) => m[key := v]
  }

  function StrValue(s: Option<string>): Option<Value> {
    match s
    case None => None
    case Some(x) => Some(Str(x))
  }

  function IntValue(n: Option<int>): Option<Value> {
    match n
    case None => None
    case Some(x) => Some(Int(x))
  }

  /** The keyword arguments of `_write_source` that vary. */
  datatype SourceFields = SourceFields(url: string, status: string, contentType: Option<string>, title: Option<string>,
                                       chunkCount: Option<int>, fetchedAt: Option<string>, error: Option<string>)

  function BaseMeta(sourceId: string, f: SourceFields, now: string): Meta {
    map["id" := Str(sourceId), "type" := Str("fetch_source"), "status" := Str(f.status),
        "url" := Str(f.url), "created_at" := Str(now), "updated_at" := Str(now)]
  }

  function SourceMeta(sourceId: string, f: SourceFields, now: string): Meta {
    var m1 := Put(BaseMeta(sourceId, f, now), "fetched_at", StrValue(f.fetchedAt));
    var m2 := Put(m1, "content_type", StrValue(f.contentType));
    var m3 := Put(m2, "title", StrValue(f.title));
    var m4 := Put(m3, "error", StrValue(f.error));
    Put(m4, "chunk_count", IntValue(f.chunkCount))
  }

  function ChunkMeta(sourceId: string, c: Chunk, total: nat, now: string): Meta {
    var base: Meta := map["id" := Str(sourceId + "-" + Index04(c.index)), "type" := Str("fetch_chunk"),
                          "source_id" := Str(sourceId),
                          "chunk_index" := Int(c.index), "chunk_total" := Int(total),
                          "created_at" := Str(now), "char_count" := Int(c.charCount)];
    if c.overlapChars > 0 then base["overlap_chars" := Int(c.overlapChars)] else base
  }

  /** The keys of a source file that tell how far its ingest got. */
  lemma SourceMetaKeys(sourceId: string, f: SourceFields, now: string)
    ensures var m := SourceMeta(sourceId, f, now);
      && "status" in m && m["status"] == Str(f.status)
      && ("chunk_count" in m <==> f.chunkCount.Some?)
      && (f.chunkCount.Some? ==> m["chunk_count"] == Int(f.chunkCount.value))
  {
  }

  lemma ChunkMetaKeys(sourceId: string, c: Chunk, total: nat, now: string)
    ensures var m := ChunkMeta(sourceId, c, total, now);
      && "chunk_index" in m && m["chunk_index"] == Int(c.index)
      && "chunk_total" in m && m["chunk_total"] == Int(total)
      && ("overlap_chars" in m <==> c.overlapChars > 0)
      && (c.overlapChars > 0 ==> m["overlap_chars"] == Int(c.overlapChars))
  {
  }

  // ----- the writes an ingest makes ----------------------------------------------------------------------------

  datatype Write = Write(path: string, meta: Meta, body: string)

  function SourcePath(sourceId: string): string {
    "fetch/sources/" + sourceId + ".md"
  }

  function ChunkPath(sourceId: string, index: nat): string {
    "fetch/chunks/" + FileName(sourceId, index)
  }

  function SourceWrite(sourceId: string, f: SourceFields, now: string): Write {
    Write(SourcePath(sourceId), SourceMeta(sourceId, f, now), "")
  }

  function ChunkWrite(sourceId: string, c: Chunk, total: nat, now: string): Write {
    Write(ChunkPath(sourceId, c.index), ChunkMeta(sourceId, c, total, now), c.text)
  }

  function PendingFields(url: string): SourceFields {
    SourceFields(url, "pending", None, None, None, None, None)
  }

  function FetchFailedFields(f: Fetched): SourceFields
    requires f.FetchFailed?
  {
    SourceFields(f.url, "failed", f.contentType, None, None, None, f.error)
  }

  function ExtractFailedFields(f: Fetched, e: Extracted): SourceFields
    requires e.ExtractFailed?
  {
    SourceFields(f.url, "failed", f.contentType, None, None, None, Some(e.message))
  }

  function SucceededFields(f: Fetched, e: Extracted, count: nat, fetchedAt: string): SourceFields
    requires e.ExtractOk?
  {
    SourceFields(f.url, "succeeded", f.contentType, e.title, Some(count), Some(fetchedAt), None)
  }

  /** The chunk files of the first `k` chunks, in order; `clock(i)` is the i-th reading of the clock. */
  function ChunkWrites(sourceId: string, chunks: seq<Chunk>, k: nat, clock: nat -> string): (w: seq<Write>)
    requires k <= |chunks|
    ensures |w| == k
  {
    if k == 0 then []
    else ChunkWrites(sourceId, chunks, k - 1, clock) + [ChunkWrite(sourceId, chunks[k - 1], |chunks|, clock(k))]
  }

  /** What an ingest that nothing interrupts writes after the pending source. */
  function Outcome(sourceId: string, clock: nat -> string, f: Fetched, e: Extracted, size: int,
                   overlap: int): seq<Write> {
    if f.FetchFailed? then [SourceWrite(sourceId, FetchFailedFields(f), clock(1))]
    else if e.ExtractFailed? then [SourceWrite(sourceId, ExtractFailedFields(f, e), clock(1))]
    else if !Sizes(size, overlap) then []
    else
      var chunks := Chunks(e.markdown, size, overlap);
      var n := |chunks|;
      ChunkWrites(sourceId, chunks, n, clock)
        + [SourceWrite(sourceId, SucceededFields(f, e, n, clock(n + 1)), clock(n + 2))]
  }

  function Plan(url: string, sourceId: string, clock: nat -> string, f: Fetched, e: Extracted, size: int,
                overlap: int): seq<Write> {
    [SourceWrite(sourceId, PendingFields(url), clock(0))] + Outcome(sourceId, clock, f, e, size, overlap)
  }

  // ----- the vault -----------------------------------------------------------------------------------------------

  function Contents(y: Yaml, w: Write): bytes {
    Encode(Frontmatter.Render(y, w.meta, w.body))
  }

  function Apply(y: Yaml, files: map<string, bytes>, writes: seq<Write>): map<string, bytes> {
    if writes == [] then files
    else Apply(y, files, writes[..|writes| - 1])[writes[|writes| - 1].path := Contents(y, writes[|writes| - 1])]
  }

  /** The injected store: a write lands or raises; `log` is history only. */
  class Vault {
    const y: Yaml
    var files: map<string, bytes>
    const reliable: bool
    ghost var log: seq<Write>

    constructor (y: Yaml, files: map<string, bytes>, reliable: bool)
      ensures this.y == y && this.files == files && this.reliable == reliable && log == []
    {
      this.y, this.files, this.reliable, log := y, files, reliable, [];
    }

    method Put(w: Write) returns (ok: bool)
      modifies this
      ensures reliable ==> ok
      ensures files == if ok then old(files)[w.path := Contents(y, w)] else old(files)
      ensures log == if ok then old(log) + [w] else old(log)
    {
      ok := reliable;
      if !ok {
        ok :| true;
      }
      if ok {
        files := files[w.path := Contents(y, w)];
        log := log + [w];
      }
    }
  }

  datatype IngestError = BadUrl | BadChunking(e: ChunkError) | StoreRaised

  /**
   The writes that land are a prefix of the plan, all of it unless the store raises. The caller gets the source id
   exactly when all of it landed and there was nothing to chunk or the chunk sizes were good.
   */
  method Ingest(url: string, vault: Vault, sourceId: string, clock: nat -> string, f: Fetched, e: Extracted,
                chunkSize: int, overlap: int) returns (r: Result<string, IngestError>, ghost landed: seq<Write>)
    modifies vault
    ensures vault.log == old(vault.log) + landed && vault.files == Apply(vault.y, old(vault.files), landed)
    ensures url == "" ==> r == Err(BadUrl) && landed == []
    ensures url != "" ==>
      var plan := Plan(url, sourceId, clock, f, e, chunkSize, overlap);
      && landed <= plan
      && (landed != plan <==> r == Err(StoreRaised))
      && (landed != plan ==> !vault.reliable)
      && (landed == plan ==>
            if f.FetchOk? && e.ExtractOk? && !Sizes(chunkSize, overlap) then r.Err? && r.error.BadChunking?
            else r == Ok(sourceId))
  {
    hide *;
    PlanCases(url, sourceId, clock, f, e, chunkSize, overlap);
    ghost var start, files := vault.log, vault.files;
    landed := [];
    assert start + [] == start;
    ApplyNothing(vault.y, files);
    if url == "" {
      return Err(BadUrl), [];
    }
    ghost var plan := Plan(url, sourceId, clock, f, e, chunkSize, overlap);
    var pending := SourceWrite(sourceId, PendingFields(url), clock(0));
    var ok := vault.Put(pending);
    if !ok {
      return Err(StoreRaised), [];
    }
    OneMoreLanded(vault.y, start, files, [], pending);
    if f.FetchFailed? || e.ExtractFailed? {
      var fields := if f.FetchFailed? then FetchFailedFields(f) else ExtractFailedFields(f, e);
      var failed := SourceWrite(sourceId, fields, clock(1));
      ok := vault.Put(failed);
      if !ok {
        return Err(StoreRaised), [pending];
      }
      OneMoreLanded(vault.y, start, files, [pending], failed);
      return Ok(sourceId), plan;
    }
    var chunking := ChunkText(e.markdown, chunkSize, overlap);
    if chunking.Err? {
      return Err(BadChunking(chunking.error)), [pending];
    }
    var chunks := chunking.value;
    ghost var k: nat;
    ok, k := WriteChunks(vault, sourceId, chunks, clock);
    landed := [pending] + ChunkWrites(sourceId, chunks, k, clock);
    PrefixOfPlan(url, sourceId, clock, f, e, chunkSize, overlap, k);
    MoreLanded(vault.y, start, files, [pending], ChunkWrites(sourceId, chunks, k, clock));
    if !ok {
      return Err(StoreRaised), landed;
    }
    var n := |chunks|;
    var final := SourceWrite(sourceId, SucceededFields(f, e, n, clock(n + 1)), clock(n + 2));
    ok := vault.Put(final);
    if !ok {
      return Err(StoreRaised), landed;
    }
    OneMoreLanded(vault.y, start, files, landed, final);
    return Ok(sourceId), plan;
  }

  /** The loop over the chunks: the first `k` files land, all of them unless the store raises. */
  method WriteChunks(vault: Vault, sourceId: string, chunks: seq<Chunk>, clock: nat -> string)
    returns (ok: bool, ghost k: nat)
    modifies vault
    ensures k <= |chunks| && (ok <==> k == |chunks|) && (!ok ==> !vault.reliable)
    ensures var writes := ChunkWrites(sourceId, chunks, k, clock);
      vault.log == old(vault.log) + writes && vault.files == Apply(vault.y, old(vault.files), writes)
  {
    hide *;
    ghost var start, files := vault.log, vault.files;
    ChunkWritesStep(sourceId, chunks, 0, clock);
    ApplyNothing(vault.y, files);
    assert start + [] == start;
    for i := 0 to |chunks|
      invariant var writes := ChunkWrites(sourceId, chunks, i, clock);
        vault.log == start + writes && vault.files == Apply(vault.y, files, writes)
    {
      var w := ChunkWrite(sourceId, chunks[i], |chunks|, clock(i + 1));
      ok := vault.Put(w);
      OneMoreLanded(vault.y, start, files, ChunkWrites(sourceId, chunks, i, clock), w);
      ChunkWritesStep(sourceId, chunks, i, clock);
      if !ok {
        return false, i;
      }
    }
    return true, |chunks|;
  }

  lemma {:induction false} ApplyAppend(y: Yaml, files: map<string, bytes>, a: seq<Write>, b: seq<Write>)
    ensures Apply(y, Apply(y, files, a), b) == Apply(y, files, a + b)
  {
    hide Contents;
    if b == [] {
      assert a + b == a;
    } else {
      assert (a + b)[..|a + b| - 1] == a + b[..|b| - 1];
      ApplyAppend(y, files, a, b[..|b| - 1]);
    }
  }

  lemma MoreLanded(y: Yaml, start: seq<Write>, files: map<string, bytes>, landed: seq<Write>, more: seq<Write>)
    ensures Apply(y, Apply(y, files, landed), more) == Apply(y, files, landed + more)
    ensures (start + landed) + more == start + (landed + more)
    ensures (start + (landed + more))[|start|..] == landed + more
  {
    hide *;
    ApplyAppend(y, files, landed, more);
  }

  lemma PlanCases(url: string, sourceId: string, clock: nat -> string, f: Fetched, e: Extracted, size: int,
                  overlap: int)
    ensures var plan := Plan(url, sourceId, clock, f, e, size, overlap);
      var pending := SourceWrite(sourceId, PendingFields(url), clock(0));
      if f.FetchFailed? || e.ExtractFailed? then
        var fields := if f.FetchFailed? then FetchFailedFields(f) else ExtractFailedFields(f, e);
        plan == [pending] + [SourceWrite(sourceId, fields, clock(1))]
      else if !Sizes(size, overlap) then plan == [pending]
      else
        var chunks := Chunks(e.markdown, size, overlap);
        var n := |chunks|;
        plan == [pending] + ChunkWrites(sourceId, chunks, n, clock)
              + [SourceWrite(sourceId, SucceededFields(f, e, n, clock(n + 1)), clock(n + 2))]
  {
    hide Chunks;
    hide ChunkWrites;
    hide SourceWrite;
  }

  lemma ChunkWritesStep(sourceId: string, chunks: seq<Chunk>, k: nat, clock: nat -> string)
    requires k <= |chunks|
    ensures ChunkWrites(sourceId, chunks, 0, clock) == []
    ensures k < |chunks| ==>
      ChunkWrites(sourceId, chunks, k + 1, clock)
      == ChunkWrites(sourceId, chunks, k, clock) + [ChunkWrite(sourceId, chunks[k], |chunks|, clock(k + 1))]
  {
  }

  lemma ApplyNothing(y: Yaml, files: map<string, bytes>)
    ensures Apply(y, files, []) == files
  {
  }

  /** How one more write extends what has landed. */
  lemma OneMoreLanded(y: Yaml, start: seq<Write>, files: map<string, bytes>, landed: seq<Write>, w: Write)
    ensures Apply(y, files, landed + [w]) == Apply(y, files, landed)[w.path := Contents(y, w)]
    ensures (start + landed) + [w] == start + (landed + [w])
    ensures (start + landed)[|start|..] == landed && (start + (landed + [w]))[|start|..] == landed + [w]
    ensures landed <= landed + [w] && landed != landed + [w]
  {
    assert (landed + [w])[..|landed|] == landed;
    assert |landed + [w]| == |landed| + 1;
  }

  lemma {:induction false} ChunkWritesPrefix(sourceId: string, chunks: seq<Chunk>, k: nat, n: nat, clock: nat -> string)
    requires k <= n <= |chunks|
    ensures ChunkWrites(sourceId, chunks, k, clock) == ChunkWrites(sourceId, chunks, n, clock)[..k]
    decreases n
  {
    if k < n {
      ChunkWritesPrefix(sourceId, chunks, k, n - 1, clock);
    }
  }

  /** The pending source and the first `k` chunk files are a proper prefix of a succeeding plan. */
  lemma PrefixOfPlan(url: string, sourceId: string, clock: nat -> string, f: Fetched, e: Extracted, size: int,
                     overlap: int, k: nat)
    requires f.FetchOk? && e.ExtractOk? && Sizes(size, overlap) && k <= |Chunks(e.markdown, size, overlap)|
    ensures var plan := Plan(url, sourceId, clock, f, e, size, overlap);
      var before := [SourceWrite(sourceId, PendingFields(url), clock(0))]
                  + ChunkWrites(sourceId, Chunks(e.markdown, size, overlap), k, clock);
      before <= plan && before != plan
  {
    hide Chunks;
    hide ChunkWrites;
    hide SourceWrite;
    hide Plan;
    var chunks := Chunks(e.markdown, size, overlap);
    PlanCases(url, sourceId, clock, f, e, size, overlap);
    ChunkWritesPrefix(sourceId, chunks, k, |chunks|, clock);
    assert |Plan(url, sourceId, clock, f, e, size, overlap)| == |chunks| + 2;
  }

  // ----- what a reader finds -------------------------------------------------------------------------------------

  function ReadDoc(y: Yaml, files: map<string, bytes>, path: string): Option<(Meta, string)> {
    if path !in files then None
    else
      match Decode(files[path])
      case None => None
      case Some(text) =>
        match Frontmatter.Parse(y, text)
        case Err(_) => None
        case Ok(doc) => Some(doc)
  }

  function SourceStatus(y: Yaml, files: map<string, bytes>, sourceId: string): Option<string> {
    match ReadDoc(y, files, SourcePath(sourceId))
    case None => None
    case Some((m, _)) => if "status" in m && m["status"].Str? then Some(m["status"].s) else None
  }

  function SourceCount(y: Yaml, files: map<string, bytes>, sourceId: string): Option<int> {
    match ReadDoc(y, files, SourcePath(sourceId))
    case None => None
    case Some((m, _)) => if "chunk_count" in m && m["chunk_count"].Int? then Some(m["chunk_count"].i) else None
  }

  /** Chunk file `i` is there and says it is number `i` of `n`. */
  predicate ChunkPresent(y: Yaml, files: map<string, bytes>, sourceId: string, i: nat, n: nat) {
    match ReadDoc(y, files, ChunkPath(sourceId, i))
    case None => false
    case Some((m, _)) =>
      && "chunk_index" in m && m["chunk_index"] == Int(i)
      && "chunk_total" in m && m["chunk_total"] == Int(n)
  }

  /** The body of a chunk file without the characters it shares with its predecessor. */
  function OwnTextOf(doc: Option<(Meta, string)>): Option<string> {
    match doc
    case None => None
    case Some((m, body)) =>
      var shared := if "overlap_chars" in m && m["overlap_chars"].Int? then m["overlap_chars"].i else 0;
      if 0 <= shared <= |body| then Some(body[shared..]) else None
  }

  function OwnText(y: Yaml, files: map<string, bytes>, sourceId: string, i: nat): Option<string> {
    OwnTextOf(ReadDoc(y, files, ChunkPath(sourceId, i)))
  }

  /** The first `n` chunk files put back together. */
  function Reassembled(y: Yaml, files: map<string, bytes>, sourceId: string, n: nat): Option<string> {
    if n == 0 then Some("")
    else
      match (Reassembled(y, files, sourceId, n - 1), OwnText(y, files, sourceId, n - 1))
      case (Some(a), Some(b)) => Some(a + b)
      case _ => None
  }

  // ----- which write decides a file --------------------------------------------------------------------------------

  function LastAt(writes: seq<Write>, path: string): Option<Write> {
    if writes == [] then None
    else if writes[|writes| - 1].path == path then Some(writes[|writes| - 1])
    else LastAt(writes[..|writes| - 1], path)
  }

  lemma {:induction false} LastAtIsWrite(writes: seq<Write>, path: string)
    ensures var w := LastAt(writes, path); w.Some? ==> w.value in writes && w.value.path == path
  {
    if writes != [] {
      LastAtIsWrite(writes[..|writes| - 1], path);
    }
  }

  lemma {:induction false} LastAtAppend(a: seq<Write>, b: seq<Write>, path: string)
    ensures LastAt(a + b, path) == if LastAt(b, path).Some? then LastAt(b, path) else LastAt(a, path)
  {
    if b == [] {
      assert a + b == a;
    } else {
      assert (a + b)[..|a + b| - 1] == a + b[..|b| - 1];
      LastAtAppend(a, b[..|b| - 1], path);
    }
  }

  lemma {:induction false} ApplyLast(y: Yaml, files: map<string, bytes>, writes: seq<Write>, path: string)
    ensures var now := Apply(y, files, writes);
      match LastAt(writes, path)
      case None => (path in now <==> path in files) && (path in now ==> now[path] == files[path])
      case Some(w) => path in now && now[path] == Contents(y, w)
  {
    hide Contents;
    if writes != [] {
      ApplyLast(y, files, writes[..|writes| - 1], path);
    }
  }

  /** A file reads back as the metadata and body of the last write to it. */
  lemma ReadsLast(y: Yaml, files: map<string, bytes>, writes: seq<Write>, path: string)
    requires LastAt(writes, path).Some?
    requires var m := LastAt(writes, path).value.meta; m != map[] && Faithful(y, m)
    ensures ReadDoc(y, Apply(y, files, writes), path)
      == Some((LastAt(writes, path).value.meta, LastAt(writes, path).value.body))
  {
    var w := LastAt(writes, path).value;
    ApplyLast(y, files, writes, path);
    DecodeEncode(Frontmatter.Render(y, w.meta, w.body));
    Frontmatter.RoundTrip(y, w.meta, w.body);
  }

  lemma PathsApart(sourceId: string, i: nat)
    ensures SourcePath(sourceId) != ChunkPath(sourceId, i)
  {
    assert SourcePath(sourceId)[6] == 's' && ChunkPath(sourceId, i)[6] == 'c';
  }

  lemma ChunkPathInjective(sourceId: string, i: nat, j: nat)
    requires ChunkPath(sourceId, i) == ChunkPath(sourceId, j)
    ensures i == j
  {
    hide Index04;
    var p := "fetch/chunks/" + (sourceId + "-");
    ChunkPathParts(sourceId, i);
    ChunkPathParts(sourceId, j);
    SameTail(p, Index04(i) + ".md", Index04(j) + ".md");
    SameStem(Index04(i), Index04(j));
    Index04Value(i);
    Index04Value(j);
  }

  lemma ChunkPathParts(sourceId: string, i: nat)
    ensures ChunkPath(sourceId, i) == ("fetch/chunks/" + (sourceId + "-")) + (Index04(i) + ".md")
  {
    hide Index04;
  }

  lemma SameTail(p: string, a: string, b: string)
    requires p + a == p + b
    ensures a == b
  {
    assert (p + a)[|p|..] == a && (p + b)[|p|..] == b;
  }

  lemma SameStem(a: string, b: string)
    requires a + ".md" == b + ".md"
    ensures a == b
  {
    assert |a + ".md"| == |b + ".md"|;
    assert a == (a + ".md")[..|a|] && b == (b + ".md")[..|b|];
  }

  lemma {:induction false} ChunkWritesLast(sourceId: string, chunks: seq<Chunk>, k: nat, clock: nat -> string, i: nat)
    requires k <= |chunks| && forall j :: 0 <= j < |chunks| ==> chunks[j].index == j
    ensures LastAt(ChunkWrites(sourceId, chunks, k, clock), ChunkPath(sourceId, i))
         == if i < k then Some(ChunkWrite(sourceId, chunks[i], |chunks|, clock(i + 1))) else None
    ensures LastAt(ChunkWrites(sourceId, chunks, k, clock), SourcePath(sourceId)) == None
  {
    hide ChunkPath;
    hide SourcePath;
    hide ChunkMeta;
    if k != 0 {
      ChunkWritesLast(sourceId, chunks, k - 1, clock, i);
      var writes := ChunkWrites(sourceId, chunks, k, clock);
      assert writes[..k - 1] == ChunkWrites(sourceId, chunks, k - 1, clock);
      PathsApart(sourceId, k - 1);
      if ChunkPath(sourceId, i) == ChunkPath(sourceId, k - 1) {
        ChunkPathInjective(sourceId, i, k - 1);
      }
    }
  }

  // ----- crash safety ------------------------------------------------------------------------------------------------

  /** No file of this source yet. */
  ghost predicate Untouched(files: map<string, bytes>, sourceId: string) {
    SourcePath(sourceId) !in files && forall i: nat :: ChunkPath(sourceId, i) !in files
  }

  ghost predicate DumpsWell(y: Yaml, writes: seq<Write>) {
    forall w :: w in writes ==> w.meta != map[] && Faithful(y, w.meta)
  }

  ghost predicate NoChunks(files: map<string, bytes>, sourceId: string) {
    forall i: nat :: ChunkPath(sourceId, i) !in files
  }

  /** What a source file may say, given the chunk files that are there. */
  ghost predicate Honest(y: Yaml, files: map<string, bytes>, sourceId: string) {
    && (SourceStatus(y, files, sourceId) == Some("succeeded") ==>
          exists n: nat :: && SourceCount(y, files, sourceId) == Some(n)
                           && (forall i: nat :: i < n ==> ChunkPresent(y, files, sourceId, i, n))
                           && (forall i: nat :: i >= n ==> ChunkPath(sourceId, i) !in files))
    && (SourceStatus(y, files, sourceId) == Some("failed") ==> NoChunks(files, sourceId))
  }

  /** Nothing written, nothing claimed. */
  lemma NothingHonest(y: Yaml, files: map<string, bytes>, sourceId: string)
    requires Untouched(files, sourceId)
    ensures Honest(y, Apply(y, files, []), sourceId)
  {
    hide SourcePath;
    hide ChunkPath;
    ApplyNothing(y, files);
  }

  /** A source whose last write is `pending` claims nothing. */
  lemma PendingHonest(y: Yaml, files: map<string, bytes>, url: string, sourceId: string, now: string, rest: seq<Write>)
    requires var w := SourceWrite(sourceId, PendingFields(url), now); w.meta != map[] && Faithful(y, w.meta)
    requires LastAt(rest, SourcePath(sourceId)) == None
    ensures Honest(y, Apply(y, files, [SourceWrite(sourceId, PendingFields(url), now)] + rest), sourceId)
  {
    hide Frontmatter.Parse;
    hide SourcePath;
    var w := SourceWrite(sourceId, PendingFields(url), now);
    assert LastAt([w], w.path) == Some(w);
    LastAtAppend([w], rest, SourcePath(sourceId));
    ReadsLast(y, files, [w] + rest, SourcePath(sourceId));
    SourceMetaKeys(sourceId, PendingFields(url), now);
  }

  lemma FailedHonest(y: Yaml, files: map<string, bytes>, sourceId: string, pending: Write, failed: Write)
    requires Untouched(files, sourceId)
    requires pending.path == failed.path == SourcePath(sourceId)
    requires failed.meta != map[] && Faithful(y, failed.meta)
    requires "status" in failed.meta && failed.meta["status"] == Str("failed")
    ensures Honest(y, Apply(y, files, [pending, failed]), sourceId)
  {
    hide Frontmatter.Parse;
    hide SourcePath;
    hide ChunkPath;
    var writes := [pending, failed];
    assert LastAt(writes, SourcePath(sourceId)) == Some(failed);
    ReadsLast(y, files, writes, SourcePath(sourceId));
    hide Contents;
    forall i: nat ensures ChunkPath(sourceId, i) !in Apply(y, files, writes) {
      PathsApart(sourceId, i);
      assert writes == [pending] + [failed];
      LastAtAppend([pending], [failed], ChunkPath(sourceId, i));
      assert [pending][..0] == [] && [failed][..0] == [];
      ApplyLast(y, files, writes, ChunkPath(sourceId, i));
    }
    assert SourceStatus(y, Apply(y, files, writes), sourceId) == Some("failed");
  }

  /** Which write of a succeeding plan decides each file. */
  lemma LastInPlan(url: string, sourceId: string, clock: nat -> string, f: Fetched, e: Extracted, size: int,
                   overlap: int)
    requires f.FetchOk? && e.ExtractOk? && Sizes(size, overlap)
    ensures var plan := Plan(url, sourceId, clock, f, e, size, overlap);
      var chunks := Chunks(e.markdown, size, overlap);
      var n := |chunks|;
      var final := SourceWrite(sourceId, SucceededFields(f, e, n, clock(n + 1)), clock(n + 2));
      && final in plan && LastAt(plan, SourcePath(sourceId)) == Some(final)
      && (forall i: nat :: LastAt(plan, ChunkPath(sourceId, i))
                         == if i < n then Some(ChunkWrite(sourceId, chunks[i], n, clock(i + 1))) else None)
      && (forall i: nat :: i < n ==> ChunkWrite(sourceId, chunks[i], n, clock(i + 1)) in plan)
  {
    hide LastAt;
    hide Plan;
    hide ChunkWrites;
    hide ChunkWrite;
    hide SourceMeta;
    hide SourcePath;
    hide ChunkPath;
    hide Chunks;
    var plan := Plan(url, sourceId, clock, f, e, size, overlap);
    var chunks := Chunks(e.markdown, size, overlap);
    var n := |chunks|;
    var pending := SourceWrite(sourceId, PendingFields(url), clock(0));
    var final := SourceWrite(sourceId, SucceededFields(f, e, n, clock(n + 1)), clock(n + 2));
    var writes := ChunkWrites(sourceId, chunks, n, clock);
    PlanCases(url, sourceId, clock, f, e, size, overlap);
    assert plan == [pending] + writes + [final];
    ChunksNumbered(e.markdown, size, overlap);
    LastOfOne(pending);
    LastOfOne(final);
    LastAtAppend([pending] + writes, [final], SourcePath(sourceId));
    forall i: nat
      ensures LastAt(plan, ChunkPath(sourceId, i))
           == if i < n then Some(ChunkWrite(sourceId, chunks[i], n, clock(i + 1))) else None
    {
      PathsApart(sourceId, i);
      ChunkWritesLast(sourceId, chunks, n, clock, i);
      LastAtAppend([pending], writes, ChunkPath(sourceId, i));
      LastAtAppend([pending] + writes, [final], ChunkPath(sourceId, i));
    }
    forall i: nat | i < n ensures ChunkWrite(sourceId, chunks[i], n, clock(i + 1)) in plan {
      ChunkWritesAt(sourceId, chunks, n, clock, i);
    }
  }

  lemma LastOfNone()
    ensures forall p :: LastAt([], p) == None
  {
  }

  lemma LastOfOne(w: Write)
    ensures forall p :: LastAt([w], p) == if p == w.path then Some(w) else None
  {
    assert [w][..0] == [];
  }

  /** The whole of a succeeding plan, as a reader finds it. */
  lemma CompletePlan(y: Yaml, files: map<string, bytes>, url: string, sourceId: string, clock: nat -> string,
                     f: Fetched, e: Extracted, size: int, overlap: int)
    requires f.FetchOk? && e.ExtractOk? && Sizes(size, overlap)
    requires DumpsWell(y, Plan(url, sourceId, clock, f, e, size, overlap))
    ensures var now := Apply(y, files, Plan(url, sourceId, clock, f, e, size, overlap));
      var chunks := Chunks(e.markdown, size, overlap);
      && SourceStatus(y, now, sourceId) == Some("succeeded")
      && SourceCount(y, now, sourceId) == Some(|chunks|)
      && (forall i: nat :: i < |chunks| ==>
            ReadDoc(y, now, ChunkPath(sourceId, i))
              == Some((ChunkMeta(sourceId, chunks[i], |chunks|, clock(i + 1)), chunks[i].text)))
      && (forall i: nat :: i >= |chunks| ==> (ChunkPath(sourceId, i) in now <==> ChunkPath(sourceId, i) in files))
  {
    hide Frontmatter.Parse;
    hide Plan;
    hide Apply;
    hide LastAt;
    hide ReadDoc;
    hide SourcePath;
    hide ChunkPath;
    hide ChunkMeta;
    hide SourceMeta;
    hide Chunks;
    hide Faithful;
    var plan := Plan(url, sourceId, clock, f, e, size, overlap);
    var chunks := Chunks(e.markdown, size, overlap);
    var n := |chunks|;
    LastInPlan(url, sourceId, clock, f, e, size, overlap);
    ReadsLast(y, files, plan, SourcePath(sourceId));
    SourceMetaKeys(sourceId, SucceededFields(f, e, n, clock(n + 1)), clock(n + 2));
    forall i: nat | i < n
      ensures ReadDoc(y, Apply(y, files, plan), ChunkPath(sourceId, i))
           == Some((ChunkMeta(sourceId, chunks[i], n, clock(i + 1)), chunks[i].text))
    {
      ReadsLast(y, files, plan, ChunkPath(sourceId, i));
    }
    forall i: nat | i >= n
      ensures ChunkPath(sourceId, i) in Apply(y, files, plan) <==> ChunkPath(sourceId, i) in files
    {
      ApplyLast(y, files, plan, ChunkPath(sourceId, i));
    }
  }

  lemma {:induction false} ChunkWritesAt(sourceId: string, chunks: seq<Chunk>, k: nat, clock: nat -> string, i: nat)
    requires i < k <= |chunks|
    ensures ChunkWrite(sourceId, chunks[i], |chunks|, clock(i + 1)) in ChunkWrites(sourceId, chunks, k, clock)
  {
    hide ChunkWrite;
    var w := ChunkWrite(sourceId, chunks[k - 1], |chunks|, clock(k));
    assert ChunkWrites(sourceId, chunks, k, clock)[k - 1] == w;
    if i < k - 1 {
      ChunkWritesAt(sourceId, chunks, k - 1, clock, i);
    }
  }

  /**
   However early an ingest of a new source stops, its source file does not lie: `succeeded` with a count
   of n means exactly chunk files 0 to n - 1 are there, each saying so; `failed` means none is.
   */
  lemma CrashSafe(y: Yaml, files: map<string, bytes>, url: string, sourceId: string, clock: nat -> string,
                  f: Fetched, e: Extracted, size: int, overlap: int, landed: seq<Write>)
    requires Untouched(files, sourceId)
    requires DumpsWell(y, Plan(url, sourceId, clock, f, e, size, overlap))
    requires landed <= Plan(url, sourceId, clock, f, e, size, overlap)
    ensures Honest(y, Apply(y, files, landed), sourceId)
  {
    hide Frontmatter.Parse;
    hide SourcePath;
    hide ChunkPath;
    hide ChunkMeta;
    hide SourceMeta;
    hide Chunks;
    hide Plan;
    hide Contents;
    hide ChunkPresent;
    hide Honest;
    hide LastAt;
    hide Faithful;
    var plan := Plan(url, sourceId, clock, f, e, size, overlap);
    var pending := SourceWrite(sourceId, PendingFields(url), clock(0));
    PlanCases(url, sourceId, clock, f, e, size, overlap);
    assert pending in plan by { assert plan[0] == pending; }
    if landed == [] {
      NothingHonest(y, files, sourceId);
    } else if f.FetchFailed? || e.ExtractFailed? {
      var fields := if f.FetchFailed? then FetchFailedFields(f) else ExtractFailedFields(f, e);
      var failed := SourceWrite(sourceId, fields, clock(1));
      SourceMetaKeys(sourceId, fields, clock(1));
      if |landed| == 1 {
        assert landed == [pending] + [];
        LastOfNone();
        PendingHonest(y, files, url, sourceId, clock(0), []);
      } else {
        assert landed == [pending, failed] && failed in plan;
        FailedHonest(y, files, sourceId, pending, failed);
      }
    } else if !Sizes(size, overlap) {
      assert landed == [pending] + [];
      LastOfNone();
      PendingHonest(y, files, url, sourceId, clock(0), []);
    } else if landed == plan {
      CompletePlan(y, files, url, sourceId, clock, f, e, size, overlap);
      SaysComplete(y, files, url, sourceId, clock, f, e, size, overlap);
    } else {
      PartOfPlan(url, sourceId, clock, f, e, size, overlap, landed);
      PendingHonest(y, files, url, sourceId, clock(0), landed[1..]);
    }
  }

  /** A proper part of a succeeding plan has written the source file once, as pending. */
  lemma PartOfPlan(url: string, sourceId: string, clock: nat -> string, f: Fetched, e: Extracted, size: int,
                   overlap: int,
                   landed: seq<Write>)
    requires f.FetchOk? && e.ExtractOk? && Sizes(size, overlap)
    requires var plan := Plan(url, sourceId, clock, f, e, size, overlap);
      landed <= plan && landed != plan && landed != []
    ensures landed == [SourceWrite(sourceId, PendingFields(url), clock(0))] + landed[1..]
    ensures LastAt(landed[1..], SourcePath(sourceId)) == None
  {
    hide Plan;
    hide LastAt;
    hide ChunkWrites;
    hide SourceWrite;
    hide SourcePath;
    hide Chunks;
    var chunks := Chunks(e.markdown, size, overlap);
    var k := |landed| - 1;
    PlanCases(url, sourceId, clock, f, e, size, overlap);
    ChunksNumbered(e.markdown, size, overlap);
    ChunkWritesPrefix(sourceId, chunks, k, |chunks|, clock);
    assert landed[1..] == ChunkWrites(sourceId, chunks, k, clock);
    ChunkWritesLast(sourceId, chunks, k, clock, 0);
  }

  lemma SaysComplete(y: Yaml, files: map<string, bytes>, url: string, sourceId: string, clock: nat -> string,
                     f: Fetched, e: Extracted, size: int, overlap: int)
    requires f.FetchOk? && e.ExtractOk? && Sizes(size, overlap) && Untouched(files, sourceId)
    requires DumpsWell(y, Plan(url, sourceId, clock, f, e, size, overlap))
    ensures Honest(y, Apply(y, files, Plan(url, sourceId, clock, f, e, size, overlap)), sourceId)
  {
    hide ReadDoc;
    hide ChunkPath;
    hide ChunkMeta;
    hide Chunks;
    hide Plan;
    hide Apply;
    hide SourceStatus;
    hide SourceCount;
    CompletePlan(y, files, url, sourceId, clock, f, e, size, overlap);
    ChunksNumbered(e.markdown, size, overlap);
    var now := Apply(y, files, Plan(url, sourceId, clock, f, e, size, overlap));
    var chunks := Chunks(e.markdown, size, overlap);
    forall i: nat | i < |chunks| ensures ChunkPresent(y, now, sourceId, i, |chunks|) {
      ChunkMetaKeys(sourceId, chunks[i], |chunks|, clock(i + 1));
    }
  }

  // ----- the gate ------------------------------------------------------------------------------------------------

  lemma BaseRequired(sourceId: string, f: SourceFields, now: string)
    ensures forall i :: 0 <= i < |Schema.FETCH_SOURCE.required| ==>
      Schema.HasField(BaseMeta(sourceId, f, now), Schema.FETCH_SOURCE.required[i])
  {
  }

  lemma BaseOptional(sourceId: string, f: SourceFields, now: string, i: nat)
    requires i < |Schema.FETCH_SOURCE.optional|
    ensures Schema.FETCH_SOURCE.optional[i].0 !in BaseMeta(sourceId, f, now)
  {
  }

  lemma BaseKnown(sourceId: string, f: SourceFields, now: string)
    ensures BaseMeta(sourceId, f, now).Keys <= Schema.Known(Schema.FETCH_SOURCE)
  {
    var required := Schema.FETCH_SOURCE.required;
    forall i | 0 <= i < |required| ensures required[i].0 in Schema.Known(Schema.FETCH_SOURCE) {
      assert required[i] in required;
    }
    assert BaseMeta(sourceId, f, now).Keys
        == {required[0].0, required[1].0, required[2].0, required[3].0, required[4].0, required[5].0};
  }

  lemma BaseConforms(sourceId: string, f: SourceFields, now: string)
    ensures Schema.Conforms(BaseMeta(sourceId, f, now), Schema.FETCH_SOURCE)
  {
    hide BaseMeta;
    hide Schema.FETCH_SOURCE;
    hide Schema.Known;
    hide Schema.HasField;
    BaseRequired(sourceId, f, now);
    BaseKnown(sourceId, f, now);
    forall i | 0 <= i < |Schema.FETCH_SOURCE.optional|
      ensures Schema.FieldOk(BaseMeta(sourceId, f, now), Schema.FETCH_SOURCE.optional[i])
    {
      BaseOptional(sourceId, f, now, i);
    }
  }

  lemma PutConforms(m: Meta, i: nat, value: Option<Value>)
    requires i < |Schema.FETCH_SOURCE.optional|
    requires Schema.Conforms(m, Schema.FETCH_SOURCE)
    requires value.Some? ==> Schema.HasKind(value.value, Schema.FETCH_SOURCE.optional[i].1)
    ensures Schema.Conforms(Put(m, Schema.FETCH_SOURCE.optional[i].0, value), Schema.FETCH_SOURCE)
  {
    hide Schema.Conforms;
    hide Schema.HasKind;
    hide Schema.FETCH_SOURCE;
    if value.Some? {
      var schema := Schema.FETCH_SOURCE;
      forall f | f in schema.required + schema.optional && f.0 == schema.optional[i].0
        ensures f.1 == schema.optional[i].1
      {
        SourceFieldOnce(i, f);
      }
      Schema.OptionalKeyConforms(m, schema, schema.optional[i].0, schema.optional[i].1, value.value);
    }
  }

  lemma SourceFieldOnce(i: nat, f: Schema.Field)
    requires i < |Schema.FETCH_SOURCE.optional|
    requires f in Schema.FETCH_SOURCE.required + Schema.FETCH_SOURCE.optional
      && f.0 == Schema.FETCH_SOURCE.optional[i].0
    ensures f.1 == Schema.FETCH_SOURCE.optional[i].1
  {
  }

  lemma SourceConforms(sourceId: string, f: SourceFields, now: string)
    ensures Schema.Conforms(SourceMeta(sourceId, f, now), Schema.FETCH_SOURCE)
  {
    hide Schema.Conforms;
    BaseConforms(sourceId, f, now);
    var m1 := Put(BaseMeta(sourceId, f, now), "fetched_at", StrValue(f.fetchedAt));
    PutConforms(BaseMeta(sourceId, f, now), 0, StrValue(f.fetchedAt));
    var m2 := Put(m1, "content_type", StrValue(f.contentType));
    PutConforms(m1, 1, StrValue(f.contentType));
    var m3 := Put(m2, "title", StrValue(f.title));
    PutConforms(m2, 2, StrValue(f.title));
    var m4 := Put(m3, "error", StrValue(f.error));
    PutConforms(m3, 3, StrValue(f.error));
    PutConforms(m4, 4, IntValue(f.chunkCount));
  }

  lemma ChunkRequired(sourceId: string, c: Chunk, total: nat, now: string)
    ensures forall i :: 0 <= i < |Schema.FETCH_CHUNK.required| ==>
      Schema.HasField(ChunkMeta(sourceId, c, total, now), Schema.FETCH_CHUNK.required[i])
  {
  }

  lemma ChunkOptional(sourceId: string, c: Chunk, total: nat, now: string)
    ensures forall i :: 0 <= i < |Schema.FETCH_CHUNK.optional| ==>
      Schema.FieldOk(ChunkMeta(sourceId, c, total, now), Schema.FETCH_CHUNK.optional[i])
  {
  }

  lemma ChunkKnown(sourceId: string, c: Chunk, total: nat, now: string)
    ensures ChunkMeta(sourceId, c, total, now).Keys <= Schema.Known(Schema.FETCH_CHUNK)
  {
    var required, optional := Schema.FETCH_CHUNK.required, Schema.FETCH_CHUNK.optional;
    forall i | 0 <= i < |required| ensures required[i].0 in Schema.Known(Schema.FETCH_CHUNK) {
      assert required[i] in required;
    }
    assert optional[0] in optional && optional[0].0 in Schema.Known(Schema.FETCH_CHUNK);
    assert ChunkMeta(sourceId, c, total, now).Keys
        <= {required[0].0, required[1].0, required[2].0, required[3].0,
            required[4].0, required[5].0, required[6].0, optional[0].0};
  }

  lemma ChunkConforms(sourceId: string, c: Chunk, total: nat, now: string)
    ensures Schema.Conforms(ChunkMeta(sourceId, c, total, now), Schema.FETCH_CHUNK)
  {
    hide ChunkMeta;
    hide Schema.FETCH_CHUNK;
    hide Schema.Known;
    hide Schema.HasField;
    hide Schema.FieldOk;
    ChunkRequired(sourceId, c, total, now);
    ChunkOptional(sourceId, c, total, now);
    ChunkKnown(sourceId, c, total, now);
  }

  /** The store's schema gate has nothing against a write. */
  predicate Admitted(w: Write) {
    match Schema.SchemaOf(Schema.REGISTRY, w.path)
    case None => true
    case Some(schema) => Schema.Conforms(w.meta, schema)
  }

  lemma SourceAdmitted(sourceId: string, f: SourceFields, now: string)
    ensures Admitted(SourceWrite(sourceId, f, now))
  {
    hide Schema.Conforms;
    var e := ("fetch/sources/", Schema.FETCH_SOURCE);
    assert Schema.REGISTRY[5] == e;
    assert SourcePath(sourceId) == e.0 + (sourceId + ".md");
    Schema.RegisteredPathRoutes(e, SourcePath(sourceId));
    SourceConforms(sourceId, f, now);
  }

  lemma ChunkAdmitted(sourceId: string, c: Chunk, total: nat, now: string)
    ensures Admitted(ChunkWrite(sourceId, c, total, now))
  {
    hide Schema.Conforms;
    var e := ("fetch/chunks/", Schema.FETCH_CHUNK);
    assert Schema.REGISTRY[6] == e;
    Schema.RegisteredPathRoutes(e, ChunkPath(sourceId, c.index));
    ChunkConforms(sourceId, c, total, now);
  }

  lemma {:induction false} ChunkWritesAdmitted(sourceId: string, chunks: seq<Chunk>, k: nat, clock: nat -> string)
    requires k <= |chunks|
    ensures forall w :: w in ChunkWrites(sourceId, chunks, k, clock) ==> Admitted(w)
  {
    hide Admitted;
    hide ChunkWrite;
    if k > 0 {
      ChunkWritesAdmitted(sourceId, chunks, k - 1, clock);
      ChunkAdmitted(sourceId, chunks[k - 1], |chunks|, clock(k));
    }
  }

  /** The server's gate lets every write of every ingest through, the failing ones included. */
  lemma IngestPassesGate(cfg: Server.Config, url: string, sourceId: string, clock: nat -> string, f: Fetched,
                         e: Extracted,
                         size: int, overlap: int)
    requires cfg.registry == Schema.REGISTRY && DumpsWell(cfg.yaml, Plan(url, sourceId, clock, f, e, size, overlap))
    ensures forall w :: w in Plan(url, sourceId, clock, f, e, size, overlap) ==>
      Server.Gate(cfg, w.path, Contents(cfg.yaml, w)).None?
  {
    hide Server.Gate;
    hide Plan;
    hide Schema.Conforms;
    hide Schema.REGISTRY;
    hide Faithful;
    PlanAdmitted(url, sourceId, clock, f, e, size, overlap);
    forall w | w in Plan(url, sourceId, clock, f, e, size, overlap)
      ensures Server.Gate(cfg, w.path, Contents(cfg.yaml, w)).None?
    {
      Server.RenderedPassesGate(cfg, w.path, w.meta, w.body);
    }
  }

  lemma PlanAdmitted(url: string, sourceId: string, clock: nat -> string, f: Fetched, e: Extracted, size: int,
                     overlap: int)
    ensures forall w :: w in Plan(url, sourceId, clock, f, e, size, overlap) ==> Admitted(w)
  {
    hide Admitted;
    hide SourceWrite;
    hide ChunkWrites;
    hide Chunks;
    hide Plan;
    PlanCases(url, sourceId, clock, f, e, size, overlap);
    SourceAdmitted(sourceId, PendingFields(url), clock(0));
    if f.FetchFailed? || e.ExtractFailed? {
      SourceAdmitted(sourceId, if f.FetchFailed? then FetchFailedFields(f) else ExtractFailedFields(f, e), clock(1));
    } else if Sizes(size, overlap) {
      var chunks := Chunks(e.markdown, size, overlap);
      var n := |chunks|;
      ChunkWritesAdmitted(sourceId, chunks, n, clock);
      SourceAdmitted(sourceId, SucceededFields(f, e, n, clock(n + 1)), clock(n + 2));
    }
  }

  // ----- reconstruction ------------------------------------------------------------------------------------------

  lemma {:induction false} ReassembledIs(y: Yaml, files: map<string, bytes>, sourceId: string, chunks: seq<Chunk>,
                                         n: nat)
    requires n <= |chunks|
    requires forall i: nat :: i < n ==> OwnText(y, files, sourceId, i) == Some(Rebuild([chunks[i]]))
    ensures Reassembled(y, files, sourceId, n) == Some(Rebuild(chunks[..n]))
  {
    hide OwnText;
    if n == 0 {
      assert chunks[..0] == [];
    } else {
      ReassembledIs(y, files, sourceId, chunks, n - 1);
      RebuildSnoc(chunks[..n - 1], chunks[n - 1]);
      assert chunks[..n] == chunks[..n - 1] + [chunks[n - 1]];
    }
  }

  /**
   After an ingest that succeeds, reading as many chunk files as the source counts, in order, and dropping
   what each shares with the one before gives back exactly the stripped extracted text.
   */
  lemma IngestReconstructs(y: Yaml, files: map<string, bytes>, url: string, sourceId: string, clock: nat -> string,
                           f: Fetched, e: Extracted, size: int, overlap: int)
    requires f.FetchOk? && e.ExtractOk? && Sizes(size, overlap)
    requires DumpsWell(y, Plan(url, sourceId, clock, f, e, size, overlap))
    ensures var now := Apply(y, files, Plan(url, sourceId, clock, f, e, size, overlap));
      && SourceStatus(y, now, sourceId) == Some("succeeded")
      && SourceCount(y, now, sourceId).Some? && SourceCount(y, now, sourceId).value >= 0
      && Reassembled(y, now, sourceId, SourceCount(y, now, sourceId).value) == Some(Strip(e.markdown))
  {
    hide ReadDoc;
    hide ChunkPath;
    hide ChunkMeta;
    hide Chunks;
    hide Plan;
    hide Apply;
    hide SourceStatus;
    hide SourceCount;
    hide Strip;
    CompletePlan(y, files, url, sourceId, clock, f, e, size, overlap);
    ChunksNumbered(e.markdown, size, overlap);
    ChunksRebuild(e.markdown, size, overlap);
    var now := Apply(y, files, Plan(url, sourceId, clock, f, e, size, overlap));
    var chunks := Chunks(e.markdown, size, overlap);
    forall i: nat | i < |chunks| ensures OwnText(y, now, sourceId, i) == Some(Rebuild([chunks[i]])) {
      ChunkMetaKeys(sourceId, chunks[i], |chunks|, clock(i + 1));
      RebuildOne(chunks[i]);
    }
    ReassembledIs(y, now, sourceId, chunks, |chunks|);
    assert chunks[..|chunks|] == chunks;
  }

  lemma RebuildOne(c: Chunk)
    requires c.overlapChars <= |c.text|
    ensures Rebuild([c]) == c.text[c.overlapChars..]
  {
    assert [c][1..] == [] && Rebuild([]) == "";
    assert c.text[c.overlapChars..] + "" == c.text[c.overlapChars..];
  }
}
