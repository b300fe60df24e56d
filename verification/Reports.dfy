/**
 What an ingest leaves for a reader (axiom-fetch/pipeline.py): every key of the source file and of the chunk files,
 after any number of its writes.
 */
module Reports {
  import opened Wrappers
  import opened Text
  import opened Utf8
  import opened Yaml
  import opened Chunker
  import opened Ids
  import opened Pipeline
  import Frontmatter

  /** A key that is there with this value, or is not there. */
  ghost predicate Holds(m: Meta, key: string, value: Option<Value>) {
    (key in m <==> value.Some?) && (value.Some? ==> m[key] == value.value)
  }

  // ----- the source file -------------------------------------------------------------------------------------

  /** Every key of a source file, each under its own name. */
  ghost predicate SaysSource(m: Meta, sourceId: string, f: SourceFields, now: string) {
    && Holds(m, "id", Some(Str(sourceId))) && Holds(m, "type", Some(Str("fetch_source")))
    && Holds(m, "status", Some(Str(f.status))) && Holds(m, "url", Some(Str(f.url)))
    && Holds(m, "created_at", Some(Str(now))) && Holds(m, "updated_at", Some(Str(now)))
    && Holds(m, "fetched_at", StrValue(f.fetchedAt)) && Holds(m, "content_type", StrValue(f.contentType))
    && Holds(m, "title", StrValue(f.title)) && Holds(m, "error", StrValue(f.error))
    && Holds(m, "chunk_count", IntValue(f.chunkCount))
  }

  lemma PutHolds(m: Meta, key: string, value: Option<Value>)
    requires key !in m
    ensures Holds(Put(m, key, value), key, value)
    ensures forall other, v :: other != key && Holds(m, other, v) ==> Holds(Put(m, key, value), other, v)
  {
  }

  lemma BaseHolds(sourceId: string, f: SourceFields, now: string)
    ensures var m := BaseMeta(sourceId, f, now);
      && Holds(m, "id", Some(Str(sourceId))) && Holds(m, "type", Some(Str("fetch_source")))
      && Holds(m, "status", Some(Str(f.status))) && Holds(m, "url", Some(Str(f.url)))
      && Holds(m, "created_at", Some(Str(now))) && Holds(m, "updated_at", Some(Str(now)))
      && Holds(m, "fetched_at", None) && Holds(m, "content_type", None) && Holds(m, "title", None)
      && Holds(m, "error", None) && Holds(m, "chunk_count", None)
  {
  }

  lemma SourceSays(sourceId: string, f: SourceFields, now: string)
    ensures SaysSource(SourceMeta(sourceId, f, now), sourceId, f, now)
  {
    hide Put;
    hide BaseMeta;
    BaseHolds(sourceId, f, now);
    var m1 := Put(BaseMeta(sourceId, f, now), "fetched_at", StrValue(f.fetchedAt));
    PutHolds(BaseMeta(sourceId, f, now), "fetched_at", StrValue(f.fetchedAt));
    var m2 := Put(m1, "content_type", StrValue(f.contentType));
    PutHolds(m1, "content_type", StrValue(f.contentType));
    var m3 := Put(m2, "title", StrValue(f.title));
    PutHolds(m2, "title", StrValue(f.title));
    var m4 := Put(m3, "error", StrValue(f.error));
    PutHolds(m3, "error", StrValue(f.error));
    PutHolds(m4, "chunk_count", IntValue(f.chunkCount));
  }

  /** What the source file should say once `landed` of the plan has landed, and the stamp it should bear. */
  function Due(url: string, clock: nat -> string, f: Fetched, e: Extracted, size: int, overlap: int,
               whole: bool): (SourceFields, string)
  {
    if !whole then
      (SourceFields(url, "pending", None, None, None, None, None), clock(0))
    else
      match (f, e)
      case (FetchFailed(final, kind, error), _) =>
        (SourceFields(final, "failed", kind, None, None, None, error), clock(1))
      case (FetchOk(final, kind), ExtractFailed(message)) =>
        (SourceFields(final, "failed", kind, None, None, None, Some(message)), clock(1))
      case (FetchOk(final, kind), ExtractOk(markdown, title)) =>
        if !Sizes(size, overlap) then (SourceFields(url, "pending", None, None, None, None, None), clock(0))
        else
          var n := |Chunks(markdown, size, overlap)|;
          (SourceFields(final, "succeeded", kind, title, Some(n), Some(clock(n + 1)), None), clock(n + 2))
  }

  /**
   However many writes of an ingest of a new source have landed: no source file before the first; `pending` with the
   address asked for until the last; and then `failed` with the address reached, the content type and the error, or
   `succeeded` with the address reached, the content type, the title, the count and the time. A key without a value
   is not there.
   */
  lemma SourceReport(y: Yaml, files: map<string, bytes>, url: string, sourceId: string, clock: nat -> string,
                     f: Fetched, e: Extracted, size: int, overlap: int, landed: seq<Write>)
    requires Untouched(files, sourceId)
    requires DumpsWell(y, Plan(url, sourceId, clock, f, e, size, overlap))
    requires landed <= Plan(url, sourceId, clock, f, e, size, overlap)
    ensures var doc := ReadDoc(y, Apply(y, files, landed), SourcePath(sourceId));
      if landed == [] then doc == None
      else
        var whole := landed == Plan(url, sourceId, clock, f, e, size, overlap);
        var (fields, now) := Due(url, clock, f, e, size, overlap, whole);
        doc.Some? && doc.value.1 == "" && SaysSource(doc.value.0, sourceId, fields, now)
  {
    hide Frontmatter.Parse;
    hide Plan;
    hide Apply;
    hide LastAt;
    hide ReadDoc;
    hide SourcePath;
    hide ChunkPath;
    hide SourceMeta;
    hide Chunks;
    hide Faithful;
    hide SaysSource;
    var plan := Plan(url, sourceId, clock, f, e, size, overlap);
    var whole := landed == plan;
    if landed == [] {
      NoSourceYet(y, files, sourceId);
    } else {
      var (fields, now) := Due(url, clock, f, e, size, overlap, whole);
      LastOfLanded(url, sourceId, clock, f, e, size, overlap, landed);
      ReadsLast(y, files, landed, SourcePath(sourceId));
      SourceSays(sourceId, fields, now);
    }
  }

  lemma NoSourceYet(y: Yaml, files: map<string, bytes>, sourceId: string)
    requires Untouched(files, sourceId)
    ensures ReadDoc(y, Apply(y, files, []), SourcePath(sourceId)) == None
  {
    hide SourcePath;
    hide ChunkPath;
    ApplyNothing(y, files);
  }

  /** Which write of the source file is the last to have landed. */
  lemma LastOfLanded(url: string, sourceId: string, clock: nat -> string, f: Fetched, e: Extracted, size: int,
                     overlap: int, landed: seq<Write>)
    requires landed <= Plan(url, sourceId, clock, f, e, size, overlap) && landed != []
    ensures var plan := Plan(url, sourceId, clock, f, e, size, overlap);
      var (fields, now) := Due(url, clock, f, e, size, overlap, landed == plan);
      var w := SourceWrite(sourceId, fields, now);
      LastAt(landed, SourcePath(sourceId)) == Some(w) && w in plan
  {
    hide Plan;
    hide LastAt;
    hide SourceMeta;
    hide SourcePath;
    hide ChunkPath;
    hide ChunkWrites;
    hide Chunks;
    var plan := Plan(url, sourceId, clock, f, e, size, overlap);
    var pending := SourceWrite(sourceId, PendingFields(url), clock(0));
    PlanCases(url, sourceId, clock, f, e, size, overlap);
    assert plan[0] == pending && pending in plan;
    LastOfOne(pending);
    if f.FetchFailed? || e.ExtractFailed? {
      var failed := plan[1];
      LastOfOne(failed);
      assert failed in plan;
      LastAtAppend([pending], [failed], SourcePath(sourceId));
      assert landed == [pending] || landed == [pending] + [failed];
    } else if !Sizes(size, overlap) {
      assert landed == [pending];
    } else if landed == plan {
      LastInPlan(url, sourceId, clock, f, e, size, overlap);
    } else {
      PartOfPlan(url, sourceId, clock, f, e, size, overlap, landed);
      LastAtAppend([pending], landed[1..], SourcePath(sourceId));
    }
  }

  // ----- the chunk files ---------------------------------------------------------------------------------------

  /** Every key of a chunk file. */
  ghost predicate SaysChunk(m: Meta, sourceId: string, c: Chunk, total: nat, now: string) {
    && ChunkIdFor(sourceId, c.index).Some?
    && Holds(m, "id", Some(Str(ChunkIdFor(sourceId, c.index).value))) && Holds(m, "type", Some(Str("fetch_chunk")))
    && Holds(m, "source_id", Some(Str(sourceId))) && Holds(m, "created_at", Some(Str(now)))
    && Holds(m, "chunk_index", Some(Int(c.index))) && Holds(m, "chunk_total", Some(Int(total)))
    && Holds(m, "char_count", Some(Int(|c.text|)))
    && Holds(m, "overlap_chars", if c.overlapChars > 0 then Some(Int(c.overlapChars)) else None)
  }

  lemma ChunkSays(sourceId: string, c: Chunk, total: nat, now: string)
    requires sourceId != "" && c.charCount == |c.text|
    ensures SaysChunk(ChunkMeta(sourceId, c, total, now), sourceId, c, total, now)
  {
  }

  /** After a whole succeeding ingest every chunk has its file, named after its id, with its text as the body. */
  lemma ChunkReport(y: Yaml, files: map<string, bytes>, url: string, sourceId: string, clock: nat -> string,
                    f: Fetched, e: Extracted, size: int, overlap: int, i: nat)
    requires f.FetchOk? && e.ExtractOk? && Sizes(size, overlap) && sourceId != ""
    requires i < |Chunks(e.markdown, size, overlap)|
    requires DumpsWell(y, Plan(url, sourceId, clock, f, e, size, overlap))
    ensures var chunks := Chunks(e.markdown, size, overlap);
      var id := ChunkIdFor(sourceId, i);
      && id.Some?
      && var doc := ReadDoc(y, Apply(y, files, Plan(url, sourceId, clock, f, e, size, overlap)),
                            "fetch/chunks/" + id.value + ".md");
         && doc.Some? && doc.value.1 == chunks[i].text
         && SaysChunk(doc.value.0, sourceId, chunks[i], |chunks|, clock(i + 1))
  {
    hide Frontmatter.Parse;
    hide Plan;
    hide Apply;
    hide ReadDoc;
    hide ChunkMeta;
    hide Chunks;
    hide Faithful;
    hide SaysChunk;
    hide Index04;
    var chunks := Chunks(e.markdown, size, overlap);
    CompletePlan(y, files, url, sourceId, clock, f, e, size, overlap);
    ChunksNumbered(e.markdown, size, overlap);
    ChunksCounted(e.markdown, size, overlap);
    FileIsId(sourceId, i);
    assert ChunkPath(sourceId, i) == "fetch/chunks/" + ChunkIdFor(sourceId, i).value + ".md";
    ChunkSays(sourceId, chunks[i], |chunks|, clock(i + 1));
  }
}
