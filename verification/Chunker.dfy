/** Overlapping chunks of a text, cut at soft boundaries where one is near (axiom-fetch/chunker.py). */
module Chunker {
  import opened Wrappers
  import opened Text

  const SOFT_BOUNDARY_LOOKBACK := 50

  predicate SoftBoundary(c: char) {
    c in {' ', '\n', '\t', '.', ',', ';', ':', '!', '?'}
  }

  datatype Chunk = Chunk(text: string, index: nat, charCount: nat, overlapChars: nat)

  // ----- the cut -------------------------------------------------------------------------------------------

  /**
   The window is the last 50 characters before `end`, of them those from `minEnd` on. The cut comes just after
   the last boundary character in it, and is `end` itself when there is none.
   */
  predicate IsCut(text: string, end: nat, minEnd: nat, cut: nat)
    requires end <= |text|
  {
    if exists i :: minEnd <= i < end && end <= i + 50 && SoftBoundary(text[i])
    then
      && minEnd < cut <= end < cut + 50
      && SoftBoundary(text[cut - 1])
      && forall i :: cut <= i < end ==> !SoftBoundary(text[i])
    else cut == end
  }

  /** Where the search gives up. */
  function Floor(end: nat, minEnd: nat): nat {
    Max(minEnd, end - SOFT_BOUNDARY_LOOKBACK)
  }

  function ScanBack(text: string, i: nat, floor: nat, end: nat): (cut: nat)
    requires i <= end <= |text|
    ensures cut <= end && (cut == end || floor < cut)
  {
    if i <= floor then end
    else if SoftBoundary(text[i - 1]) then i
    else ScanBack(text, i - 1, floor, end)
  }

  function Cut(text: string, end: nat, minEnd: nat): (cut: nat)
    requires minEnd <= end <= |text|
    ensures minEnd <= cut <= end
  {
    ScanBack(text, end, Floor(end, minEnd), end)
  }

  lemma {:induction false} ScanBackFinds(text: string, i: nat, floor: nat, end: nat)
    requires i <= end <= |text|
    requires forall j :: i <= j < end ==> !SoftBoundary(text[j])
    ensures var cut := ScanBack(text, i, floor, end);
      if exists j :: floor <= j < end && SoftBoundary(text[j])
      then floor < cut <= end && SoftBoundary(text[cut - 1]) && forall j :: cut <= j < end ==> !SoftBoundary(text[j])
      else cut == end
  {
    if floor < i && !SoftBoundary(text[i - 1]) {
      ScanBackFinds(text, i - 1, floor, end);
    }
  }

  lemma CutIsCut(text: string, end: nat, minEnd: nat)
    requires minEnd <= end <= |text|
    ensures IsCut(text, end, minEnd, Cut(text, end, minEnd))
  {
    ScanBackFinds(text, end, Floor(end, minEnd), end);
  }

  method BackUpToSoftBoundary(text: string, end: nat, minEnd: nat) returns (cut: nat)
    requires minEnd <= end <= |text|
    ensures cut == Cut(text, end, minEnd) && IsCut(text, end, minEnd, cut)
  {
    CutIsCut(text, end, minEnd);
    var floor := Floor(end, minEnd);
    var i: nat := end;
    while i > floor
      invariant i <= end
      invariant ScanBack(text, end, floor, end) == ScanBack(text, i, floor, end)
    {
      if SoftBoundary(text[i - 1]) {
        return i;
      }
      i := i - 1;
    }
    return end;
  }

  // ----- the chunks ------------------------------------------------------------------------------------------

  predicate Sizes(size: int, overlap: int) {
    0 <= overlap < size
  }

  /** Where the chunk that starts at `cursor` ends. */
  function EndOf(s: string, cursor: nat, size: int, overlap: int): (end: nat)
    requires Sizes(size, overlap) && cursor < |s|
    ensures cursor < end <= |s|
    ensures end < |s| ==> cursor + overlap < end && cursor + size < |s|
    ensures end <= cursor + size
  {
    if cursor + size < |s| then Cut(s, cursor + size, cursor + overlap + 1) else |s|
  }

  lemma EndOfIs(s: string, cursor: nat, size: int, overlap: int)
    requires Sizes(size, overlap) && cursor < |s|
    ensures EndOf(s, cursor, size, overlap)
         == if cursor + size < |s| then Cut(s, cursor + size, cursor + overlap + 1) else |s|
  {
  }

  function ChunksFrom(s: string, cursor: nat, index: nat, size: int, overlap: int): (chunks: seq<Chunk>)
    requires Sizes(size, overlap) && cursor < |s|
    ensures |chunks| >= 1
    decreases |s| - cursor
  {
    var end := EndOf(s, cursor, size, overlap);
    var chunk := Chunk(s[cursor..end], index, end - cursor, if index > 0 then overlap else 0);
    if end == |s| then [chunk] else [chunk] + ChunksFrom(s, end - overlap, index + 1, size, overlap)
  }

  lemma ChunksFromParts(s: string, cursor: nat, index: nat, size: int, overlap: int)
    requires Sizes(size, overlap) && cursor < |s|
    ensures var end := EndOf(s, cursor, size, overlap);
      var chunks := ChunksFrom(s, cursor, index, size, overlap);
      && chunks[0] == Chunk(s[cursor..end], index, end - cursor, if index > 0 then overlap else 0)
      && chunks[1..] == if end == |s| then [] else ChunksFrom(s, end - overlap, index + 1, size, overlap)
  {
  }

  function Chunks(text: string, size: int, overlap: int): seq<Chunk>
    requires Sizes(size, overlap)
  {
    var s := Strip(text);
    if s == "" then [] else ChunksFrom(s, 0, 0, size, overlap)
  }

  lemma ChunksAre(text: string, size: int, overlap: int)
    requires Sizes(size, overlap)
    ensures Chunks(text, size, overlap)
      == if Strip(text) == "" then [] else ChunksFrom(Strip(text), 0, 0, size, overlap)
  {
  }

  lemma OneChunk(s: string, size: int, overlap: int)
    requires Sizes(size, overlap) && 0 < |s| <= size
    ensures ChunksFrom(s, 0, 0, size, overlap) == [Chunk(s, 0, |s|, 0)]
  {
    assert s[0..|s|] == s;
  }

  /** The chunks so far, and those from the cursor on, are the chunks of the text. */
  ghost predicate Continues(done: seq<Chunk>, s: string, cursor: nat, size: int, overlap: int)
    requires Sizes(size, overlap) && cursor < |s|
  {
    done + ChunksFrom(s, cursor, |done|, size, overlap) == ChunksFrom(s, 0, 0, size, overlap)
  }

  lemma NothingDone(s: string, size: int, overlap: int)
    requires Sizes(size, overlap) && s != ""
    ensures Continues([], s, 0, size, overlap)
  {
    hide ChunksFrom;
  }

  /** How one more chunk carries the work done so far on. */
  lemma OneMoreChunk(done: seq<Chunk>, s: string, cursor: nat, size: int, overlap: int)
    requires Sizes(size, overlap) && cursor < |s| && Continues(done, s, cursor, size, overlap)
    ensures var end := EndOf(s, cursor, size, overlap);
      var more := done + [Chunk(s[cursor..end], |done|, end - cursor, if done != [] then overlap else 0)];
      if end == |s| then more == ChunksFrom(s, 0, 0, size, overlap)
      else Continues(more, s, end - overlap, size, overlap)
  {
    hide EndOf;
    hide ChunksFrom;
    ChunksFromParts(s, cursor, |done|, size, overlap);
    var next := ChunksFrom(s, cursor, |done|, size, overlap);
    assert next == [next[0]] + next[1..];
    assert done + next == (done + [next[0]]) + next[1..];
  }

  datatype ChunkError = SizeNotPositive | OverlapNegative | OverlapNotLess

  method ChunkText(text: string, chunkSize: int, overlap: int) returns (r: Result<seq<Chunk>, ChunkError>)
    ensures r.Ok? <==> Sizes(chunkSize, overlap)
    ensures r.Ok? ==> r.value == Chunks(text, chunkSize, overlap)
    ensures r.Err? ==>
      r.error == if chunkSize <= 0 then SizeNotPositive else if overlap < 0 then OverlapNegative else OverlapNotLess
  {
    hide ChunksFrom;
    hide IsCut;
    hide Cut;
    hide Strip;
    hide EndOf;
    hide Continues;
    hide SoftBoundary;
    hide Chunks;
    if chunkSize <= 0 {
      return Err(SizeNotPositive);
    }
    if overlap < 0 {
      return Err(OverlapNegative);
    }
    if overlap >= chunkSize {
      return Err(OverlapNotLess);
    }
    var stripped := Strip(text);
    ChunksAre(text, chunkSize, overlap);
    if stripped == "" {
      return Ok([]);
    }
    if |stripped| <= chunkSize {
      OneChunk(stripped, chunkSize, overlap);
      return Ok([Chunk(stripped, 0, |stripped|, 0)]);
    }
    var chunks: seq<Chunk> := [];
    var cursor: nat := 0;
    NothingDone(stripped, chunkSize, overlap);
    while cursor < |stripped|
      invariant cursor < |stripped|
      invariant Continues(chunks, stripped, cursor, chunkSize, overlap)
      decreases |stripped| - cursor
    {
      OneMoreChunk(chunks, stripped, cursor, chunkSize, overlap);
      EndOfIs(stripped, cursor, chunkSize, overlap);
      var end: nat := Min(cursor + chunkSize, |stripped|);
      if end < |stripped| {
        var minEnd := cursor + overlap + 1;
        end := BackUpToSoftBoundary(stripped, end, minEnd);
      }
      var body := stripped[cursor..end];
      var overlapChars := if chunks != [] then overlap else 0;
      chunks := chunks + [Chunk(body, |chunks|, |body|, overlapChars)];
      assert |body| == end - cursor;
      if end >= |stripped| {
        return Ok(chunks);
      }
      cursor := end - overlap;
    }
  }

  // ----- cover -------------------------------------------------------------------------------------------------

  /** Leading overlaps dropped, the rest put end to end. */
  function Rebuild(chunks: seq<Chunk>): string {
    if chunks == [] then ""
    else
      var c := chunks[0];
      (if c.overlapChars <= |c.text| then c.text[c.overlapChars..] else "") + Rebuild(chunks[1..])
  }

  lemma {:induction false} RebuildFrom(s: string, cursor: nat, index: nat, size: int, overlap: int)
    requires Sizes(size, overlap) && cursor < |s| && (index > 0 ==> cursor + overlap < |s|)
    ensures Rebuild(ChunksFrom(s, cursor, index, size, overlap)) == s[cursor + (if index > 0 then overlap else 0)..]
    decreases |s| - cursor
  {
    hide EndOf;
    hide ChunksFrom;
    ChunksFromParts(s, cursor, index, size, overlap);
    var end := EndOf(s, cursor, size, overlap);
    var skip := if index > 0 then overlap else 0;
    if end < |s| {
      RebuildFrom(s, end - overlap, index + 1, size, overlap);
    }
    assert s[cursor..end][skip..] == s[cursor + skip..end];
    assert s[cursor + skip..end] + s[end..] == s[cursor + skip..];
  }

  /** Dropping the overlaps rebuilds the stripped text, for every text and every admissible size and overlap. */
  lemma {:induction false} ChunksRebuild(text: string, size: int, overlap: int)
    requires Sizes(size, overlap)
    ensures Rebuild(Chunks(text, size, overlap)) == Strip(text)
  {
    if Strip(text) != "" {
      RebuildFrom(Strip(text), 0, 0, size, overlap);
    }
  }

  lemma {:induction false} RebuildSnoc(chunks: seq<Chunk>, c: Chunk)
    ensures Rebuild(chunks + [c]) == Rebuild(chunks) + Rebuild([c])
  {
    if chunks == [] {
      assert chunks + [c] == [c];
    } else {
      assert (chunks + [c])[1..] == chunks[1..] + [c];
      RebuildSnoc(chunks[1..], c);
    }
  }

  lemma {:induction false} ChunksFromNumbered(s: string, cursor: nat, index: nat, size: int, overlap: int)
    requires Sizes(size, overlap) && cursor < |s| && (index > 0 ==> cursor + overlap < |s|)
    ensures var chunks := ChunksFrom(s, cursor, index, size, overlap);
      forall i :: 0 <= i < |chunks| ==> chunks[i].index == index + i && chunks[i].overlapChars <= |chunks[i].text|
    decreases |s| - cursor
  {
    hide ChunksFrom;
    hide EndOf;
    ChunksFromParts(s, cursor, index, size, overlap);
    var end := EndOf(s, cursor, size, overlap);
    var chunks := ChunksFrom(s, cursor, index, size, overlap);
    if end < |s| {
      ChunksFromNumbered(s, end - overlap, index + 1, size, overlap);
      assert chunks == [chunks[0]] + chunks[1..];
    }
  }

  /** Chunks are numbered from zero and none is shorter than the overlap it carries. */
  lemma {:induction false} ChunksNumbered(text: string, size: int, overlap: int)
    requires Sizes(size, overlap)
    ensures var chunks := Chunks(text, size, overlap);
      forall i :: 0 <= i < |chunks| ==> chunks[i].index == i && chunks[i].overlapChars <= |chunks[i].text|
  {
    hide ChunksFrom;
    hide Strip;
    var chunks := Chunks(text, size, overlap);
    if Strip(text) != "" {
      ChunksFromNumbered(Strip(text), 0, 0, size, overlap);
      assert chunks == ChunksFrom(Strip(text), 0, 0, size, overlap);
      assert forall i :: 0 <= i < |chunks| ==> chunks[i].index == 0 + i && chunks[i].overlapChars <= |chunks[i].text|;
    } else {
      assert chunks == [];
    }
  }

  /** Every chunk counts its own characters. */
  lemma {:induction false} ChunksCounted(text: string, size: int, overlap: int)
    requires Sizes(size, overlap)
    ensures forall c :: c in Chunks(text, size, overlap) ==> c.charCount == |c.text|
  {
    hide ChunksFrom;
    hide Strip;
    if Strip(text) != "" {
      ChunksFromCounted(Strip(text), 0, 0, size, overlap);
    }
  }

  lemma {:induction false} ChunksFromCounted(s: string, cursor: nat, index: nat, size: int, overlap: int)
    requires Sizes(size, overlap) && cursor < |s|
    ensures forall c :: c in ChunksFrom(s, cursor, index, size, overlap) ==> c.charCount == |c.text|
    decreases |s| - cursor
  {
    hide EndOf;
    hide ChunksFrom;
    ChunksFromParts(s, cursor, index, size, overlap);
    var end := EndOf(s, cursor, size, overlap);
    var chunks := ChunksFrom(s, cursor, index, size, overlap);
    assert chunks == [chunks[0]] + chunks[1..];
    if end < |s| {
      ChunksFromCounted(s, end - overlap, index + 1, size, overlap);
    }
  }

  /** Numbering, lengths, cuts and shared ends of a run of chunks that starts at `cursor`. */
  ghost predicate WellChunked(s: string, cursor: nat, index: nat, size: int, overlap: int, chunks: seq<Chunk>) {
    && (forall i :: 0 <= i < |chunks| ==>
          && chunks[i].index == index + i
          && chunks[i].charCount == |chunks[i].text|
          && overlap < |chunks[i].text| <= size
          && chunks[i].overlapChars == if index + i > 0 then overlap else 0)
    && (forall i :: 0 <= i < |chunks| - 1 ==> Shares(chunks[i].text, chunks[i + 1].text, overlap))
  }

  predicate Shares(a: string, b: string, overlap: int) {
    0 <= overlap <= |a| && overlap <= |b| && a[|a| - overlap..] == b[..overlap]
  }

  /** Two slices that overlap share what lies in both. */
  lemma SlicesShare(s: string, a: nat, b: nat, c: nat, overlap: nat)
    requires a + overlap <= b <= c <= |s|
    ensures Shares(s[a..b], s[b - overlap..c], overlap)
  {
    var left, right := s[a..b], s[b - overlap..c];
    assert left[|left| - overlap..] == s[b - overlap..b] && right[..overlap] == s[b - overlap..b];
  }

  lemma {:induction false} ChunksFromWell(s: string, cursor: nat, index: nat, size: int, overlap: int)
    requires Sizes(size, overlap) && cursor + overlap < |s|
    ensures WellChunked(s, cursor, index, size, overlap, ChunksFrom(s, cursor, index, size, overlap))
    decreases |s| - cursor
  {
    hide EndOf;
    hide ChunksFrom;
    hide Shares;
    ChunksFromParts(s, cursor, index, size, overlap);
    var end := EndOf(s, cursor, size, overlap);
    var chunks := ChunksFrom(s, cursor, index, size, overlap);
    if end < |s| {
      var next := end - overlap;
      ChunksFromWell(s, next, index + 1, size, overlap);
      ChunksFromParts(s, next, index + 1, size, overlap);
      SlicesShare(s, cursor, end, EndOf(s, next, size, overlap), overlap);
      OneMoreWell(s, cursor, next, index, size, overlap, chunks);
    }
  }

  lemma OneMoreWell(s: string, cursor: nat, next: nat, index: nat, size: int, overlap: int, chunks: seq<Chunk>)
    requires |chunks| > 1 && WellChunked(s, next, index + 1, size, overlap, chunks[1..])
    requires var c := chunks[0];
      && c.index == index && c.charCount == |c.text| && overlap < |c.text| <= size
      && c.overlapChars == (if index > 0 then overlap else 0) && Shares(c.text, chunks[1].text, overlap)
    ensures WellChunked(s, cursor, index, size, overlap, chunks)
  {
    hide Shares;
    var rest := chunks[1..];
    assert forall i :: 0 < i < |chunks| ==> chunks[i] == rest[i - 1];
  }

  /**
   In a multi-chunk result every chunk is longer than the overlap and no longer than the chunk size,
   and opens with the last `overlap` characters of the one before.
   */
  lemma {:induction false} MultiChunkShape(text: string, size: int, overlap: int)
    requires Sizes(size, overlap) && |Strip(text)| > size
    ensures WellChunked(Strip(text), 0, 0, size, overlap, Chunks(text, size, overlap))
  {
    ChunksFromWell(Strip(text), 0, 0, size, overlap);
  }

  // ----- where the cuts fall -----------------------------------------------------------------------------------

  /** Chunk after chunk starts `overlap` before the last end, and every end short of the text's is a soft cut. */
  ghost predicate CutsFall(s: string, cursor: nat, size: int, overlap: int, chunks: seq<Chunk>)
    decreases |chunks|
  {
    && chunks != [] && Sizes(size, overlap)
    && var end := cursor + |chunks[0].text|;
       && end <= |s| && chunks[0].text == s[cursor..end]
       && (if |chunks| == 1 then end == |s| && |s| <= cursor + size
           else && cursor + size < |s| && IsCut(s, cursor + size, cursor + overlap + 1, end) && end >= overlap
                && CutsFall(s, end - overlap, size, overlap, chunks[1..]))
  }

  lemma {:induction false} ChunksFromCutsFall(s: string, cursor: nat, index: nat, size: int, overlap: int)
    requires Sizes(size, overlap) && cursor < |s|
    ensures CutsFall(s, cursor, size, overlap, ChunksFrom(s, cursor, index, size, overlap))
    decreases |s| - cursor
  {
    hide ChunksFrom;
    hide IsCut;
    hide Cut;
    hide EndOf;
    hide CutsFall;
    ChunksFromParts(s, cursor, index, size, overlap);
    EndOfIs(s, cursor, size, overlap);
    var end := EndOf(s, cursor, size, overlap);
    if end < |s| {
      CutIsCut(s, cursor + size, cursor + overlap + 1);
      ChunksFromCutsFall(s, end - overlap, index + 1, size, overlap);
    }
    OneMoreCut(s, cursor, size, overlap, ChunksFrom(s, cursor, index, size, overlap), end);
  }

  lemma OneMoreCut(s: string, cursor: nat, size: int, overlap: int, chunks: seq<Chunk>, end: nat)
    requires Sizes(size, overlap) && cursor < end <= |s| && chunks != [] && chunks[0].text == s[cursor..end]
    requires end == |s| ==> chunks[1..] == [] && |s| <= cursor + size
    requires end < |s| ==>
      && chunks[1..] != [] && overlap < end && cursor + size < |s|
      && IsCut(s, cursor + size, cursor + overlap + 1, end)
      && CutsFall(s, end - overlap, size, overlap, chunks[1..])
    ensures CutsFall(s, cursor, size, overlap, chunks)
  {
    hide IsCut;
  }

  /** In a multi-chunk result each non-final cut lies just after the last boundary of its window, if it has one. */
  lemma MultiChunkCuts(text: string, size: int, overlap: int)
    requires Sizes(size, overlap) && |Strip(text)| > size
    ensures CutsFall(Strip(text), 0, size, overlap, Chunks(text, size, overlap))
  {
    ChunksFromCutsFall(Strip(text), 0, 0, size, overlap);
  }

  // ----- how many chunks -----------------------------------------------------------------------------------------

  /** The least a non-final chunk moves the cursor. */
  function LeastAdvance(size: int, overlap: int): int {
    Min(size - overlap, Max(2, size - overlap - 49))
  }

  lemma Advance(s: string, cursor: nat, size: int, overlap: int)
    requires Sizes(size, overlap) && cursor < |s| && EndOf(s, cursor, size, overlap) < |s|
    ensures LeastAdvance(size, overlap) <= EndOf(s, cursor, size, overlap) - overlap - cursor <= size - overlap
  {
  }

  lemma {:induction false} CountFrom(s: string, cursor: nat, index: nat, size: int, overlap: int)
    requires Sizes(size, overlap) && cursor + overlap < |s|
    ensures var n := |ChunksFrom(s, cursor, index, size, overlap)|;
      && |s| - cursor - overlap <= n * (size - overlap)
      && (n - 1) * LeastAdvance(size, overlap) <= |s| - cursor - overlap - 1
    decreases |s| - cursor
  {
    hide EndOf;
    hide ChunksFrom;
    hide LeastAdvance;
    ChunksFromParts(s, cursor, index, size, overlap);
    var end := EndOf(s, cursor, size, overlap);
    var d, a := size - overlap, LeastAdvance(size, overlap);
    if end < |s| {
      var n := |ChunksFrom(s, end - overlap, index + 1, size, overlap)|;
      CountFrom(s, end - overlap, index + 1, size, overlap);
      Advance(s, cursor, size, overlap);
      OneMore(n, d);
      OneMore(n - 1, a);
    } else {
      assert |s| <= cursor + size;
    }
  }

  lemma OneMore(n: int, d: int)
    ensures (n + 1) * d == n * d + d
  {
  }

  /** Bounds on the number of chunks of a text longer than one chunk. */
  lemma {:induction false} ChunkCount(text: string, size: int, overlap: int)
    requires Sizes(size, overlap) && |Strip(text)| > size
    ensures var n := |Chunks(text, size, overlap)|;
      && n >= 2
      && |Strip(text)| - overlap <= n * (size - overlap)
      && (n - 1) * LeastAdvance(size, overlap) <= |Strip(text)| - overlap - 1
  {
    CountFrom(Strip(text), 0, 0, size, overlap);
  }
}
