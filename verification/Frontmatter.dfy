/** Markdown documents with optional YAML frontmatter (axiom-store/frontmatter.py). */
module Frontmatter {
  import opened Wrappers
  import opened Text
  import opened Yaml

  datatype FrontmatterError = NotClosed | NotYaml | NotMapping

  type Document = Result<(Meta, string), FrontmatterError>

  /** The least index from `i` on whose line is a fence; `|lines|` when there is none. */
  function NextFence(lines: seq<string>, i: nat): (k: nat)
    requires i <= |lines|
    ensures i <= k <= |lines|
    ensures k < |lines| ==> lines[k] == FENCE
    ensures forall j :: i <= j < k ==> lines[j] != FENCE
    decreases |lines| - i
  {
    if i == |lines| || lines[i] == FENCE then i else NextFence(lines, i + 1)
  }

  function LoadBlock(y: Yaml, block: string): Result<Meta, FrontmatterError> {
    if Strip(block) == "" then
      Ok(map[])
    else
      match y.load(block)
      case None => Err(NotYaml)
      case Some(Null) => Ok(map[])
      case Some(Dict(m)) => Ok(m)
      case Some(_) => Err(NotMapping)
  }

  /** A single leading newline is dropped. */
  function DropNewline(body: string): string {
    if body != "" && body[0] == '\n' then body[1..] else body
  }

  function ParseLines(y: Yaml, lines: seq<string>): Document
    requires |lines| >= 1
  {
    var closing := NextFence(lines, 1);
    if closing == |lines| then
      Err(NotClosed)
    else
      match LoadBlock(y, Join(lines[1..closing], '\n'))
      case Err(e) => Err(e)
      case Ok(m) => Ok((m, DropNewline(Join(lines[closing + 1..], '\n'))))
  }

  /** What `parse_frontmatter` returns. */
  function Parse(y: Yaml, text: string): Document {
    var lines := Split(text, '\n');
    if lines[0] != FENCE then Ok((map[], text)) else ParseLines(y, lines)
  }

  method ParseFrontmatter(y: Yaml, text: string) returns (r: Document)
    ensures r == Parse(y, text)
  {
    if text == "" {
      return Ok((map[], ""));
    }
    var lines := Split(text, '\n');
    if lines[0] != FENCE {
      return Ok((map[], text));
    }
    var closing := 1;
    while closing < |lines| && lines[closing] != FENCE
      invariant 1 <= closing <= |lines|
      invariant NextFence(lines, 1) == NextFence(lines, closing)
    {
      closing := closing + 1;
    }
    if closing == |lines| {
      return Err(NotClosed);
    }
    var block := LoadBlock(y, Join(lines[1..closing], '\n'));
    if block.Err? {
      return Err(block.error);
    }
    var body := Join(lines[closing + 1..], '\n');
    r := Ok((block.value, DropNewline(body)));
  }

  function Render(y: Yaml, meta: Meta, body: string): string {
    if meta == map[] then body
    else FENCE + "\n" + y.dump(meta) + FENCE + "\n\n" + body
  }

  /** The fence closes where the dump ends, because no line of the dump is a fence. */
  lemma RenderedLines(y: Yaml, meta: Meta, body: string)
    requires meta != map[] && Faithful(y, meta)
    ensures Split(Render(y, meta, body), '\n')
         == [FENCE] + Split(Block(y, meta), '\n') + [FENCE] + [""] + Split(body, '\n')
  {
    var block := Block(y, meta);
    var tail3 := "" + ['\n'] + body;
    var tail2 := FENCE + ['\n'] + tail3;
    var tail1 := block + ['\n'] + tail2;
    assert Render(y, meta, body) == FENCE + ['\n'] + tail1;
    SplitAt(FENCE, '\n', tail1);
    SplitAt(block, '\n', tail2);
    SplitAt(FENCE, '\n', tail3);
    SplitAt("", '\n', body);
    SplitWhole(FENCE, '\n');
  }

  lemma NextFenceAt(before: seq<string>, after: seq<string>)
    requires FENCE !in before
    ensures NextFence([FENCE] + before + [FENCE] + after, 1) == 1 + |before|
  {
    var lines := [FENCE] + before + [FENCE] + after;
    var found := NextFence(lines, 1);
    assert lines[1 + |before|] == FENCE;
    assert forall j :: 1 <= j < 1 + |before| ==> lines[j] in before;
  }

  lemma ParseFencedLines(y: Yaml, before: seq<string>, after: seq<string>)
    requires FENCE !in before
    ensures ParseLines(y, [FENCE] + before + [FENCE] + after)
         == match LoadBlock(y, Join(before, '\n'))
            case Err(e) => Err(e)
            case Ok(m) => Ok((m, DropNewline(Join(after, '\n'))))
  {
    var lines := [FENCE] + before + [FENCE] + after;
    NextFenceAt(before, after);
    assert lines[1..1 + |before|] == before && lines[2 + |before|..] == after;
  }

  /** What a block between fences stands for. */
  ghost predicate Means(y: Yaml, block: string, meta: Meta) {
    if Blank(block) || y.load(block) == Some(Null) then meta == map[] else y.load(block) == Some(Dict(meta))
  }

  function Fenced(block: string, rest: string): string {
    "---\n" + block + "\n---\n" + rest
  }

  lemma FencedLines(block: string, rest: string)
    ensures Split(Fenced(block, rest), '\n') == [FENCE] + Split(block, '\n') + [FENCE] + Split(rest, '\n')
  {
    hide Split;
    var tail2 := FENCE + ['\n'] + rest;
    var tail1 := block + ['\n'] + tail2;
    assert Fenced(block, rest) == FENCE + ['\n'] + tail1;
    SplitAt(FENCE, '\n', tail1);
    SplitAt(block, '\n', tail2);
    SplitAt(FENCE, '\n', rest);
    SplitWhole(FENCE, '\n');
    var b, r := Split(block, '\n'), Split(rest, '\n');
    assert [FENCE] + (b + ([FENCE] + r)) == [FENCE] + b + [FENCE] + r;
  }

  lemma FencedParse(y: Yaml, block: string, rest: string)
    requires FENCE !in Split(block, '\n')
    ensures Parse(y, Fenced(block, rest))
         == match LoadBlock(y, block)
            case Err(e) => Err(e)
            case Ok(m) => Ok((m, DropNewline(rest)))
  {
    hide Split;
    hide Fenced;
    hide ParseLines;
    hide LoadBlock;
    FencedLines(block, rest);
    ParseFencedLines(y, Split(block, '\n'), Split(rest, '\n'));
    JoinSplit(block, '\n');
    JoinSplit(rest, '\n');
  }

  lemma BlockMeans(y: Yaml, block: string, meta: Meta)
    ensures Means(y, block, meta) <==> LoadBlock(y, block) == Ok(meta)
    ensures !Blank(block) && y.load(block) == None ==> LoadBlock(y, block) == Err(NotYaml)
    ensures !Blank(block) && y.load(block).Some? && !y.load(block).value.Null? && !y.load(block).value.Dict? ==>
      LoadBlock(y, block) == Err(NotMapping)
  {
  }

  /**
   Any fenced text, whoever wrote it: what follows the closing fence is the body, less one newline if it opens with
   one; and a block that is not YAML, or no mapping, is refused.
   */
  lemma ParsesFenced(y: Yaml, block: string, meta: Meta, rest: string)
    requires FENCE !in Split(block, '\n')
    ensures Means(y, block, meta) && (rest == "" || rest[0] != '\n') ==>
      Parse(y, Fenced(block, rest)) == Ok((meta, rest))
    ensures Means(y, block, meta) ==> Parse(y, Fenced(block, "\n" + rest)) == Ok((meta, rest))
    ensures !Blank(block) && y.load(block) == None ==> Parse(y, Fenced(block, rest)) == Err(NotYaml)
    ensures !Blank(block) && y.load(block).Some? && !y.load(block).value.Null? && !y.load(block).value.Dict? ==>
      Parse(y, Fenced(block, rest)) == Err(NotMapping)
  {
    hide Parse;
    hide Fenced;
    hide Means;
    hide LoadBlock;
    FencedParse(y, block, rest);
    FencedParse(y, block, "\n" + rest);
    BlockMeans(y, block, meta);
    assert ("\n" + rest)[1..] == rest;
  }

  /** Two fences with nothing between them are empty metadata. */
  lemma ParsesEmptyBlock(y: Yaml, rest: string)
    ensures rest == "" || rest[0] != '\n' ==> Parse(y, "---\n---\n" + rest) == Ok((map[], rest))
    ensures Parse(y, "---\n---\n" + ("\n" + rest)) == Ok((map[], rest))
  {
    hide Split;
    EmptyBlockLines(rest);
    EmptyBlockLines("\n" + rest);
    ParseFencedLines(y, [], Split(rest, '\n'));
    ParseFencedLines(y, [], Split("\n" + rest, '\n'));
    JoinSplit(rest, '\n');
    JoinSplit("\n" + rest, '\n');
    assert ("\n" + rest)[1..] == rest;
  }

  lemma EmptyBlockLines(rest: string)
    ensures Split("---\n---\n" + rest, '\n') == [FENCE] + [] + [FENCE] + Split(rest, '\n')
  {
    assert "---\n---\n" + rest == FENCE + ['\n'] + (FENCE + ['\n'] + rest);
    SplitAt(FENCE, '\n', FENCE + ['\n'] + rest);
    SplitAt(FENCE, '\n', rest);
    SplitWhole(FENCE, '\n');
  }

  /** A fence on the first line that no later line closes is refused; a text that opens otherwise is all body. */
  lemma ParsesUnfenced(y: Yaml, text: string)
    ensures Split(text, '\n')[0] != FENCE ==> Parse(y, text) == Ok((map[], text))
    ensures Split(text, '\n')[0] == FENCE ==>
      (Parse(y, text) == Err(NotClosed) <==> FENCE !in Split(text, '\n')[1..])
  {
    hide LoadBlock;
    var lines := Split(text, '\n');
    var k := NextFence(lines, 1);
    assert forall j :: 1 <= j < |lines| ==> lines[1..][j - 1] == lines[j];
    assert FENCE in lines[1..] ==> k < |lines|;
    assert k < |lines| ==> FENCE in lines[1..];
    LoadsOrNot(y, Join(lines[1..k], '\n'));
  }

  lemma LoadsOrNot(y: Yaml, block: string)
    ensures LoadBlock(y, block) != Err(NotClosed)
  {
  }

  /** Non-empty metadata and any body at all come back, leading newlines and fence lines included. */
  lemma RoundTrip(y: Yaml, meta: Meta, body: string)
    requires meta != map[] && Faithful(y, meta)
    ensures Parse(y, Render(y, meta, body)) == Ok((meta, body))
  {
    RenderedLines(y, meta, body);
    var before, after := Split(Block(y, meta), '\n'), [""] + Split(body, '\n');
    var text := Render(y, meta, body);
    assert Split(text, '\n') == [FENCE] + before + [FENCE] + after;
    assert Parse(y, text) == ParseLines(y, [FENCE] + before + [FENCE] + after);
    ParseFencedLines(y, before, after);
    JoinSplit(Block(y, meta), '\n');
    LoadsBack(y, meta);
    DropsBlankLine(body);
  }

  lemma LoadsBack(y: Yaml, meta: Meta)
    requires Faithful(y, meta)
    ensures LoadBlock(y, Block(y, meta)) == Ok(meta)
  {
  }

  lemma DropsBlankLine(body: string)
    ensures DropNewline(Join([""] + Split(body, '\n'), '\n')) == body
  {
    var lines := Split(body, '\n');
    JoinSplit(body, '\n');
    assert ([""] + lines)[1..] == lines;
    assert Join([""] + lines, '\n') == ['\n'] + body;
  }

  /** With no metadata the document is its own body, and reads back exactly if it opens with no fence. */
  lemma RoundTripEmpty(y: Yaml, body: string)
    ensures Parse(y, Render(y, map[], body)) == Ok((map[], body)) <==> Split(body, '\n')[0] != FENCE
  {
    var lines := Split(body, '\n');
    var doc := ParseLines(y, lines);
    if lines[0] == FENCE && doc.Ok? {
      ParsedBodyShorter(y, lines);
      JoinSplit(body, '\n');
      assert |doc.value.1| < |body|;
    }
  }

  lemma ParsedBodyShorter(y: Yaml, lines: seq<string>)
    requires |lines| >= 1 && lines[0] == FENCE && ParseLines(y, lines).Ok?
    ensures |ParseLines(y, lines).value.1| < |Join(lines, '\n')|
  {
    SuffixShorter(lines, NextFence(lines, 1) + 1);
  }

  lemma SuffixShorter(lines: seq<string>, k: nat)
    requires 1 <= k <= |lines| && |lines[0]| >= 1
    ensures |Join(lines[k..], '\n')| < |Join(lines, '\n')|
  {
    assert lines[..k] + lines[k..] == lines;
    if k < |lines| {
      JoinAppend(lines[..k], lines[k..], '\n');
    } else {
      assert |Join(lines, '\n')| >= |lines[0]|;
    }
  }

  // ----- reclaim notes -------------------------------------------------------------------------

  /** One reclaim at the text level: the body read back, a note appended, new metadata in front. */
  function AppendNote(y: Yaml, text: string, meta: Meta, note: string): Result<string, FrontmatterError> {
    match Parse(y, text)
    case Err(e) => Err(e)
    case Ok((_, body)) => Ok(Render(y, meta, body + note))
  }

  lemma NoteAppended(y: Yaml, text: string, meta: Meta, note: string)
    requires Parse(y, text).Ok? && meta != map[] && Faithful(y, meta)
    ensures AppendNote(y, text, meta, note).Ok?
    ensures Parse(y, AppendNote(y, text, meta, note).value) == Ok((meta, Parse(y, text).value.1 + note))
  {
    RoundTrip(y, meta, Parse(y, text).value.1 + note);
  }

  /** Reclaims one after the other, oldest first. */
  function AppendNotes(y: Yaml, text: string, edits: seq<(Meta, string)>): Result<string, FrontmatterError>
    decreases |edits|
  {
    if edits == [] then Ok(text)
    else
      var last := edits[|edits| - 1];
      match AppendNotes(y, text, edits[..|edits| - 1])
      case Err(e) => Err(e)
      case Ok(before) => AppendNote(y, before, last.0, last.1)
  }

  function Notes(edits: seq<(Meta, string)>): string {
    if edits == [] then "" else Notes(edits[..|edits| - 1]) + edits[|edits| - 1].1
  }

  /** However many reclaims follow each other, the first body survives verbatim, then every note in order. */
  lemma {:induction false} NotesAccumulate(y: Yaml, text: string, edits: seq<(Meta, string)>)
    requires Parse(y, text).Ok?
    requires forall e :: e in edits ==> e.0 != map[] && Faithful(y, e.0)
    ensures AppendNotes(y, text, edits).Ok? && Parse(y, AppendNotes(y, text, edits).value).Ok?
    ensures Parse(y, AppendNotes(y, text, edits).value).value.1 == Parse(y, text).value.1 + Notes(edits)
    ensures edits != [] ==> Parse(y, AppendNotes(y, text, edits).value).value.0 == edits[|edits| - 1].0
    decreases |edits|
  {
    var n := |edits|;
    if n == 0 {
      assert Parse(y, text).value.1 + "" == Parse(y, text).value.1;
    } else {
      var (meta, note) := edits[n - 1];
      assert edits[n - 1] in edits;
      NotesAccumulate(y, text, edits[..n - 1]);
      var before := AppendNotes(y, text, edits[..n - 1]).value;
      NoteAppended(y, before, meta, note);
      assert AppendNotes(y, text, edits) == AppendNote(y, before, meta, note);
      Associative(Parse(y, text).value.1, Notes(edits[..n - 1]), note);
    }
  }

  lemma Associative(a: string, b: string, c: string)
    ensures (a + b) + c == a + (b + c)
  {
  }
}
