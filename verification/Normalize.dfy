/** Whitespace clean-up of extracted markdown (axiom-fetch/extractor.py, `_normalize_whitespace`). */
module Normalize {
  import opened Text

  // ----- lines ---------------------------------------------------------------------------------------------

  /** The characters `str.splitlines` breaks at. */
  predicate IsBreak(c: char) {
    var n := c as int;
    10 <= n <= 13 || 28 <= n <= 30 || n in {0x85, 0x2028, 0x2029}
  }

  /** The position of the first line break, or the length when there is none. */
  function Cut(text: string): (k: nat)
    ensures k <= |text| && (k < |text| ==> IsBreak(text[k]))
    ensures forall i :: 0 <= i < k ==> !IsBreak(text[i])
  {
    if text == "" || IsBreak(text[0]) then 0
    else
      assert forall i :: 0 < i < |text| ==> text[i] == text[1..][i - 1];
      1 + Cut(text[1..])
  }

  /** The length of the line break at `k`; a carriage return takes a line feed after it along. */
  function BreakLength(text: string, k: nat): (n: nat)
    requires k < |text|
    ensures 1 <= n <= |text| - k
  {
    if text[k] == '\r' && k + 1 < |text| && text[k + 1] == '\n' then 2 else 1
  }

  /** `text.splitlines()`: a break at the very end opens no line. */
  function SplitLines(text: string): seq<string> {
    var k := Cut(text);
    if text == "" then []
    else if k == |text| then [text]
    else [text[..k]] + SplitLines(text[k + BreakLength(text, k)..])
  }

  /** What line `n - 1` of `lines[..n]` adds to the output. */
  function Kept(lines: seq<string>, n: nat): seq<string>
    requires 0 < n <= |lines|
  {
    if !Blank(lines[n - 1]) then [RStrip(lines[n - 1])]
    else if n > 1 && Blank(lines[n - 2]) then []
    else [""]
  }

  /** Runs of blank lines become one empty line; other lines lose what is white at their end. */
  function Tidied(lines: seq<string>): seq<string> {
    if lines == [] then [] else Tidied(lines[..|lines| - 1]) + Kept(lines, |lines|)
  }

  function Normalized(text: string): string {
    Strip(Join(Tidied(SplitLines(text)), '\n'))
  }

  method NormalizeWhitespace(text: string) returns (r: string)
    ensures r == Normalized(text)
  {
    hide *;
    var lines := SplitLines(text);
    var out: seq<string> := [];
    var blankRun := 0;
    TidiedStep(lines, 0);
    for i := 0 to |lines|
      invariant blankRun >= 0 && (blankRun > 0 <==> i > 0 && Blank(lines[i - 1]))
      invariant out == Tidied(lines[..i])
    {
      TidiedStep(lines, i);
      StripIsEmpty(lines[i]);
      if Strip(lines[i]) == "" {
        blankRun := blankRun + 1;
        if blankRun <= 1 {
          out := out + [""];
        }
      } else {
        blankRun := 0;
        out := out + [RStrip(lines[i])];
      }
    }
    assert lines[..|lines|] == lines;
    r := Strip(Join(out, '\n'));
    NormalizedDef(text);
  }

  lemma NormalizedDef(text: string)
    ensures Normalized(text) == Strip(Join(Tidied(SplitLines(text)), '\n'))
  {
  }

  lemma StripIsEmpty(s: string)
    ensures Strip(s) == "" <==> Blank(s)
  {
  }

  lemma TidiedStep(lines: seq<string>, i: nat)
    requires i <= |lines|
    ensures Tidied(lines[..0]) == []
    ensures i < |lines| ==>
      Tidied(lines[..i + 1]) == Tidied(lines[..i])
        + (if !Blank(lines[i]) then [RStrip(lines[i])] else if i > 0 && Blank(lines[i - 1]) then [] else [""])
    ensures Tidied(lines[..i]) + [] == Tidied(lines[..i])
  {
    hide Blank;
    hide RStrip;
    if i < |lines| {
      assert lines[..i + 1][..i] == lines[..i];
    }
  }

  // ----- what is ignored ---------------------------------------------------------------------------------------

  /** One line break, a carriage return with a line feed behind it being a single one. */
  ghost predicate OneBreak(brk: string) {
    brk == "\r\n" || (|brk| == 1 && IsBreak(brk[0]))
  }

  /** Whatever the kind of its break, a line is followed by the lines of the rest. */
  lemma SplitLinesExactly(line: string, brk: string, rest: string)
    requires (forall c :: c in line ==> !IsBreak(c)) && OneBreak(brk) && !(brk == "\r" && "\n" <= rest)
    ensures SplitLines(line + brk + rest) == [line] + SplitLines(rest)
    ensures SplitLines(line) == if line == "" then [] else [line]
  {
    hide IsBreak;
    CutAt(line, brk, rest);
    var text := line + brk + rest;
    assert text[..|line|] == line && text[|line| + |brk|..] == rest;
    assert rest != "" ==> text[|line| + |brk|] == rest[0];
    assert brk == "\r\n" ==> text[|line| + 1] == '\n';
    NoCut(line);
  }

  lemma NoCut(line: string)
    requires forall c :: c in line ==> !IsBreak(c)
    ensures Cut(line) == |line|
  {
  }

  lemma CutAt(line: string, brk: string, rest: string)
    requires (forall c :: c in line ==> !IsBreak(c)) && OneBreak(brk)
    ensures Cut(line + brk + rest) == |line|
  {
    var text := line + brk + rest;
    assert IsBreak(brk[0]) && text[|line|] == brk[0];
    assert forall i :: 0 <= i < |line| ==> text[i] == line[i] && line[i] in line;
    hide IsBreak;
  }

  predicate EndsBlank(lines: seq<string>) {
    lines != [] && Blank(lines[|lines| - 1])
  }

  lemma OneMoreLine(lines: seq<string>, line: string)
    ensures Tidied(lines + [line])
         == Tidied(lines) + (if !Blank(line) then [RStrip(line)] else if EndsBlank(lines) then [] else [""])
  {
    hide Blank;
    hide RStrip;
    assert (lines + [line])[..|lines|] == lines;
  }

  /** Lines that tidy alike and end alike can stand for each other in front of any others. */
  lemma {:induction false} FrontAlike(a: seq<string>, b: seq<string>, rest: seq<string>)
    requires Tidied(a) == Tidied(b) && EndsBlank(a) == EndsBlank(b)
    ensures Tidied(a + rest) == Tidied(b + rest) && EndsBlank(a + rest) == EndsBlank(b + rest)
  {
    hide Blank;
    hide Tidied;
    if rest == [] {
      assert a + rest == a && b + rest == b;
    } else {
      var init, last := rest[..|rest| - 1], rest[|rest| - 1];
      FrontAlike(a, b, init);
      OneMoreLine(a + init, last);
      OneMoreLine(b + init, last);
      assert a + rest == a + init + [last] && b + rest == b + init + [last];
    }
  }

  /** White space at the end of a line makes no difference. */
  lemma LineEndsIgnored(a: seq<string>, line: string, white: string, rest: seq<string>)
    requires Blank(white)
    ensures Tidied(a + [line + white] + rest) == Tidied(a + [line] + rest)
  {
    hide Tidied;
    hide IsSpace;
    StripEnd(line, white);
    OneMoreLine(a, line + white);
    OneMoreLine(a, line);
    FrontAlike(a + [line + white], a + [line], rest);
  }

  lemma {:induction false} StripEnd(line: string, white: string)
    requires Blank(white)
    ensures RStrip(line + white) == RStrip(line) && (Blank(line + white) <==> Blank(line))
  {
    hide IsSpace;
    var s := line + white;
    assert forall i :: 0 <= i < |line| ==> s[i] == line[i];
    assert forall i :: |line| <= i < |s| ==> s[i] == white[i - |line|];
    if white == "" {
      assert s == line;
    } else {
      assert s[..|s| - 1] == line + white[..|white| - 1];
      StripEnd(line, white[..|white| - 1]);
    }
  }

  /** Neither does it how many blank lines follow each other, or what is in them. */
  lemma BlankRunIsOne(a: seq<string>, x: string, y: string, rest: seq<string>)
    requires Blank(x) && Blank(y)
    ensures Tidied(a + [x, y] + rest) == Tidied(a + [x] + rest) == Tidied(a + [""] + rest)
  {
    hide Tidied;
    OneMoreLine(a, x);
    OneMoreLine(a, "");
    OneMoreLine(a + [x], y);
    assert a + [x, y] == a + [x] + [y];
    FrontAlike(a + [x, y], a + [x], rest);
    FrontAlike(a + [x], a + [""], rest);
  }

  // ----- shape -----------------------------------------------------------------------------------------------

  /**
   Lines end in a line feed and nothing else, nothing white stands before a line feed but another one,
   and no three line feeds follow each other.
   */
  ghost predicate Neat(s: string) {
    && (forall i :: 0 <= i < |s| && IsBreak(s[i]) ==> s[i] == '\n')
    && (forall i :: 0 < i < |s| && s[i] == '\n' && IsSpace(s[i - 1]) ==> s[i - 1] == '\n')
    && (forall i :: 1 < i < |s| && s[i - 1] == '\n' && s[i] == '\n' ==> s[i - 2] != '\n')
  }

  /** Neat, and nothing white at either end. */
  ghost predicate Tidy(s: string) {
    Neat(s) && (s == "" || (!IsSpace(s[0]) && !IsSpace(s[|s| - 1])))
  }

  /** One line, right-stripped. */
  ghost predicate CleanLine(line: string) {
    (forall i :: 0 <= i < |line| ==> !IsBreak(line[i])) && (line == "" || !IsSpace(line[|line| - 1]))
  }

  /** Right-stripped lines of which no two neighbours are empty. */
  ghost predicate CleanLines(lines: seq<string>) {
    && (forall k :: 0 <= k < |lines| ==> CleanLine(lines[k]))
    && (forall k :: 0 < k < |lines| && lines[k] == "" ==> lines[k - 1] != "")
  }

  ghost predicate Unbroken(lines: seq<string>) {
    forall k, i :: 0 <= k < |lines| && 0 <= i < |lines[k]| ==> !IsBreak(lines[k][i])
  }

  lemma {:induction false} SplitLinesUnbroken(text: string)
    ensures Unbroken(SplitLines(text))
  {
    var k := Cut(text);
    if text != "" && k < |text| {
      SplitLinesUnbroken(text[k + BreakLength(text, k)..]);
    }
  }

  lemma RStripCleans(line: string)
    requires forall i :: 0 <= i < |line| ==> !IsBreak(line[i])
    ensures CleanLine(RStrip(line)) && (RStrip(line) == "" <==> Blank(line))
  {
    hide IsBreak;
    hide IsSpace;
    var t := Trailing(line);
    assert forall i :: t <= i < |line| ==> line[i] == line[t..][i - t];
  }

  lemma EmptyIsClean()
    ensures CleanLine("")
  {
  }

  lemma CleanIsRStripped(line: string)
    requires CleanLine(line)
    ensures RStrip(line) == line && (Blank(line) <==> line == "")
  {
    hide IsBreak;
    hide IsSpace;
  }

  /** The last output line is empty exactly when the last input line is blank. */
  lemma {:induction false} TidiedClean(lines: seq<string>)
    requires Unbroken(lines)
    ensures CleanLines(Tidied(lines))
    ensures lines != [] ==>
      var out := Tidied(lines); out != [] && (out[|out| - 1] == "" <==> Blank(lines[|lines| - 1]))
  {
    hide RStrip;
    hide Blank;
    hide CleanLine;
    hide IsBreak;
    if lines != [] {
      var n := |lines|;
      assert Unbroken(lines[..n - 1]);
      EmptyIsClean();
      TidiedClean(lines[..n - 1]);
      RStripCleans(lines[n - 1]);
      assert n > 1 ==> lines[..n - 1][|lines[..n - 1]| - 1] == lines[n - 2];
    }
  }

  /** How a joined text begins. */
  lemma JoinHead(lines: seq<string>)
    requires lines != [] && forall k :: 0 <= k < |lines| ==> CleanLine(lines[k])
    ensures var j := Join(lines, '\n');
      && (j != "" && j[0] == '\n' ==> lines[0] == "" && |lines| > 1)
      && (|j| > 1 && j[0] == '\n' && j[1] == '\n' ==> |lines| > 1 && lines[0] == "" && lines[1] == "")
  {
    if |lines| > 2 {
      assert Join(lines[1..], '\n') == lines[1] + "\n" + Join(lines[2..], '\n')
        by { assert lines[1..][1..] == lines[2..]; }
    }
  }

  lemma NeatConcat(a: string, rest: string)
    requires CleanLine(a) && Neat(rest) && !(|rest| > 1 && rest[0] == '\n' && rest[1] == '\n')
    requires a == "" ==> !(rest != "" && rest[0] == '\n')
    ensures Neat(a + "\n" + rest)
  {
    var s := a + "\n" + rest;
    assert forall i :: 0 <= i < |a| ==> s[i] == a[i];
    assert s[|a|] == '\n';
    assert forall i :: |a| < i < |s| ==> s[i] == rest[i - |a| - 1];
  }

  lemma {:induction false} JoinNeat(lines: seq<string>)
    requires CleanLines(lines)
    ensures Neat(Join(lines, '\n'))
  {
    if |lines| == 1 {
      assert CleanLine(lines[0]);
    } else if |lines| > 1 {
      var tail := lines[1..];
      JoinNeat(tail);
      JoinHead(tail);
      NeatConcat(lines[0], Join(tail, '\n'));
    }
  }

  lemma NeatPart(s: string, i: nat, j: nat)
    requires Neat(s) && i <= j <= |s|
    ensures Neat(s[i..j])
  {
    hide IsBreak;
    hide IsSpace;
    var p := s[i..j];
    assert forall k :: 0 <= k < |p| ==> p[k] == s[i + k];
  }

  /** Whatever comes in, what goes out is tidy. */
  lemma NormalizedIsTidy(text: string)
    ensures Tidy(Normalized(text))
  {
    hide Tidied;
    hide SplitLines;
    hide Join;
    hide Neat;
    hide IsSpace;
    SplitLinesUnbroken(text);
    TidiedClean(SplitLines(text));
    var joined := Join(Tidied(SplitLines(text)), '\n');
    JoinNeat(Tidied(SplitLines(text)));
    var i, j :| 0 <= i <= j <= |joined| && Strip(joined) == joined[i..j];
    NeatPart(joined, i, j);
  }

  // ----- content -----------------------------------------------------------------------------------------------

  /** The characters of `s` that are not white, in order. */
  function Visible(s: string): string {
    if s == "" then ""
    else (if IsSpace(s[0]) then "" else [s[0]]) + Visible(s[1..])
  }

  function VisibleIn(lines: seq<string>): string {
    if lines == [] then "" else VisibleIn(lines[..|lines| - 1]) + Visible(lines[|lines| - 1])
  }

  lemma {:induction false} VisibleConcat(a: string, b: string)
    ensures Visible(a + b) == Visible(a) + Visible(b)
  {
    hide IsSpace;
    if a == "" {
      assert a + b == b;
    } else {
      assert (a + b)[1..] == a[1..] + b;
      VisibleConcat(a[1..], b);
    }
  }

  lemma {:induction false} VisibleBlank(s: string)
    requires Blank(s)
    ensures Visible(s) == ""
  {
    hide IsSpace;
    if s != "" {
      VisibleBlank(s[1..]);
    }
  }

  lemma VisibleMiddle(s: string, i: nat, j: nat)
    requires i <= j <= |s| && Blank(s[..i]) && Blank(s[j..])
    ensures Visible(s[i..j]) == Visible(s)
  {
    hide Visible;
    hide Blank;
    assert s == s[..i] + s[i..j] + s[j..];
    VisibleConcat(s[..i] + s[i..j], s[j..]);
    VisibleConcat(s[..i], s[i..j]);
    VisibleBlank(s[..i]);
    VisibleBlank(s[j..]);
  }

  lemma {:induction false} VisibleInConcat(a: seq<string>, b: seq<string>)
    ensures VisibleIn(a + b) == VisibleIn(a) + VisibleIn(b)
  {
    hide Visible;
    if b == [] {
      assert a + b == a;
    } else {
      assert (a + b)[..|a + b| - 1] == a + b[..|b| - 1];
      VisibleInConcat(a, b[..|b| - 1]);
    }
  }

  lemma VisibleInOne(line: string)
    ensures VisibleIn([line]) == Visible(line)
  {
    assert [line][..0] == [] && VisibleIn([]) == "";
  }

  lemma {:induction false} VisibleSplit(text: string)
    ensures VisibleIn(SplitLines(text)) == Visible(text)
  {
    hide Visible;
    hide VisibleIn;
    hide Blank;
    var k := Cut(text);
    if text == "" {
      assert SplitLines(text) == [] && VisibleIn([]) == Visible("") by { VisibleInNone(); }
    } else if k == |text| {
      VisibleInOne(text);
    } else {
      var n := BreakLength(text, k);
      var rest := text[k + n..];
      VisibleSplit(rest);
      VisibleInConcat([text[..k]], SplitLines(rest));
      VisibleInOne(text[..k]);
      BreaksAreBlank(text, k);
      VisibleBlank(text[k..k + n]);
      assert text == text[..k] + text[k..k + n] + rest;
      VisibleConcat(text[..k] + text[k..k + n], rest);
      VisibleConcat(text[..k], text[k..k + n]);
    }
  }

  lemma BreaksAreBlank(text: string, k: nat)
    requires k < |text| && IsBreak(text[k])
    ensures Blank(text[k..k + BreakLength(text, k)])
  {
  }

  lemma {:induction false} VisibleTidied(lines: seq<string>)
    ensures VisibleIn(Tidied(lines)) == VisibleIn(lines)
  {
    hide Visible;
    hide Blank;
    if lines != [] {
      var n := |lines|;
      var line := lines[n - 1];
      VisibleTidied(lines[..n - 1]);
      VisibleInConcat(Tidied(lines[..n - 1]), Kept(lines, n));
      VisibleKept(lines, n);
    }
  }

  lemma VisibleKept(lines: seq<string>, n: nat)
    requires 0 < n <= |lines|
    ensures VisibleIn(Kept(lines, n)) == Visible(lines[n - 1])
  {
    hide Visible;
    hide VisibleIn;
    var line := lines[n - 1];
    VisibleInOne("");
    VisibleBlank("");
    assert VisibleIn([]) == "" by { VisibleInNone(); }
    if Blank(line) {
      VisibleBlank(line);
    } else {
      VisibleInOne(RStrip(line));
      var t := Trailing(line);
      assert line[..0] == "" && line[0..t] == line[..t];
      VisibleMiddle(line, 0, t);
    }
  }

  lemma VisibleInNone()
    ensures VisibleIn([]) == "" && Visible("") == ""
  {
  }

  lemma {:induction false} VisibleJoin(lines: seq<string>)
    ensures Visible(Join(lines, '\n')) == VisibleIn(lines)
  {
    hide Visible;
    hide VisibleIn;
    VisibleInNone();
    if |lines| == 1 {
      VisibleInOne(lines[0]);
      assert lines == [lines[0]];
    } else if |lines| > 1 {
      var tail := lines[1..];
      VisibleJoin(tail);
      VisibleConcat(lines[0] + "\n", Join(tail, '\n'));
      VisibleConcat(lines[0], "\n");
      VisibleBlank("\n");
      assert lines == [lines[0]] + tail;
      VisibleInConcat([lines[0]], tail);
      VisibleInOne(lines[0]);
    }
  }

  /** No character that can be seen is lost, added or moved. */
  lemma KeepsVisible(text: string)
    ensures Visible(Normalized(text)) == Visible(text)
  {
    hide Visible;
    hide VisibleIn;
    hide Tidied;
    hide SplitLines;
    hide Blank;
    var lines := SplitLines(text);
    var joined := Join(Tidied(lines), '\n');
    VisibleSplit(text);
    VisibleTidied(lines);
    VisibleJoin(Tidied(lines));
    var i, j :| 0 <= i <= j <= |joined| && Strip(joined) == joined[i..j] && Blank(joined[..i]) && Blank(joined[j..]);
    VisibleMiddle(joined, i, j);
  }

  // ----- fixed points ------------------------------------------------------------------------------------------

  /** A neat text with no break at its end splits into clean lines, the same that a split at line feeds gives. */
  lemma {:induction false} NeatSplits(s: string)
    requires Neat(s) && s != "" && !IsSpace(s[|s| - 1])
    requires !(|s| > 1 && s[0] == '\n' && s[1] == '\n')
    ensures SplitLines(s) == Split(s, '\n') && CleanLines(SplitLines(s))
  {
    hide Split;
    hide CleanLine;
    hide IsBreak;
    hide IsSpace;
    hide Neat;
    hide Cut;
    LineFeedIsSpace();
    var k := Cut(s);
    if k == |s| {
      SplitWhole(s, '\n');
      WholeLineClean(s);
    } else {
      var line, rest := s[..k], s[k + 1..];
      NeatCut(s);
      LineBefore(s);
      assert s == line + ['\n'] + rest;
      NeatSplits(rest);
      SplitWhole(line, '\n');
      SplitAt(line, '\n', rest);
      FirstLineEmpty(rest);
      OneMoreCleanLine(line, SplitLines(rest));
    }
  }

  lemma OneMoreCleanLine(line: string, lines: seq<string>)
    requires CleanLine(line) && CleanLines(lines) && (lines != [] && lines[0] == "" ==> line != "")
    ensures CleanLines([line] + lines)
  {
    hide CleanLine;
  }

  lemma WholeLineClean(s: string)
    requires Cut(s) == |s| && (s == "" || !IsSpace(s[|s| - 1]))
    ensures CleanLine(s) && '\n' !in s
  {
  }

  /** What is right of the first line break of a neat text. */
  lemma NeatCut(s: string)
    requires Neat(s) && s != "" && !IsSpace(s[|s| - 1]) && Cut(s) < |s|
    ensures var k := Cut(s);
      && s[k] == '\n' && BreakLength(s, k) == 1 && k + 1 < |s|
      && Neat(s[k + 1..])
      && !(|s| > k + 2 && s[k + 1] == '\n' && s[k + 2] == '\n')
  {
    hide IsBreak;
    hide IsSpace;
    hide Cut;
    LineFeedIsSpace();
    var k := Cut(s);
    assert s[k] == '\n' && k + 1 < |s|;
    NeatPart(s, k + 1, |s|);
    assert s[k + 1..|s|] == s[k + 1..];
    assert k + 2 < |s| && s[k + 1] == '\n' ==> s[(k + 2) - 2] == '\n';
  }

  /** What is left of it. */
  lemma LineBefore(s: string)
    requires Neat(s) && Cut(s) < |s|
    ensures CleanLine(s[..Cut(s)]) && '\n' !in s[..Cut(s)]
  {
    hide IsBreak;
    hide IsSpace;
    hide Cut;
    LineFeedIsSpace();
    var k := Cut(s);
    assert s[k] == '\n';
    assert k > 0 ==> !IsSpace(s[k - 1]);
  }

  lemma FirstLineEmpty(s: string)
    requires s != "" && Neat(s)
    ensures SplitLines(s) != [] && (SplitLines(s)[0] == "" ==> s[0] == '\n')
  {
    hide IsBreak;
  }

  lemma {:induction false} CleanStays(lines: seq<string>)
    requires CleanLines(lines)
    ensures Tidied(lines) == lines
  {
    hide CleanLine;
    hide RStrip;
    hide Blank;
    if lines != [] {
      var n := |lines|;
      CleanStays(lines[..n - 1]);
      CleanIsRStripped(lines[n - 1]);
      assert lines[n - 1] == "" && n > 1 ==> lines[n - 2] != "";
      if n > 1 {
        CleanIsRStripped(lines[n - 2]);
      }
      assert lines == lines[..n - 1] + [lines[n - 1]];
    }
  }

  /** The texts left as they are: exactly the tidy ones. */
  lemma FixedPoints(text: string)
    ensures Normalized(text) == text <==> Tidy(text)
  {
    NormalizedIsTidy(text);
    if Tidy(text) {
      TidyStays(text);
    }
  }

  lemma TidyStays(text: string)
    requires Tidy(text)
    ensures Normalized(text) == text
  {
    hide Tidied;
    hide Split;
    hide Neat;
    hide IsSpace;
    if text != "" {
      LineFeedIsSpace();
      NeatSplits(text);
      CleanStays(SplitLines(text));
      JoinSplit(text, '\n');
      assert Trailing(text) == |text| && Leading(text) == 0;
      assert text[0..|text|] == text;
    } else {
      NothingTidied();
    }
  }

  lemma LineFeedIsSpace()
    ensures IsSpace('\n') && IsBreak('\n')
  {
  }

  lemma NothingTidied()
    ensures Tidied([]) == []
  {
  }

  /** Cleaning up a second time changes nothing. */
  lemma Idempotent(text: string)
    ensures Normalized(Normalized(text)) == Normalized(text)
  {
    NormalizedIsTidy(text);
    FixedPoints(Normalized(text));
  }
}
