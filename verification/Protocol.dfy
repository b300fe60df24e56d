/** The store's framing: header lines, a blank line, then exactly content-length bytes (axiom-store/protocol.py). */
module Protocol {
  import opened Wrappers
  import opened Text
  import opened Utf8

  const VERBS: set<string> := {"READ", "WRITE", "LIST", "DELETE"}
  const STATUSES: set<string> := {"OK", "NOT_FOUND", "SCHEMA_ERROR", "BAD_REQUEST", "SERVER_ERROR"}

  const HEADER_END: bytes := [NEWLINE, NEWLINE]
  const MAX_HEADER_BYTES := 8192
  const MAX_BODY_BYTES := 10_485_760

  datatype Request = Request(verb: string, path: string, body: bytes)
  datatype Response = Response(status: string, body: bytes)
  datatype RequestStub = RequestStub(verb: string, path: string, contentLength: nat)
  datatype ResponseStub = ResponseStub(status: string, contentLength: nat)

  datatype ProtocolError =
    | NotUtf8 | NoFirstLine | BlankLine | NoColon | NotLowercase | DuplicateHeader
    | NoLength | LengthNotInteger | LengthNegative | LengthTooLarge
    | NoPath | UnknownVerb | UnknownStatus
    | HeaderTooLong | SurplusBytes

  // ----- header blocks -----------------------------------------------------------------------------

  /** The index of the first `c`; the length when there is none. */
  function IndexOf(s: string, c: char): (i: nat)
    ensures i <= |s| && c !in s[..i] && (i < |s| ==> s[i] == c)
  {
    if s == "" || s[0] == c then 0
    else
      assert forall k :: 1 <= k <= |s| ==> s[..k] == [s[0]] + s[1..][..k - 1];
      1 + IndexOf(s[1..], c)
  }

  /** `value.lstrip(" ")`. */
  function DropSpaces(s: string): string {
    if s != "" && s[0] == ' ' then DropSpaces(s[1..]) else s
  }

  /** `name == name.lower()`, for ASCII letters. */
  predicate Lowercase(name: string) {
    forall i :: 0 <= i < |name| ==> !('A' <= name[i] <= 'Z')
  }

  function AddHeader(headers: map<string, string>, line: string): Result<map<string, string>, ProtocolError> {
    if line == "" then Err(BlankLine)
    else
      var colon := IndexOf(line, ':');
      if colon == |line| then Err(NoColon)
      else
        var name := line[..colon];
        if !Lowercase(name) then Err(NotLowercase)
        else if name in headers then Err(DuplicateHeader)
        else Ok(headers[name := DropSpaces(line[colon + 1..])])
  }

  /** The headers after the first `n` lines, or the first error met. */
  function AddHeaders(lines: seq<string>, n: nat): Result<map<string, string>, ProtocolError>
    requires n <= |lines|
  {
    if n == 0 then Ok(map[])
    else
      match AddHeaders(lines, n - 1)
      case Err(e) => Err(e)
      case Ok(headers) => AddHeader(headers, lines[n - 1])
  }

  function SplitHeaders(block: bytes): Result<(string, map<string, string>), ProtocolError> {
    match Decode(block)
    case None => Err(NotUtf8)
    case Some(text) =>
      var lines := Split(text, '\n');
      if lines[0] == "" then Err(NoFirstLine)
      else
        match AddHeaders(lines[1..], |lines| - 1)
        case Err(e) => Err(e)
        case Ok(headers) => Ok((lines[0], headers))
  }

  method SplitHeaderBlock(block: bytes) returns (r: Result<(string, map<string, string>), ProtocolError>)
    ensures r == SplitHeaders(block)
  {
    var text := Decode(block);
    if text.None? {
      return Err(NotUtf8);
    }
    var lines := Split(text.value, '\n');
    if lines[0] == "" {
      return Err(NoFirstLine);
    }
    var rest := lines[1..];
    var headers: map<string, string> := map[];
    for i := 0 to |rest|
      invariant AddHeaders(rest, i) == Ok(headers)
    {
      var next := AddHeader(headers, rest[i]);
      if next.Err? {
        ErrorStays(rest, i + 1, |rest|);
        return Err(next.error);
      }
      headers := next.value;
    }
    r := Ok((lines[0], headers));
  }

  lemma {:induction false} ErrorStays(lines: seq<string>, i: nat, n: nat)
    requires i <= n <= |lines| && AddHeaders(lines, i).Err?
    ensures AddHeaders(lines, n) == AddHeaders(lines, i)
  {
    if i < n {
      ErrorStays(lines, i, n - 1);
    }
  }

  // ----- content-length ----------------------------------------------------------------------------

  /** Digits with single underscores between them, as `int()` takes them. */
  predicate IntDigits(s: string) {
    && s != "" && IsDigit(s[0]) && IsDigit(s[|s| - 1])
    && (forall i :: 0 <= i < |s| ==> IsDigit(s[i]) || s[i] == '_')
    && (forall i :: 0 <= i < |s| ==> Between(s, i))
  }

  predicate Between(s: string, i: nat)
    requires i < |s|
  {
    s[i] == '_' ==> i > 0 && s[i - 1] != '_'
  }

  function DropUnderscores(s: string): (r: string)
    requires forall i :: 0 <= i < |s| ==> IsDigit(s[i]) || s[i] == '_'
    ensures AllDigits(r)
  {
    if s == "" then ""
    else
      var init := DropUnderscores(s[..|s| - 1]);
      if s[|s| - 1] == '_' then init else init + [s[|s| - 1]]
  }

  function ParseDigits(s: string): Option<nat> {
    if IntDigits(s) then Some(Num(DropUnderscores(s))) else None
  }

  /** `int(raw)` on ASCII text; `None` is its `ValueError`. */
  function ParseInt(raw: string): Option<int> {
    var t := Strip(raw);
    if t != "" && (t[0] == '-' || t[0] == '+') then
      match ParseDigits(t[1..])
      case None => None
      case Some(n) => Some(if t[0] == '-' then 0 - (n as int) else n as int)
    else
      match ParseDigits(t)
      case None => None
      case Some(n) => Some(n as int)
  }

  function ContentLength(headers: map<string, string>): (r: Result<nat, ProtocolError>)
    ensures r.Ok? ==> r.value <= MAX_BODY_BYTES
  {
    if "content-length" !in headers then Err(NoLength)
    else
      match ParseInt(headers["content-length"])
      case None => Err(LengthNotInteger)
      case Some(n) =>
        if n < 0 then Err(LengthNegative)
        else if n > MAX_BODY_BYTES then Err(LengthTooLarge)
        else Ok(n)
  }

  // ----- requests and responses --------------------------------------------------------------------

  function ParseRequestHeaders(block: bytes): (r: Result<RequestStub, ProtocolError>)
    ensures r.Ok? ==> r.value.verb in VERBS && r.value.path != "" && r.value.contentLength <= MAX_BODY_BYTES
  {
    match SplitHeaders(block)
    case Err(e) => Err(e)
    case Ok((line, headers)) =>
      var space := IndexOf(line, ' ');
      if space == |line| then Err(NoPath)
      else
        var verb, path := line[..space], line[space + 1..];
        if verb !in VERBS then Err(UnknownVerb)
        else if path == "" then Err(NoPath)
        else
          match ContentLength(headers)
          case Err(e) => Err(e)
          case Ok(n) => Ok(RequestStub(verb, path, n))
  }

  function ParseResponseHeaders(block: bytes): (r: Result<ResponseStub, ProtocolError>)
    ensures r.Ok? ==> r.value.status in STATUSES && r.value.contentLength <= MAX_BODY_BYTES
  {
    match SplitHeaders(block)
    case Err(e) => Err(e)
    case Ok((line, headers)) =>
      if Strip(line) !in STATUSES then Err(UnknownStatus)
      else
        match ContentLength(headers)
        case Err(e) => Err(e)
        case Ok(n) => Ok(ResponseStub(Strip(line), n))
  }

  /** The header text before the blank line. */
  function HeaderText(firstLine: string, length: nat): string {
    firstLine + "\ncontent-length: " + Decimal(length)
  }

  function RequestLine(r: Request): string {
    r.verb + " " + r.path
  }

  function Frame(firstLine: string, body: bytes): bytes {
    Encode(HeaderText(firstLine, |body|) + "\n\n") + body
  }

  function FormatRequest(r: Request): Result<bytes, ProtocolError> {
    if r.verb !in VERBS then Err(UnknownVerb)
    else if r.path == "" then Err(NoPath)
    else Ok(Frame(RequestLine(r), r.body))
  }

  function FormatResponse(r: Response): Result<bytes, ProtocolError> {
    if r.status !in STATUSES then Err(UnknownStatus) else Ok(Frame(r.status, r.body))
  }

  // ----- what a formatted message parses to ----------------------------------------------------------

  lemma {:induction false} NoUnderscores(s: string)
    requires AllDigits(s)
    ensures DropUnderscores(s) == s
  {
    if s != "" {
      NoUnderscores(s[..|s| - 1]);
      assert s == s[..|s| - 1] + [s[|s| - 1]];
    }
  }

  lemma StripSolid(s: string)
    requires s != "" && !IsSpace(s[0]) && !IsSpace(s[|s| - 1])
    ensures Strip(s) == s
  {
    var i, j :| 0 <= i <= j <= |s| && Strip(s) == s[i..j] && Blank(s[..i]) && Blank(s[j..]);
    if i > 0 {
      assert s[..i][0] == s[0];
    }
    if j < |s| {
      assert s[j..][|s| - 1 - j] == s[|s| - 1];
    }
  }

  lemma PlainDigits(s: string)
    requires s != "" && AllDigits(s)
    ensures IntDigits(s)
  {
  }

  lemma ParseDigitsDecimal(n: nat)
    ensures ParseDigits(Decimal(n)) == Some(n)
  {
    hide IntDigits;
    hide Decimal;
    PlainDigits(Decimal(n));
    NoUnderscores(Decimal(n));
    NumDecimal(n);
  }

  lemma ParseDecimal(n: nat)
    ensures ParseInt(Decimal(n)) == Some(n)
  {
    var s := Decimal(n);
    assert IsDigit(s[0]) && IsDigit(s[|s| - 1]);
    StripSolid(s);
    ParseDigitsDecimal(n);
    assert s[0] != '-' && s[0] != '+';
    hide *;
  }

  lemma {:induction false} IndexOfAt(a: string, c: char, b: string)
    requires c !in a
    ensures IndexOf(a + [c] + b, c) == |a|
  {
    if a != "" {
      assert (a + [c] + b)[1..] == a[1..] + [c] + b;
      IndexOfAt(a[1..], c, b);
    }
  }

  /** A well-formed header line gives its name and value. */
  lemma HeaderLine(headers: map<string, string>, name: string, value: string)
    requires name !in headers && ':' !in name && Lowercase(name) && value != "" && value[0] != ' '
    ensures AddHeader(headers, name + ": " + value) == Ok(headers[name := value])
  {
    hide IndexOf;
    hide Lowercase;
    var line := name + ": " + value;
    assert line == name + [':'] + (" " + value);
    IndexOfAt(name, ':', " " + value);
    assert line[..|name|] == name && line[|name| + 1..] == " " + value;
    assert (" " + value)[1..] == value;
    assert DropSpaces(" " + value) == DropSpaces(value) == value;
  }

  lemma LengthLine(n: nat)
    ensures AddHeader(map[], "content-length: " + Decimal(n)) == Ok(map["content-length" := Decimal(n)])
  {
    var d := Decimal(n);
    assert IsDigit(d[0]);
    hide AddHeader;
    hide Decimal;
    assert "content-length: " + d == "content-length" + ": " + d;
    HeaderLine(map[], "content-length", d);
  }

  /** A one-line header and its length come back from the block that spells them. */
  lemma HeaderParses(firstLine: string, n: nat)
    requires firstLine != "" && '\n' !in firstLine
    ensures SplitHeaders(Encode(HeaderText(firstLine, n))) == Ok((firstLine, map["content-length" := Decimal(n)]))
  {
    var line := "content-length: " + Decimal(n);
    DecodeEncode(HeaderText(firstLine, n));
    HeaderLines(firstLine, n);
    LengthLine(n);
    hide AddHeader;
    hide Encode;
    hide Decode;
    hide Split;
    hide HeaderText;
    hide Decimal;
    var lines := Split(HeaderText(firstLine, n), '\n');
    assert lines[0] == firstLine && lines[1..] == [line];
    assert AddHeaders([line], 0) == Ok(map[]);
    assert AddHeaders([line], 1) == AddHeader(map[], line);
  }

  lemma HeaderLines(firstLine: string, n: nat)
    requires '\n' !in firstLine
    ensures Split(HeaderText(firstLine, n), '\n') == [firstLine, "content-length: " + Decimal(n)]
  {
    var line := "content-length: " + Decimal(n);
    assert HeaderText(firstLine, n) == firstLine + ['\n'] + line;
    LengthLineHasNoNewline(n);
    SplitAt(firstLine, '\n', line);
    SplitWhole(firstLine, '\n');
    SplitWhole(line, '\n');
  }

  lemma LengthLineHasNoNewline(n: nat)
    ensures '\n' !in "content-length: " + Decimal(n)
  {
    var d := Decimal(n);
    forall i | 0 <= i < |d| ensures d[i] != '\n' {
      assert IsDigit(d[i]);
    }
  }

  lemma LengthParses(n: nat)
    ensures ContentLength(map["content-length" := Decimal(n)])
      == if n <= MAX_BODY_BYTES then Ok(n) else Err(LengthTooLarge)
  {
    ParseDecimal(n);
  }

  function HeaderBlock(firstLine: string, n: nat): bytes {
    Encode(HeaderText(firstLine, n))
  }

  /** A message the framing can carry: a path, with no newline in it, and a body within the cap. */
  predicate Framable(r: Request) {
    r.verb in VERBS && r.path != "" && '\n' !in r.path && |r.body| <= MAX_BODY_BYTES
  }

  lemma VerbsPlain(verb: string)
    requires verb in VERBS
    ensures verb != "" && '\n' !in verb && ' ' !in verb
  {
  }

  /** The header block of a one-line request parses to verb, path and length, or is refused for its length alone. */
  lemma ParseFormattedRequest(r: Request)
    requires r.verb in VERBS && r.path != "" && '\n' !in r.path
    ensures ParseRequestHeaders(HeaderBlock(RequestLine(r), |r.body|))
         == if |r.body| <= MAX_BODY_BYTES then Ok(RequestStub(r.verb, r.path, |r.body|)) else Err(LengthTooLarge)
  {
    VerbsPlain(r.verb);
    var line := RequestLine(r);
    assert line == r.verb + [' '] + r.path;
    assert '\n' !in line;
    HeaderParses(line, |r.body|);
    IndexOfAt(r.verb, ' ', r.path);
    assert line[..|r.verb|] == r.verb && line[|r.verb| + 1..] == r.path;
    LengthParses(|r.body|);
  }

  lemma StatusesPlain(status: string)
    requires status in STATUSES
    ensures status != "" && '\n' !in status && !IsSpace(status[0]) && !IsSpace(status[|status| - 1])
  {
  }

  /** A formatted response's header parses to its status and length, or is refused for its length alone. */
  lemma ParseFormattedResponse(r: Response)
    requires r.status in STATUSES
    ensures ParseResponseHeaders(HeaderBlock(r.status, |r.body|))
         == if |r.body| <= MAX_BODY_BYTES then Ok(ResponseStub(r.status, |r.body|)) else Err(LengthTooLarge)
  {
    StatusesPlain(r.status);
    HeaderParses(r.status, |r.body|);
    StripSolid(r.status);
    LengthParses(|r.body|);
  }

  /** The text of a path up to its first newline. */
  function FirstLine(path: string): string {
    path[..IndexOf(path, '\n')]
  }

  /** The first line of a text is its text up to the first newline. */
  lemma SplitFirst(text: string)
    ensures Split(text, '\n')[0] == FirstLine(text)
  {
    var k := IndexOf(text, '\n');
    SplitWhole(text[..k], '\n');
    if k < |text| {
      assert text == text[..k] + ['\n'] + text[k + 1..];
      SplitAt(text[..k], '\n', text[k + 1..]);
    } else {
      assert text[..k] == text;
    }
  }

  /** A header block that opens with a one-line request names that verb and path if it parses at all. */
  lemma ParsedFirstLine(block: bytes, verb: string, path: string)
    requires verb in VERBS && '\n' !in path
    requires Encode(verb + " " + path) <= block
    requires var n := |Encode(verb + " " + path)|; n < |block| ==> block[n] == NEWLINE
    ensures ParseRequestHeaders(block).Ok? ==>
      ParseRequestHeaders(block).value.verb == verb && ParseRequestHeaders(block).value.path == path
  {
    hide SplitHeaders;
    hide Encode;
    hide Decode;
    hide FirstLine;
    hide ContentLength;
    if ParseRequestHeaders(block).Ok? {
      var line := verb + " " + path;
      VerbsPlain(verb);
      HeadersFirst(block);
      FirstLineBytes(block, Decode(block).value, line);
      assert line == verb + [' '] + path;
      IndexOfAt(verb, ' ', path);
      assert line[..|verb|] == verb && line[|verb| + 1..] == path;
    }
  }

  lemma HeadersFirst(block: bytes)
    ensures SplitHeaders(block).Ok? ==>
      Decode(block).Some? && SplitHeaders(block).value.0 == FirstLine(Decode(block).value)
  {
    hide AddHeaders;
    hide Decode;
    hide FirstLine;
    if Decode(block).Some? {
      SplitFirst(Decode(block).value);
    }
  }

  /** Bytes that open with a line spell a text that opens with that line. */
  lemma FirstLineBytes(block: bytes, text: string, line: string)
    requires Decode(block) == Some(text) && '\n' !in line
    requires Encode(line) <= block && (|Encode(line)| < |block| ==> block[|Encode(line)|] == NEWLINE)
    ensures FirstLine(text) == line
  {
    hide Encode;
    hide Decode;
    hide IndexOf;
    var first := FirstLine(text);
    EncodeDecode(block);
    EncodeNewline(first);
    EncodeNewline(line);
    if |first| < |text| {
      EncodeLines(first, text[|first| + 1..]);
      assert text == first + ['\n'] + text[|first| + 1..];
    } else {
      assert first == text;
    }
    assert Encode(first) <= block && (|Encode(first)| < |block| ==> block[|Encode(first)|] == NEWLINE);
    SameFirstLine(Encode(first), Encode(line), block);
    DecodeEncode(first);
    DecodeEncode(line);
  }

  lemma SameFirstLine(a: bytes, b: bytes, block: bytes)
    requires a <= block && (|a| < |block| ==> block[|a|] == NEWLINE) && NEWLINE !in a
    requires b <= block && (|b| < |block| ==> block[|b|] == NEWLINE) && NEWLINE !in b
    ensures a == b
  {
    assert forall i :: 0 <= i < |a| ==> block[i] == a[i] != NEWLINE;
    assert forall i :: 0 <= i < |b| ==> block[i] == b[i] != NEWLINE;
  }

  /** A parsed path never has a newline, so a path with one cannot survive the wire. */
  lemma ParsedPathIsOneLine(block: bytes)
    requires ParseRequestHeaders(block).Ok?
    ensures '\n' !in ParseRequestHeaders(block).value.path
  {
    var text := Decode(block).value;
    JoinSplit(text, '\n');
    var line := Split(text, '\n')[0];
    assert line in Split(text, '\n');
  }

  // ----- finding the blank line ------------------------------------------------------------------------

  predicate MatchAt(buf: bytes, term: bytes, i: nat) {
    i + |term| <= |buf| && buf[i..i + |term|] == term
  }

  /** `buf.find(term)`. */
  function Find(buf: bytes, term: bytes): (r: Option<nat>)
    ensures r.Some? ==> MatchAt(buf, term, r.value) && forall i :: 0 <= i < r.value ==> !MatchAt(buf, term, i)
    ensures r.None? ==> forall i :: 0 <= i <= |buf| ==> !MatchAt(buf, term, i)
  {
    FindFrom(buf, term, 0)
  }

  function FindFrom(buf: bytes, term: bytes, from: nat): (r: Option<nat>)
    requires from <= |buf|
    ensures r.Some? ==> from <= r.value && MatchAt(buf, term, r.value)
    ensures r.Some? ==> forall i :: from <= i < r.value ==> !MatchAt(buf, term, i)
    ensures r.None? ==> forall i :: from <= i <= |buf| ==> !MatchAt(buf, term, i)
    decreases |buf| - from
  {
    if MatchAt(buf, term, from) then Some(from)
    else if from == |buf| then None
    else FindFrom(buf, term, from + 1)
  }

  /** What has arrived so far shows the first match of the whole stream, or no match that fits in it. */
  lemma FindInPrefix(buf: bytes, rest: bytes, term: bytes)
    ensures Find(buf, term).Some? ==> Find(buf + rest, term) == Find(buf, term)
    ensures Find(buf, term).None? && Find(buf + rest, term).Some? ==> Find(buf + rest, term).value + |term| > |buf|
  {
    forall i | 0 <= i <= |buf| - |term| ensures MatchAt(buf, term, i) <==> MatchAt(buf + rest, term, i) {
      assert (buf + rest)[i..i + |term|] == buf[i..i + |term|];
    }
  }

  /** In a framed message the first blank line is the one that ends the header, whatever the body holds. */
  lemma HeaderEndsFirst(firstLine: string, body: bytes)
    requires '\n' !in firstLine
    ensures var block := HeaderBlock(firstLine, |body|);
      Frame(firstLine, body) == block + HEADER_END + body && Find(Frame(firstLine, body), HEADER_END) == Some(|block|)
  {
    var line := "content-length: " + Decimal(|body|);
    LengthLineHasNoNewline(|body|);
    EncodeNewline(firstLine);
    EncodeNewline(line);
    BlockBytes(firstLine, |body|);
    EncodeAppend(HeaderText(firstLine, |body|), "\n\n");
    BlankLineBytes();
    assert line != "";
    NoBlankLineBefore(Encode(firstLine), Encode(line), body);
  }

  lemma BlankLineBytes()
    ensures Encode("\n\n") == HEADER_END
  {
    assert "\n\n"[1..] == "\n" && "\n"[1..] == "";
  }

  lemma EncodeLines(a: string, b: string)
    ensures Encode(a + ['\n'] + b) == Encode(a) + [NEWLINE] + Encode(b)
  {
    assert a + ['\n'] + b == a + (['\n'] + b);
    EncodeAppend(a, ['\n'] + b);
    EncodeCons('\n', b);
  }

  lemma BlockBytes(firstLine: string, n: nat)
    ensures HeaderBlock(firstLine, n) == Encode(firstLine) + [NEWLINE] + Encode("content-length: " + Decimal(n))
  {
    hide Encode;
    hide Decimal;
    var line := "content-length: " + Decimal(n);
    assert HeaderText(firstLine, n) == firstLine + ['\n'] + line;
    EncodeLines(firstLine, line);
  }

  lemma NoBlankLineBefore(a: bytes, b: bytes, body: bytes)
    requires NEWLINE !in a && NEWLINE !in b && b != []
    ensures Find(a + [NEWLINE] + b + HEADER_END + body, HEADER_END) == Some(|a| + 1 + |b|)
  {
    var s := a + [NEWLINE] + b + HEADER_END + body;
    var n := |a| + 1 + |b|;
    assert s[n..n + 2] == HEADER_END;
    assert MatchAt(s, HEADER_END, n);
    forall i | 0 <= i < n ensures !MatchAt(s, HEADER_END, i) {
      if i == |a| {
        assert s[i + 1] == b[0] && s[i..i + 2][1] == s[i + 1];
      } else {
        assert s[i] == if i < |a| then a[i] else b[i - |a| - 1];
        assert s[i..i + 2][0] == s[i];
      }
    }
  }

  // ----- a path of two lines ---------------------------------------------------------------------------

  const EXTRA := "x: y"

  lemma ExtraLine()
    ensures AddHeader(map[], EXTRA) == Ok(map["x" := "y"])
    ensures EXTRA != "" && '\n' !in EXTRA
  {
    assert EXTRA == "x" + ": " + "y";
    HeaderLine(map[], "x", "y");
  }

  lemma LengthLineAfter(n: nat)
    ensures AddHeader(map["x" := "y"], "content-length: " + Decimal(n))
      == Ok(map["x" := "y", "content-length" := Decimal(n)])
  {
    var d := Decimal(n);
    assert IsDigit(d[0]);
    hide AddHeader;
    hide Decimal;
    assert "content-length" != "x";
    assert "content-length: " + d == "content-length" + ": " + d;
    HeaderLine(map["x" := "y"], "content-length", d);
  }

  lemma TwoLineSplits(first: string, n: nat)
    requires '\n' !in first
    ensures Split(HeaderText(first + "\n" + EXTRA, n), '\n') == [first, EXTRA, "content-length: " + Decimal(n)]
  {
    hide Decimal;
    hide Split;
    var last := "content-length: " + Decimal(n);
    ExtraLine();
    LengthLineHasNoNewline(n);
    assert HeaderText(first + "\n" + EXTRA, n) == first + ['\n'] + (EXTRA + ['\n'] + last);
    SplitAt(first, '\n', EXTRA + ['\n'] + last);
    SplitAt(EXTRA, '\n', last);
    SplitWhole(first, '\n');
    SplitWhole(EXTRA, '\n');
    SplitWhole(last, '\n');
  }

  lemma TwoLineHeaders(first: string, n: nat)
    requires first != "" && '\n' !in first
    ensures SplitHeaders(HeaderBlock(first + "\n" + EXTRA, n))
      == Ok((first, map["x" := "y", "content-length" := Decimal(n)]))
  {
    hide Encode;
    hide Decode;
    hide Split;
    hide HeaderText;
    hide Decimal;
    hide AddHeader;
    var lines := [EXTRA, "content-length: " + Decimal(n)];
    TwoLineSplits(first, n);
    ExtraLine();
    LengthLineAfter(n);
    DecodeEncode(HeaderText(first + "\n" + EXTRA, n));
    assert [first, EXTRA, "content-length: " + Decimal(n)][1..] == lines;
    assert AddHeaders(lines, 0) == Ok(map[]);
    assert AddHeaders(lines, 1) == Ok(map["x" := "y"]);
    assert AddHeaders(lines, 2) == AddHeader(map["x" := "y"], lines[1]);
  }

  /** A second line that reads as a header is taken for one, and the request goes to the first line alone. */
  lemma TwoLineParses(verb: string, path: string, n: nat)
    requires verb in VERBS && path != "" && '\n' !in path && n <= MAX_BODY_BYTES
    ensures ParseRequestHeaders(HeaderBlock(verb + " " + (path + "\n" + EXTRA), n)) == Ok(RequestStub(verb, path, n))
  {
    hide SplitHeaders;
    hide HeaderBlock;
    hide ParseInt;
    hide Decimal;
    var first := verb + " " + path;
    VerbsPlain(verb);
    assert verb + " " + (path + "\n" + EXTRA) == first + "\n" + EXTRA;
    TwoLineHeaders(first, n);
    ParseDecimal(n);
    assert first == verb + [' '] + path;
    IndexOfAt(verb, ' ', path);
    assert first[..|verb|] == verb && first[|verb| + 1..] == path;
  }

  lemma TwoLineBlock(first: string, n: nat)
    ensures HeaderBlock(first + "\n" + EXTRA, n)
         == Encode(first) + [NEWLINE] + Encode(EXTRA) + [NEWLINE] + Encode("content-length: " + Decimal(n))
  {
    hide Encode;
    hide Decimal;
    var last := "content-length: " + Decimal(n);
    assert HeaderText(first + "\n" + EXTRA, n) == first + ['\n'] + (EXTRA + ['\n'] + last);
    EncodeLines(first, EXTRA + ['\n'] + last);
    EncodeLines(EXTRA, last);
    var a, b, c := Encode(first), Encode(EXTRA), Encode(last);
    assert a + [NEWLINE] + (b + [NEWLINE] + c) == a + [NEWLINE] + b + [NEWLINE] + c;
  }

  lemma FrameParts(firstLine: string, body: bytes)
    ensures Frame(firstLine, body) == HeaderBlock(firstLine, |body|) + HEADER_END + body
  {
    hide Encode;
    EncodeAppend(HeaderText(firstLine, |body|), "\n\n");
    BlankLineBytes();
  }

  lemma TwoLineEnds(verb: string, path: string, body: bytes)
    requires verb in VERBS && '\n' !in path
    ensures var line := verb + " " + (path + "\n" + EXTRA);
      && Frame(line, body) == HeaderBlock(line, |body|) + HEADER_END + body
      && Find(Frame(line, body), HEADER_END) == Some(|HeaderBlock(line, |body|)|)
  {
    hide Encode;
    hide Decimal;
    hide Find;
    hide Frame;
    hide HeaderBlock;
    hide AddHeader;
    var first, last := verb + " " + path, "content-length: " + Decimal(|body|);
    VerbsPlain(verb);
    assert '\n' !in first;
    assert verb + " " + (path + "\n" + EXTRA) == first + "\n" + EXTRA;
    ExtraLine();
    LengthLineHasNoNewline(|body|);
    EncodeNewline(first);
    EncodeNewline(EXTRA);
    EncodeNewline(last);
    EncodeNotEmpty(EXTRA);
    EncodeNotEmpty(last);
    FrameParts(first + "\n" + EXTRA, body);
    TwoLineBlock(first, |body|);
    NoBlankLineInThree(Encode(first), Encode(EXTRA), Encode(last), body);
  }

  lemma EncodeNotEmpty(s: string)
    requires s != ""
    ensures Encode(s) != []
  {
  }

  lemma NoBlankLineInThree(a: bytes, b: bytes, c: bytes, body: bytes)
    requires NEWLINE !in a && NEWLINE !in b && NEWLINE !in c && b != [] && c != []
    ensures var block := a + [NEWLINE] + b + [NEWLINE] + c; Find(block + HEADER_END + body, HEADER_END) == Some(|block|)
  {
    var block := a + [NEWLINE] + b + [NEWLINE] + c;
    var s := block + HEADER_END + body;
    var n := |block|;
    assert s[n..n + 2] == HEADER_END;
    assert MatchAt(s, HEADER_END, n);
    assert forall i :: 0 <= i < n ==> s[i] == block[i];
    forall i | 0 <= i < n ensures !MatchAt(s, HEADER_END, i) {
      assert s[i..i + 2][0] == s[i] && s[i..i + 2][1] == s[i + 1];
      if i == |a| {
        assert block[i + 1] == b[0];
      } else if i == |a| + 1 + |b| {
        assert block[i + 1] == c[0];
      } else {
        assert block[i] == if i < |a| then a[i] else if i < |a| + 1 + |b| then b[i - |a| - 1] else c[i - |a| - |b| - 2];
      }
    }
  }
}
