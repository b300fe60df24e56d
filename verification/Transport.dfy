/**
 Reading framed messages from a byte stream that arrives in arbitrary pieces: the server's readers
 (axiom-store/server.py) and the client's (axiom-store/client.py).
 */
module Transport {
  import opened Wrappers
  import opened Text
  import opened Utf8
  import opened Protocol

  /** One end of a connection: `incoming` is all the peer sends before it closes, `sent` what we sent. */
  class Socket {
    var incoming: bytes
    var sent: bytes

    constructor (incoming: bytes)
      ensures this.incoming == incoming && this.sent == []
    {
      this.incoming, this.sent := incoming, [];
    }

    /** Any non-empty prefix of what is left, up to `limit` bytes; empty only at the end of the stream. */
    method Recv(limit: nat) returns (chunk: bytes)
      requires limit > 0
      modifies this`incoming
      ensures |chunk| <= limit && old(incoming) == chunk + incoming
      ensures chunk == [] <==> old(incoming) == []
    {
      var k: nat :| k <= limit && k <= |incoming| && (incoming != [] ==> k > 0);
      chunk, incoming := incoming[..k], incoming[k..];
    }

    method SendAll(data: bytes)
      modifies this`sent
      ensures sent == old(sent) + data
    {
      sent := sent + data;
    }
  }

  datatype RecvError = ConnectionClosed | Violation(e: ProtocolError)

  const RECV_SIZE := 4096

  lemma Regroup(a: bytes, b: bytes, c: bytes)
    ensures a + (b + c) == (a + b) + c
  {
  }

  /**
   The terminator is found where it first occurs in the stream, and always found when it lies within the
   first `maxBytes`; the stream ending first or the limit coming first are told apart.
   */
  method RecvUntil(sock: Socket, term: bytes, maxBytes: nat) returns (r: Result<(bytes, bytes), RecvError>)
    requires term != []
    modifies sock`incoming
    ensures r.Ok? ==>
      var (before, after) := r.value;
      && |before| <= maxBytes
      && Find(old(sock.incoming), term) == Some(|before|) && old(sock.incoming) == before + term + after + sock.incoming
    ensures r.Err? ==> r.error == ConnectionClosed || r.error == Violation(HeaderTooLong)
    ensures r == Err(ConnectionClosed) ==>
      Find(old(sock.incoming), term) == None && |old(sock.incoming)| < maxBytes && sock.incoming == []
    ensures r == Err(Violation(HeaderTooLong)) ==>
      var found := Find(old(sock.incoming), term);
      |old(sock.incoming)| >= maxBytes && (found.Some? ==> found.value + |term| > maxBytes)
  {
    hide Find;
    ghost var stream := sock.incoming;
    var buf: bytes := [];
    while true
      invariant stream == buf + sock.incoming && |buf| <= maxBytes + |term|
      decreases |sock.incoming|
    {
      FindInPrefix(buf, sock.incoming, term);
      var idx := Find(buf, term);
      if idx.Some? {
        var before, after := buf[..idx.value], buf[idx.value + |term|..];
        assert buf == before + term + after;
        return Ok((before, after));
      }
      if |buf| >= maxBytes {
        return Err(Violation(HeaderTooLong));
      }
      var chunk := sock.Recv(Min(RECV_SIZE, maxBytes - |buf| + |term|));
      if chunk == [] {
        assert stream == buf;
        return Err(ConnectionClosed);
      }
      Regroup(buf, chunk, sock.incoming);
      buf := buf + chunk;
    }
  }

  /** Exactly `n` bytes, `initial` first; surplus bytes are a framing error and a short stream a closed one. */
  method RecvExact(sock: Socket, n: nat, initial: bytes) returns (r: Result<bytes, RecvError>)
    modifies sock`incoming
    ensures r.Ok? ==> |r.value| == n && initial + old(sock.incoming) == r.value + sock.incoming
    ensures r.Err? ==> r.error == ConnectionClosed || r.error == Violation(SurplusBytes)
    ensures r == Err(Violation(SurplusBytes)) <==> |initial| > n
    ensures r == Err(ConnectionClosed) <==> |initial| <= n && |initial + old(sock.incoming)| < n
  {
    if n == 0 {
      if initial != [] {
        return Err(Violation(SurplusBytes));
      }
      return Ok([]);
    }
    if |initial| >= n {
      if |initial| > n {
        return Err(Violation(SurplusBytes));
      }
      return Ok(initial);
    }
    ghost var all := initial + sock.incoming;
    var buf := initial;
    while |buf| < n
      invariant all == buf + sock.incoming && |buf| <= n
      decreases n - |buf|
    {
      var chunk := sock.Recv(Min(RECV_SIZE, n - |buf|));
      if chunk == [] {
        return Err(ConnectionClosed);
      }
      Regroup(buf, chunk, sock.incoming);
      buf := buf + chunk;
    }
    return Ok(buf);
  }

  /** The stream opens with a header block that parses to this request, followed by its body. */
  ghost predicate Carries(stream: bytes, q: Request) {
    exists block :: && Find(stream, HEADER_END) == Some(|block|)
                    && block + HEADER_END + q.body <= stream
                    && ParseRequestHeaders(block) == Ok(RequestStub(q.verb, q.path, |q.body|))
  }

  /** The stream is exactly what the client sends for this request. */
  ghost predicate IsFormatted(stream: bytes, q: Request) {
    q.verb in VERBS && q.path != "" && stream == Frame(RequestLine(q), q.body)
  }

  /** The bytes of the header with its blank line. */
  function HeaderSize(q: Request): nat {
    |HeaderBlock(RequestLine(q), |q.body|)| + 2
  }

  /** The stream is exactly one formatted request whose header the server has room for. */
  ghost predicate IsMessage(stream: bytes, q: Request) {
    && IsFormatted(stream, q) && Framable(q) && HeaderSize(q) <= MAX_HEADER_BYTES
  }

  /**
   What the server may read where the client sent `q`. With a one-line path that is `q` itself, or a refusal
   of its length, or of its header: never while the header is within the limit, always when it is over by more
   than two bytes, and in between as the stream was cut up. A path of several lines is at best read as its first.
   */
  predicate MayRead(q: Request, r: Result<Request, RecvError>) {
    if '\n' !in q.path then
      || (HeaderSize(q) <= MAX_HEADER_BYTES + 2
          && r == if |q.body| <= MAX_BODY_BYTES then Ok(q) else Err(Violation(LengthTooLarge)))
      || (HeaderSize(q) > MAX_HEADER_BYTES && r == Err(Violation(HeaderTooLong)))
    else
      r.Ok? ==> r.value.verb == q.verb && r.value.path == FirstLine(q.path)
  }

  /** Cutting a one-line request at its first blank line gives back its own header and body. */
  lemma MessageParts(stream: bytes, q: Request, block: bytes, rest: bytes)
    requires IsFormatted(stream, q) && '\n' !in q.path
    requires Find(stream, HEADER_END) == Some(|block|) && stream == block + HEADER_END + rest
    ensures rest == q.body && |block| + 2 == HeaderSize(q)
    ensures ParseRequestHeaders(block)
         == if |q.body| <= MAX_BODY_BYTES then Ok(RequestStub(q.verb, q.path, |q.body|)) else Err(LengthTooLarge)
  {
    VerbsPlain(q.verb);
    HeaderEndsFirst(RequestLine(q), q.body);
    ParseFormattedRequest(q);
    SameCut(block, rest, HeaderBlock(RequestLine(q), |q.body|), q.body);
  }

  lemma SameCut(a: bytes, x: bytes, b: bytes, y: bytes)
    requires |a| == |b| && a + HEADER_END + x == b + HEADER_END + y
    ensures a == b && x == y
  {
    var s := a + HEADER_END + x;
    assert a == s[..|a|] && x == s[|a| + 2..];
    assert b == s[..|b|] && y == s[|b| + 2..];
  }

  /** Cutting any other request at its first blank line leaves a header that opens with the path's first line. */
  lemma LongPathParts(stream: bytes, q: Request, block: bytes, rest: bytes)
    requires IsFormatted(stream, q) && '\n' in q.path
    requires Find(stream, HEADER_END) == Some(|block|) && stream == block + HEADER_END + rest
    ensures ParseRequestHeaders(block).Ok? ==>
      ParseRequestHeaders(block).value.verb == q.verb && ParseRequestHeaders(block).value.path == FirstLine(q.path)
  {
    hide Encode;
    hide Find;
    hide IndexOf;
    hide Decimal;
    hide ParseRequestHeaders;
    var first := q.verb + " " + FirstLine(q.path);
    var k := |FirstLine(q.path)|;
    var tail := q.path[k + 1..] + "\ncontent-length: " + Decimal(|q.body|) + "\n\n";
    assert q.path == FirstLine(q.path) + ['\n'] + q.path[k + 1..];
    assert HeaderText(RequestLine(q), |q.body|) + "\n\n" == first + ['\n'] + tail;
    EncodeLines(first, tail);
    VerbsPlain(q.verb);
    EncodeNewline(first);
    var e := Encode(first);
    var after := Encode(tail) + q.body;
    assert stream == e + [NEWLINE] + after;
    BlankLineBeyond(e, after, block, rest);
    ParsedFirstLine(block, q.verb, FirstLine(q.path));
  }

  lemma BlankLineBeyond(e: bytes, after: bytes, block: bytes, rest: bytes)
    requires NEWLINE !in e && e + [NEWLINE] + after == block + HEADER_END + rest
    ensures e <= block && (|e| < |block| ==> block[|e|] == NEWLINE)
  {
    var s := block + HEADER_END + rest;
    assert s[|block|] == NEWLINE;
    assert forall i :: 0 <= i < |e| ==> s[i] == e[i];
    assert |e| <= |block|;
    assert forall i :: 0 <= i < |block| ==> s[i] == block[i];
    assert (e + [NEWLINE] + after)[|e|] == NEWLINE;
  }

  /** A one-line request's own blank line is the first one. */
  lemma MessageEnds(stream: bytes, q: Request)
    requires IsFormatted(stream, q) && '\n' !in q.path
    ensures Find(stream, HEADER_END).Some? && Find(stream, HEADER_END).value + 2 == HeaderSize(q)
  {
    VerbsPlain(q.verb);
    HeaderEndsFirst(RequestLine(q), q.body);
  }

  /**
   The server's reading half of a connection. However the stream is cut up, a formatted request is read
   back exactly; and whatever is read is what the stream spells.
   */
  method ReadRequest(sock: Socket) returns (r: Result<Request, RecvError>)
    modifies sock`incoming
    ensures r.Ok? ==> Carries(old(sock.incoming), r.value)
    ensures forall q :: IsFormatted(old(sock.incoming), q) ==> MayRead(q, r)
    ensures forall q :: IsMessage(old(sock.incoming), q) ==> r == Ok(q) && sock.incoming == []
  {
    hide Find;
    hide IsFormatted;
    hide Frame;
    hide HeaderBlock;
    hide FirstLine;
    hide Carries;
    hide ParseRequestHeaders;
    ghost var stream := sock.incoming;
    forall q | IsFormatted(stream, q) && '\n' !in q.path
      ensures Find(stream, HEADER_END).Some? && Find(stream, HEADER_END).value + 2 == HeaderSize(q)
    {
      MessageEnds(stream, q);
    }
    var head := RecvUntil(sock, HEADER_END, MAX_HEADER_BYTES);
    if head.Err? {
      return Err(head.error);
    }
    var (block, leftover) := head.value;
    ghost var rest := leftover + sock.incoming;
    assert stream == block + HEADER_END + rest;
    forall q | IsFormatted(stream, q)
      ensures Parts(q, block, rest)
    {
      if '\n' in q.path {
        LongPathParts(stream, q, block, rest);
      } else {
        MessageParts(stream, q, block, rest);
      }
    }
    var stub := ParseRequestHeaders(block);
    if stub.Err? {
      return Err(Violation(stub.error));
    }
    var body := RecvExact(sock, stub.value.contentLength, leftover);
    if body.Err? {
      return Err(body.error);
    }
    r := Ok(Request(stub.value.verb, stub.value.path, body.value));
    CarriesRead(stream, block, r.value, sock.incoming);
    forall q | IsFormatted(stream, q)
      ensures MayRead(q, r) && (IsMessage(stream, q) ==> r == Ok(q) && sock.incoming == [])
    {
      assert rest == body.value + sock.incoming;
      if '\n' !in q.path {
        assert |rest| == |body.value|;
        assert q == Request(stub.value.verb, stub.value.path, q.body) && q.body == body.value;
      }
    }
  }

  /** What a header and the rest of the stream say of the request they were cut from. */
  predicate Parts(q: Request, block: bytes, rest: bytes) {
    var stub := ParseRequestHeaders(block);
    if '\n' in q.path then stub.Ok? ==> stub.value.verb == q.verb && stub.value.path == FirstLine(q.path)
    else
      && rest == q.body
      && stub == if |q.body| <= MAX_BODY_BYTES then Ok(RequestStub(q.verb, q.path, |q.body|)) else Err(LengthTooLarge)
  }

  lemma CarriesRead(stream: bytes, block: bytes, q: Request, left: bytes)
    requires Find(stream, HEADER_END) == Some(|block|) && stream == block + HEADER_END + (q.body + left)
    requires ParseRequestHeaders(block) == Ok(RequestStub(q.verb, q.path, |q.body|))
    ensures Carries(stream, q)
  {
    hide Find;
    hide ParseRequestHeaders;
    assert stream == block + HEADER_END + q.body + left;
  }

  /** Its own framing carries a request exactly when verb, path and body are as the framing wants them. */
  lemma SurvivesWire(q: Request)
    ensures Carries(Frame(RequestLine(q), q.body), q) <==>
      q.verb in VERBS && q.path != "" && '\n' !in q.path && |q.body| <= MAX_BODY_BYTES
  {
    var stream := Frame(RequestLine(q), q.body);
    if Framable(q) {
      VerbsPlain(q.verb);
      HeaderEndsFirst(RequestLine(q), q.body);
      ParseFormattedRequest(q);
      CarriesRead(stream, HeaderBlock(RequestLine(q), |q.body|), q, []);
    } else if Carries(stream, q) {
      var block :| Find(stream, HEADER_END) == Some(|block|) && block + HEADER_END + q.body <= stream
                   && ParseRequestHeaders(block) == Ok(RequestStub(q.verb, q.path, |q.body|));
      ParsedPathIsOneLine(block);
    }
  }

  /** A path of two lines can be served as another file: the one its first line names. */
  lemma TwoLinePathIsServed(verb: string, path: string, body: bytes)
    requires verb in VERBS && path != "" && '\n' !in path && |body| <= MAX_BODY_BYTES
    ensures var q := Request(verb, path + "\n" + EXTRA, body);
      Carries(Frame(RequestLine(q), q.body), Request(verb, path, body))
  {
    hide Find;
    hide Frame;
    hide HeaderBlock;
    var q := Request(verb, path + "\n" + EXTRA, body);
    TwoLineParses(verb, path, |body|);
    TwoLineEnds(verb, path, body);
    CarriesRead(Frame(RequestLine(q), body), HeaderBlock(RequestLine(q), |body|), Request(verb, path, body), []);
  }

  // ----- the client's reading half -----------------------------------------------------------------

  /** `CutShort` is the client's StoreError for a server that closes early. */
  datatype ReplyError = CutShort | BadReply(e: ProtocolError)

  ghost predicate IsReply(stream: bytes, reply: Response) {
    reply.status in STATUSES && stream == Frame(reply.status, reply.body)
  }

  lemma ReplyParts(stream: bytes, reply: Response, block: bytes, rest: bytes)
    requires IsReply(stream, reply)
    requires Find(stream, HEADER_END) == Some(|block|) && stream == block + HEADER_END + rest
    ensures rest == reply.body
    ensures ParseResponseHeaders(block)
         == if |reply.body| <= MAX_BODY_BYTES then Ok(ResponseStub(reply.status, |reply.body|)) else Err(LengthTooLarge)
  {
    StatusesPlain(reply.status);
    HeaderEndsFirst(reply.status, reply.body);
    ParseFormattedResponse(reply);
    SameCut(block, rest, HeaderBlock(reply.status, |reply.body|), reply.body);
  }

  lemma ReplyHasEnd(stream: bytes, reply: Response)
    requires IsReply(stream, reply)
    ensures Find(stream, HEADER_END).Some?
  {
    StatusesPlain(reply.status);
    HeaderEndsFirst(reply.status, reply.body);
  }

  /** However a formatted response is cut up, it is read back exactly, or refused if its body is over the cap. */
  method ReadResponse(sock: Socket) returns (r: Result<Response, ReplyError>)
    modifies sock`incoming
    ensures forall reply :: IsReply(old(sock.incoming), reply) ==>
      r == if |reply.body| <= MAX_BODY_BYTES then Ok(reply) else Err(BadReply(LengthTooLarge))
    ensures old(sock.incoming) == [] ==> r == Err(CutShort)
  {
    hide Find;
    hide IsReply;
    hide ParseResponseHeaders;
    hide Frame;
    ghost var stream := sock.incoming;
    forall reply | IsReply(stream, reply) ensures Find(stream, HEADER_END).Some? {
      ReplyHasEnd(stream, reply);
    }
    var buf: bytes := [];
    var end := Find(buf, HEADER_END);
    while end.None?
      invariant stream == buf + sock.incoming && end == Find(buf, HEADER_END)
      decreases |sock.incoming|, end.None?
    {
      var chunk := sock.Recv(RECV_SIZE);
      if chunk == [] {
        assert stream == buf;
        return Err(CutShort);
      }
      Regroup(buf, chunk, sock.incoming);
      buf := buf + chunk;
      end := Find(buf, HEADER_END);
    }
    FindInPrefix(buf, sock.incoming, HEADER_END);
    var block, after := buf[..end.value], buf[end.value + 2..];
    assert buf == block + HEADER_END + after;
    ghost var rest := after + sock.incoming;
    assert stream == block + HEADER_END + rest;
    forall reply | IsReply(stream, reply)
      ensures rest == reply.body
      ensures ParseResponseHeaders(block)
           == if |reply.body| <= MAX_BODY_BYTES then Ok(ResponseStub(reply.status, |reply.body|))
             else Err(LengthTooLarge)
    {
      ReplyParts(stream, reply, block, rest);
    }
    var stub := ParseResponseHeaders(block);
    if stub.Err? {
      return Err(BadReply(stub.error));
    }
    var body := after;
    while |body| < stub.value.contentLength
      invariant rest == body + sock.incoming
      decreases stub.value.contentLength - |body|
    {
      var chunk := sock.Recv(Min(RECV_SIZE, stub.value.contentLength - |body|));
      if chunk == [] {
        assert rest == body;
        return Err(CutShort);
      }
      Regroup(body, chunk, sock.incoming);
      body := body + chunk;
    }
    r := Ok(Response(stub.value.status, body));
    forall reply | IsReply(stream, reply) ensures r == Ok(reply) && |reply.body| <= MAX_BODY_BYTES {
      assert rest == body + sock.incoming && |rest| <= |body|;
      assert body == reply.body;
    }
  }
}
