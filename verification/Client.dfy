/** The TCP client, meant as a drop-in for the in-process store (axiom-store/client.py). */
module Client {
  import opened Wrappers
  import opened Text
  import opened Utf8
  import opened Filesystem
  import opened Cache
  import opened Protocol
  import opened Transport
  import opened Server
  import Yaml
  import Schema
  import Frontmatter

  /**
   The exceptions a call can raise. `OsError` stands for the file system's own errors, which only the store in
   process raises.
   */
  datatype ClientError =
    | FileNotFoundError
    | InvalidVaultPathError
    | SchemaError
    | StoreError
    | ProtocolFailure(why: ProtocolError)
    | OsError

  datatype Outcome = Value(body: bytes) | Finished | Listed(names: seq<string>) | Raised(error: ClientError)

  /** `_raise_for_status`: `None` for OK. */
  function RaiseFor(status: string): Option<ClientError> {
    if status == "OK" then None
    else if status == "NOT_FOUND" then Some(FileNotFoundError)
    else if status == "BAD_REQUEST" then Some(InvalidVaultPathError)
    else if status == "SCHEMA_ERROR" then Some(SchemaError)
    else Some(StoreError)
  }

  /** A call goes through as its own request when the framing can carry it and the server has room for its header. */
  predicate Sendable(q: Request) {
    Framable(q) && HeaderSize(q) <= MAX_HEADER_BYTES
  }

  /** What comes back over the wire: the response, or a refusal to read one whose body is over the cap. */
  function Received(response: Response): Result<Response, ClientError> {
    if |response.body| <= MAX_BODY_BYTES then Ok(response) else Err(ProtocolFailure(LengthTooLarge))
  }

  /** The store and what the client receives once a connection has gone one way or another. */
  ghost function Answered(cfg: Config, root: Node, s: Store, h: Handled): (Store, Result<Response, ClientError>) {
    match h
    case Dropped => (s, Err(StoreError))
    case Refused(e) => (s, Received(Refuse(cfg, BadFrame(e))))
    case Served(q) =>
      var (s', response) := Dispatched(cfg, root, s, q);
      (s', Received(response))
  }

  /** One request over a fresh connection in each direction, each cut into pieces in any way. */
  method RoundTrip(cfg: Config, store: CachedVaultStore, q: Request) returns (r: Result<Response, ClientError>)
    modifies store, store.fs
    ensures FormatRequest(q).Err? ==>
      r == Err(ProtocolFailure(FormatRequest(q).error)) && store.State() == old(store.State())
    ensures Sendable(q) ==> (store.State(), r) == Answered(cfg, store.fs.root, old(store.State()), Served(q))
    ensures FormatRequest(q).Ok? ==>
      exists h :: MayRead(q, ReadingOf(h)) && (store.State(), r) == Answered(cfg, store.fs.root, old(store.State()), h)
  {
    hide Dispatched;
    hide Carries;
    hide MayRead;
    hide Frame;
    var framed := FormatRequest(q);
    if framed.Err? {
      return Err(ProtocolFailure(framed.error));
    }
    var conn := new Socket(framed.value);
    ghost var before := store.State();
    assert IsFormatted(conn.incoming, q);
    var handled := HandleConnection(cfg, conn, store);
    var back := new Socket(conn.sent);
    if !handled.Dropped? {
      ghost var response := Reply(cfg, store.fs.root, before, handled);
      DispatchedStatus(cfg, store.fs.root, before, if handled.Served? then handled.q else q);
      assert back.incoming == [] + Wire(response) == Wire(response);
      assert IsReply(back.incoming, response);
    }
    var reply := ReadResponse(back);
    match reply {
      case Ok(response) => r := Ok(response);
      case Err(CutShort) => r := Err(StoreError);
      case Err(BadReply(e)) => r := Err(ProtocolFailure(e));
    }
    assert MayRead(q, ReadingOf(handled)) && (store.State(), r) == Answered(cfg, store.fs.root, before, handled);
    SendableIsServed(q, handled);
  }

  /** What the server sends unless it drops the connection. */
  ghost function Reply(cfg: Config, root: Node, s: Store, h: Handled): Response
    requires !h.Dropped?
  {
    if h.Served? then Dispatched(cfg, root, s, h.q).1 else Refuse(cfg, BadFrame(h.why))
  }

  function RequestFor(op: Op): Request {
    match op
    case Read(p) => Request("READ", p, [])
    case Write(p, body) => Request("WRITE", p, body)
    case Delete(p) => Request("DELETE", p, [])
    case ListDir(p) => Request("LIST", p, [])
  }

  /** The status word of every reply, told from what the uncached store says of the same call. */
  lemma RepliesExactly(cfg: Config, root: Node, s: Store, op: Op)
    requires op.ListDir? || FreshEntry(root, s, op.path)
    ensures
      var reply := Dispatched(cfg, root, s, RequestFor(op)).1;
      if op.Write? && Gate(cfg, op.path, op.body).Some? then
        reply.status == if Decode(op.body).None? then "BAD_REQUEST" else "SCHEMA_ERROR"
      else
        match PlainStep(root, s.disk, op).1
        case Bytes(body) => reply == Response("OK", body)
        case Done => reply == Response("OK", [])
        case Names(names) => reply == Response("OK", Encode(Join(names, '\n')))
        case Failed(InvalidVaultPath) => reply.status == "BAD_REQUEST"
        case Failed(FileNotFound) => reply.status == "NOT_FOUND"
        case Failed(_) => reply.status == "SERVER_ERROR"
  {
    hide FsRead;
    hide FsWrite;
    hide FsDelete;
    hide FsList;
    hide Schema.Conforms;
    hide Frontmatter.Parse;
  }

  /** The names in a listing body: none for the empty body. */
  function ParseListing(body: bytes): Option<seq<string>> {
    if body == [] then Some([])
    else
      match Decode(body)
      case None => None
      case Some(text) => Some(Split(text, '\n'))
  }

  /** What a client method makes of what it received. */
  function Interpret(op: Op, received: Result<Response, ClientError>): Outcome {
    match received
    case Err(e) => Raised(e)
    case Ok(response) =>
      var raised := RaiseFor(response.status);
      if raised.Some? then Raised(raised.value)
      else
        match op
        case Read(_) => Value(response.body)
        case ListDir(_) =>
          (match ParseListing(response.body)
           case Some(names) => Listed(names)
           case None => Raised(StoreError))
        case _ => Finished
  }

  /** The client's four methods, one per kind of operation. */
  method Call(cfg: Config, store: CachedVaultStore, op: Op) returns (r: Outcome)
    modifies store, store.fs
    ensures op.path == "" ==> r == Raised(ProtocolFailure(NoPath)) && store.State() == old(store.State())
    ensures Sendable(RequestFor(op)) ==> (store.State(), r) == ClientStep(cfg, store.fs.root, old(store.State()), op)
    ensures op.path != "" ==>
      exists h :: MayRead(RequestFor(op), ReadingOf(h))
                  && (store.State(), r) == CallStep(cfg, store.fs.root, old(store.State()), op, h)
  {
    hide Answered;
    hide MayRead;
    var received := RoundTrip(cfg, store, RequestFor(op));
    r := Interpret(op, received);
    if op.path != "" {
      ghost var h :| MayRead(RequestFor(op), ReadingOf(h))
                     && (store.State(), received) == Answered(cfg, store.fs.root, old(store.State()), h);
      assert (store.State(), r) == CallStep(cfg, store.fs.root, old(store.State()), op, h);
    }
  }

  lemma SendableIsServed(q: Request, h: Handled)
    ensures Sendable(q) && MayRead(q, ReadingOf(h)) ==> h == Served(q)
  {
  }

  /** A call whose connection went as `h`. */
  ghost function CallStep(cfg: Config, root: Node, s: Store, op: Op, h: Handled): (Store, Outcome) {
    var (s', received) := Answered(cfg, root, s, h);
    (s', Interpret(op, received))
  }

  /** A call that is served as itself. */
  ghost function ClientStep(cfg: Config, root: Node, s: Store, op: Op): (Store, Outcome) {
    CallStep(cfg, root, s, op, Served(RequestFor(op)))
  }

  // ----- the plain store it stands in for ------------------------------------------------------------------

  function Fault(e: FsError): ClientError {
    match e
    case InvalidVaultPath => InvalidVaultPathError
    case FileNotFound => FileNotFoundError
    case _ => OsError
  }

  function GateFault(r: Refusal): ClientError {
    match r
    case BodyNotUtf8 => InvalidVaultPathError
    case BadFrontmatter(_) => SchemaError
    case BadSchema => SchemaError
    case _ => StoreError
  }

  function Settled(r: Result<(), FsError>): Outcome {
    match r
    case Ok(_) => Finished
    case Err(e) => Raised(Fault(e))
  }

  /** A map of files behind the schema gate: no wire, no cache. */
  ghost function PlainGated(cfg: Config, root: Node, d: Disk, op: Op): (Disk, Outcome) {
    match op
    case Read(p) => (d, match FsRead(root, d, p) case Ok(body) => Value(body) case Err(e) => Raised(Fault(e)))
    case Write(p, body) =>
      var gate := Gate(cfg, p, body);
      if gate.Some? then (d, Raised(GateFault(gate.value)))
      else
        var (d', r) := FsWrite(root, d, p, body);
        (d', Settled(r))
    case Delete(p) => var (d', r) := FsDelete(root, d, p); (d', Settled(r))
    case ListDir(p) => (d, match FsList(root, d, p) case Ok(names) => Listed(names) case Err(e) => Raised(Fault(e)))
  }

  // ----- listings --------------------------------------------------------------------------------------------

  /** Names that survive a newline join: each on one line, and not the empty name alone. */
  ghost predicate OneLineNames(names: seq<string>) {
    (forall n :: n in names ==> '\n' !in n) && names != [""]
  }

  /** Newline join and split are inverse exactly on such listings, the empty one included. */
  lemma ListingRoundTrip(names: seq<string>)
    ensures ParseListing(Listing(names)).Some?
    ensures ParseListing(Listing(names)) == Some(names) <==> OneLineNames(names)
  {
    hide Encode;
    hide Decode;
    var text := Join(names, '\n');
    DecodeEncode(text);
    EncodeEmpty(text);
    JoinIsEmpty(names);
    JoinSplit(text, '\n');
    if names != [] && OneLineNames(names) {
      SplitJoin(names, '\n');
    }
  }

  lemma EncodeEmpty(text: string)
    ensures Encode(text) == [] <==> text == ""
  {
  }

  lemma JoinIsEmpty(names: seq<string>)
    ensures Join(names, '\n') == "" <==> names == [] || names == [""]
  {
    if |names| == 1 {
      assert names == [names[0]];
    }
  }

  // ----- substitutability --------------------------------------------------------------------------------------

  /** A file is spelled canonically or not at all well; a directory to list may be spelled anyhow. */
  ghost predicate Spelled(root: Node, op: Op) {
    op.ListDir? || Canonical(op.path) || Resolve(root, op.path).Err?
  }

  /** A well spelled call that the wire carries however it is cut up. */
  ghost predicate Proper(root: Node, op: Op) {
    Spelled(root, op) && Sendable(RequestFor(op))
  }

  /** What holds of the server's store between such calls: a well-formed disk and fresh entries. */
  ghost predicate Sound(root: Node, s: Store) {
    DiskOk(s.disk) && forall p :: p in s.entries ==> Canonical(p) && FreshEntry(root, s, p)
  }

  ghost predicate QuietErrors(cfg: Config) {
    forall r :: |cfg.describe(r)| <= MAX_BODY_BYTES
  }

  /** What the client makes of an outcome of the plain store. */
  function HandedOn(o: Outcome): Outcome {
    match o
    case Value(body) => if |body| <= MAX_BODY_BYTES then o else Raised(ProtocolFailure(LengthTooLarge))
    case Listed(names) =>
      if |Listing(names)| > MAX_BODY_BYTES then Raised(ProtocolFailure(LengthTooLarge))
      else
        (match ParseListing(Listing(names))
         case Some(parsed) => Listed(parsed)
         case None => Raised(StoreError))
    case Raised(OsError) => Raised(StoreError)
    case _ => o
  }

  /** Contents within the cap, listings within it of one-line names, any error but the file system's own. */
  ghost predicate Transfers(o: Outcome) {
    match o
    case Value(body) => |body| <= MAX_BODY_BYTES
    case Listed(names) => |Listing(names)| <= MAX_BODY_BYTES && OneLineNames(names)
    case Raised(e) => e != OsError
    case Finished => true
  }

  /** These are exactly the outcomes handed on as they are. */
  lemma HandedOnExactly(o: Outcome)
    ensures HandedOn(o) == o <==> Transfers(o)
  {
    hide Listing;
    hide ParseListing;
    hide OneLineNames;
    if o.Listed? {
      ListingRoundTrip(o.names);
    }
  }

  lemma StepSound(cfg: Config, root: Node, s: Store, op: Op)
    requires Sound(root, s) && Spelled(root, op)
    ensures Sound(root, ClientStep(cfg, root, s, op).0)
  {
    hide Sound;
    if !op.ListDir? {
      if Resolve(root, op.path).Err? {
        BadPathStep(cfg, root, s, op);
      } else {
        FileStepSound(cfg, root, s, op);
      }
    }
  }

  /** A path that does not resolve is never cached and never stored. */
  lemma BadPathStep(cfg: Config, root: Node, s: Store, op: Op)
    requires Sound(root, s) && !op.ListDir? && Resolve(root, op.path).Err?
    ensures op.path !in s.entries
    ensures Sound(root, ClientStep(cfg, root, s, op).0)
  {
    hide Gate;
    hide Canonical;
    hide Resolve;
    if op.path in s.entries {
      CanonicalResolves(root, op.path);
    }
  }

  lemma FileStepSound(cfg: Config, root: Node, s: Store, op: Op)
    requires Sound(root, s) && Canonical(op.path) && !op.ListDir?
    ensures Sound(root, ClientStep(cfg, root, s, op).0)
  {
    hide Gate;
    hide Canonical;
    hide Resolve;
    hide Split;
    var s' := ClientStep(cfg, root, s, op).0;
    CanonicalResolves(root, op.path);
    StepFresh(root, s, op, op.path);
    forall p | p in s'.entries ensures Canonical(p) && FreshEntry(root, s', p) {
      StepFresh(root, s, op, p);
      if p != op.path && Resolve(root, p) == Resolve(root, op.path) && p in s.entries {
        CanonicalUnique(root, p, op.path);
      }
    }
  }

  /** A call that is served acts as on the plain gated store and hands on what that store answers. */
  lemma CallIsPlain(cfg: Config, root: Node, s: Store, op: Op)
    requires Sound(root, s) && Spelled(root, op) && QuietErrors(cfg)
    ensures ClientStep(cfg, root, s, op).0.disk == PlainGated(cfg, root, s.disk, op).0
    ensures ClientStep(cfg, root, s, op).1 == HandedOn(PlainGated(cfg, root, s.disk, op).1)
  {
    hide Canonical;
    hide DiskOk;
    hide Resolve;
    hide ClientStep;
    hide PlainGated;
    hide HandedOn;
    if op.ListDir? {
      ListIsPlain(cfg, root, s, op);
    } else if Resolve(root, op.path).Err? {
      BadPathStep(cfg, root, s, op);
      FileIsPlain(cfg, root, s, op);
    } else {
      FileIsPlain(cfg, root, s, op);
    }
  }

  /** On a fresh entry. */
  lemma FileIsPlain(cfg: Config, root: Node, s: Store, op: Op)
    requires !op.ListDir? && FreshEntry(root, s, op.path) && QuietErrors(cfg)
    ensures ClientStep(cfg, root, s, op).0.disk == PlainGated(cfg, root, s.disk, op).0
    ensures ClientStep(cfg, root, s, op).1 == HandedOn(PlainGated(cfg, root, s.disk, op).1)
  {
    hide Resolve;
    hide Gate;
    hide Listing;
    GateRefusals(cfg, op);
  }

  lemma ListIsPlain(cfg: Config, root: Node, s: Store, op: Op)
    requires op.ListDir? && QuietErrors(cfg)
    ensures ClientStep(cfg, root, s, op).0 == s && PlainGated(cfg, root, s.disk, op).0 == s.disk
    ensures ClientStep(cfg, root, s, op).1 == HandedOn(PlainGated(cfg, root, s.disk, op).1)
  {
    hide FsList;
    hide Listing;
    hide ParseListing;
  }

  ghost function ClientAfter(cfg: Config, root: Node, s: Store, ops: seq<Op>): Store {
    if ops == [] then s else ClientStep(cfg, root, ClientAfter(cfg, root, s, ops[..|ops| - 1]), ops[|ops| - 1]).0
  }

  ghost function ClientOutcomes(cfg: Config, root: Node, s: Store, ops: seq<Op>): seq<Outcome> {
    if ops == [] then []
    else
      var init, op := ops[..|ops| - 1], ops[|ops| - 1];
      ClientOutcomes(cfg, root, s, init) + [ClientStep(cfg, root, ClientAfter(cfg, root, s, init), op).1]
  }

  ghost function GatedAfter(cfg: Config, root: Node, d: Disk, ops: seq<Op>): Disk {
    if ops == [] then d else PlainGated(cfg, root, GatedAfter(cfg, root, d, ops[..|ops| - 1]), ops[|ops| - 1]).0
  }

  ghost function GatedOutcomes(cfg: Config, root: Node, d: Disk, ops: seq<Op>): seq<Outcome> {
    if ops == [] then []
    else
      var init, op := ops[..|ops| - 1], ops[|ops| - 1];
      GatedOutcomes(cfg, root, d, init) + [PlainGated(cfg, root, GatedAfter(cfg, root, d, init), op).1]
  }

  /**
   On every run of calls that the wire carries, each spelling its file canonically or badly, the client over
   wire, dispatch, cache and files leaves the disk the plain gated store leaves, and each outcome is that
   store's, handed on; so it is the same exactly when it transfers.
   */
  lemma {:induction false} Substitutable(cfg: Config, root: Node, s: Store, ops: seq<Op>)
    requires Sound(root, s) && QuietErrors(cfg)
    requires forall op :: op in ops ==> Proper(root, op)
    ensures Sound(root, ClientAfter(cfg, root, s, ops))
    ensures ClientAfter(cfg, root, s, ops).disk == GatedAfter(cfg, root, s.disk, ops)
    ensures |ClientOutcomes(cfg, root, s, ops)| == |GatedOutcomes(cfg, root, s.disk, ops)| == |ops|
    ensures forall i :: 0 <= i < |ops| ==>
      var o, plain := ClientOutcomes(cfg, root, s, ops)[i], GatedOutcomes(cfg, root, s.disk, ops)[i];
      o == HandedOn(plain) && (o == plain <==> Transfers(plain))
  {
    hide ClientStep;
    hide PlainGated;
    hide Sound;
    hide Transfers;
    hide HandedOn;
    hide Sendable;
    hide Spelled;
    if ops != [] {
      var n := |ops| - 1;
      assert ops[n] in ops && forall op :: op in ops[..n] ==> op in ops;
      Substitutable(cfg, root, s, ops[..n]);
      var before := ClientAfter(cfg, root, s, ops[..n]);
      StepSound(cfg, root, before, ops[n]);
      CallIsPlain(cfg, root, before, ops[n]);
      HandedOnExactly(PlainGated(cfg, root, before.disk, ops[n]).1);
    }
  }

  /** A server just started on any well-formed disk is where runs can begin. */
  lemma StartsSound(root: Node, d: Disk)
    requires DiskOk(d)
    ensures Sound(root, Empty(d))
  {
  }

  /** From there: all outcomes are the plain store's when all of those transfer. */
  lemma SubstitutableFromStart(cfg: Config, root: Node, d: Disk, ops: seq<Op>)
    requires DiskOk(d) && QuietErrors(cfg)
    requires forall op :: op in ops ==> Proper(root, op)
    ensures ClientAfter(cfg, root, Empty(d), ops).disk == GatedAfter(cfg, root, d, ops)
    ensures ClientOutcomes(cfg, root, Empty(d), ops) == GatedOutcomes(cfg, root, d, ops)
      <==> forall o :: o in GatedOutcomes(cfg, root, d, ops) ==> Transfers(o)
  {
    hide ClientStep;
    hide PlainGated;
    hide Transfers;
    hide HandedOn;
    hide Proper;
    StartsSound(root, d);
    hide Sound;
    assert Empty(d).disk == d;
    Substitutable(cfg, root, Empty(d), ops);
    var outcomes, plain := ClientOutcomes(cfg, root, Empty(d), ops), GatedOutcomes(cfg, root, d, ops);
    if outcomes == plain {
      forall o | o in plain ensures Transfers(o) {
        var i :| 0 <= i < |plain| && plain[i] == o;
        assert outcomes[i] == plain[i];
      }
    }
  }

  // ----- calls the wire does not carry -------------------------------------------------------------------------

  /** The plain store itself turns the call away with what the client knows as a bad path. */
  predicate PlainBadRequest(cfg: Config, root: Node, op: Op) {
    match op
    case Write(p, body) =>
      Gate(cfg, p, body) == Some(BodyNotUtf8) || (Gate(cfg, p, body).None? && Resolve(root, p).Err?)
    case ListDir(p) => p != "" && p != "." && Resolve(root, p).Err?
    case _ => Resolve(root, op.path).Err?
  }

  lemma PlainBadRequestIs(cfg: Config, root: Node, d: Disk, op: Op)
    ensures PlainBadRequest(cfg, root, op) <==> PlainGated(cfg, root, d, op).1 == Raised(InvalidVaultPathError)
    ensures PlainBadRequest(cfg, root, op) ==> PlainGated(cfg, root, d, op).0 == d
  {
    hide Gate;
    ResolveFault(root, op.path);
    GateFaults(cfg, op);
  }

  lemma ResolveFault(root: Node, path: string)
    ensures Resolve(root, path).Err? ==> Resolve(root, path) == Err(InvalidVaultPath)
  {
  }

  lemma GateFaults(cfg: Config, op: Op)
    ensures op.Write? && Gate(cfg, op.path, op.body).Some? ==>
      var refusal := Gate(cfg, op.path, op.body).value;
      refusal == BodyNotUtf8 <==> GateFault(refusal) == InvalidVaultPathError
  {
  }

  /**
   A call with a one-line path, however its connection goes. Within both limits it is served; with a body over the
   cap, or a header over its limit by more than two bytes, it is refused as a bad path; in between it is one of these.
   */
  lemma OneLineCall(cfg: Config, root: Node, s: Store, op: Op, h: Handled)
    requires op.path != "" && '\n' !in op.path && MayRead(RequestFor(op), ReadingOf(h)) && QuietErrors(cfg)
    ensures var q := RequestFor(op);
      && (h == Served(q) || CallStep(cfg, root, s, op, h) == (s, Raised(InvalidVaultPathError)))
      && (HeaderSize(q) <= MAX_HEADER_BYTES ==> (h == Served(q) <==> |q.body| <= MAX_BODY_BYTES))
      && (HeaderSize(q) > MAX_HEADER_BYTES + 2 || |q.body| > MAX_BODY_BYTES ==> h != Served(q))
  {
    hide HeaderSize;
    hide Dispatched;
  }

  /** The call answers and acts as the plain gated store does. */
  ghost predicate Agrees(cfg: Config, root: Node, s: Store, op: Op, h: Handled) {
    var (s', o) := CallStep(cfg, root, s, op, h);
    (s'.disk, o) == PlainGated(cfg, root, s.disk, op)
  }

  /**
   Exactly when a call is a drop-in for the plain gated store, whatever pieces the stream comes in: if the wire
   carries it, when the plain outcome can be handed on; if not, when the plain store calls it a bad path as well.
   */
  lemma DropInExactly(cfg: Config, root: Node, s: Store, op: Op)
    requires Sound(root, s) && QuietErrors(cfg) && Spelled(root, op) && op.path != "" && '\n' !in op.path
    ensures (forall h :: MayRead(RequestFor(op), ReadingOf(h)) ==> Agrees(cfg, root, s, op, h))
      <==> if Sendable(RequestFor(op)) then Transfers(PlainGated(cfg, root, s.disk, op).1)
           else PlainBadRequest(cfg, root, op)
  {
    hide Dispatched;
    hide PlainGated;
    hide PlainBadRequest;
    hide Sound;
    hide Spelled;
    hide HeaderSize;
    hide Interpret;
    hide HandedOn;
    var q := RequestFor(op);
    PlainBadRequestIs(cfg, root, s.disk, op);
    CallIsPlain(cfg, root, s, op);
    HandedOnExactly(PlainGated(cfg, root, s.disk, op).1);
    assert Agrees(cfg, root, s, op, Served(q)) <==> Transfers(PlainGated(cfg, root, s.disk, op).1);
    forall h | MayRead(q, ReadingOf(h))
      ensures h == Served(q) || (Agrees(cfg, root, s, op, h) <==> PlainBadRequest(cfg, root, op))
      ensures h == Served(q) ==> Framable(q)
    {
      OneLineCall(cfg, root, s, op, h);
    }
    if Sendable(q) {
      assert MayRead(q, ReadingOf(Served(q)));
    } else {
      var why := if HeaderSize(q) > MAX_HEADER_BYTES then HeaderTooLong else LengthTooLarge;
      assert MayRead(q, ReadingOf(Refused(why)));
    }
  }

  /** The empty path never agrees: the client raises before it sends, with an error the plain store does not know. */
  lemma EmptyPathDiffers(cfg: Config, root: Node, d: Disk, op: Op)
    requires op.path == ""
    ensures FormatRequest(RequestFor(op)) == Err(NoPath)
    ensures PlainGated(cfg, root, d, op).1 != Raised(ProtocolFailure(NoPath))
    ensures op.ListDir? && [] in d.dirs ==> PlainGated(cfg, root, d, op).1.Listed?
  {
    hide Gate;
  }

  /** A path of several lines is never served as itself: at best the call goes to the path's first line. */
  lemma LongPathDiffers(cfg: Config, root: Node, s: Store, op: Op, h: Handled)
    requires op.path != "" && '\n' in op.path && MayRead(RequestFor(op), ReadingOf(h))
    ensures match h
      case Served(q) => q.verb == RequestFor(op).verb && q.path == FirstLine(op.path) && q.path != op.path
      case Refused(_) => CallStep(cfg, root, s, op, h).0 == s
      case Dropped => CallStep(cfg, root, s, op, h) == (s, Raised(StoreError))
  {
  }

  /** Without a gate, as the store is in process. */
  ghost function Ungated(root: Node, d: Disk, op: Op): (Disk, Outcome) {
    match op
    case Write(p, body) => var (d', r) := FsWrite(root, d, p, body); (d', Settled(r))
    case _ => PlainGated(Config([], Yaml.Yaml(m => "", t => None), r => []), root, d, op)
  }

  /** The gate is felt exactly by the writes it refuses, unless both ways lead to a bad path. */
  lemma GateIsFelt(cfg: Config, root: Node, d: Disk, op: Op)
    ensures PlainGated(cfg, root, d, op) == Ungated(root, d, op)
      <==> (op.Write? && Gate(cfg, op.path, op.body).Some? ==>
              Gate(cfg, op.path, op.body) == Some(BodyNotUtf8) && Resolve(root, op.path).Err?)
  {
    hide Gate;
    hide Resolve;
    ResolveFault(root, op.path);
    GateFaults(cfg, op);
    GateRefusals(cfg, op);
  }

  lemma GateRefusals(cfg: Config, op: Op)
    ensures op.Write? && Gate(cfg, op.path, op.body).Some? ==>
      var r := Gate(cfg, op.path, op.body).value;
      r.BodyNotUtf8? || r.BadFrontmatter? || r.BadSchema?
  {
  }
}
