/** Requests dispatched against the cached store, one connection at a time (axiom-store/server.py). */
module Server {
  import opened Wrappers
  import opened Text
  import opened Utf8
  import opened Filesystem
  import opened Cache
  import opened Protocol
  import opened Transport
  import Frontmatter
  import Schema
  import Yaml

  /** Everything that ends a request in an error response. */
  datatype Refusal =
    | Fs(fault: FsError)
    | BodyNotUtf8
    | BadFrontmatter(problem: Frontmatter.FrontmatterError)
    | BadSchema
    | BadVerb
    | BadFrame(violation: ProtocolError)

  /** The registry, YAML, and the text of error messages, which is left open. */
  datatype Config = Config(registry: Schema.Registry, yaml: Yaml.Yaml, describe: Refusal -> bytes)

  function StatusOf(r: Refusal): (status: string)
    ensures status in STATUSES && status != "OK"
  {
    match r
    case Fs(InvalidVaultPath) => "BAD_REQUEST"
    case Fs(FileNotFound) => "NOT_FOUND"
    case Fs(_) => "SERVER_ERROR"
    case BodyNotUtf8 => "BAD_REQUEST"
    case BadFrontmatter(_) => "SCHEMA_ERROR"
    case BadSchema => "SCHEMA_ERROR"
    case BadVerb => "BAD_REQUEST"
    case BadFrame(_) => "BAD_REQUEST"
  }

  function Refuse(cfg: Config, r: Refusal): Response {
    Response(StatusOf(r), cfg.describe(r))
  }

  // ----- the schema gate -------------------------------------------------------------------------------

  /** Why a WRITE of `body` at `path` is turned away; `None` lets it through. */
  function Gate(cfg: Config, path: string, body: bytes): Option<Refusal> {
    match Schema.SchemaOf(cfg.registry, path)
    case None => None
    case Some(schema) => Against(cfg, schema, body)
  }

  /** Why a body is turned away by one schema. */
  function Against(cfg: Config, schema: Schema.Schema, body: bytes): Option<Refusal> {
    match Decode(body)
    case None => Some(BodyNotUtf8)
    case Some(text) =>
      match Frontmatter.Parse(cfg.yaml, text)
      case Err(e) => Some(BadFrontmatter(e))
      case Ok((meta, _)) => if Schema.Conforms(meta, schema) then None else Some(BadSchema)
  }

  method CheckGate(cfg: Config, path: string, body: bytes) returns (r: Option<Refusal>)
    ensures r == Gate(cfg, path, body)
  {
    var schema := Schema.SchemaFor(cfg.registry, path);
    if schema.None? {
      return None;
    }
    var text := Decode(body);
    if text.None? {
      return Some(BodyNotUtf8);
    }
    var doc := Frontmatter.ParseFrontmatter(cfg.yaml, text.value);
    if doc.Err? {
      return Some(BadFrontmatter(doc.error));
    }
    var violation := Schema.Validate(doc.value.0, schema.value);
    r := if violation.None? then None else Some(BadSchema);
  }

  /** Rendered metadata passes the gate exactly when its path is unregistered or its schema admits it. */
  lemma RenderedPassesGate(cfg: Config, path: string, meta: Yaml.Meta, body: string)
    requires meta != map[] && Yaml.Faithful(cfg.yaml, meta)
    ensures var schema := Schema.SchemaOf(cfg.registry, path);
      Gate(cfg, path, Encode(Frontmatter.Render(cfg.yaml, meta, body))).None?
      <==> schema.None? || Schema.Conforms(meta, schema.value)
  {
    hide Schema.Conforms;
    hide Frontmatter.Parse;
    hide Frontmatter.Render;
    DecodeEncode(Frontmatter.Render(cfg.yaml, meta, body));
    Frontmatter.RoundTrip(cfg.yaml, meta, body);
  }

  // ----- dispatch ----------------------------------------------------------------------------------------

  function Listing(names: seq<string>): bytes {
    Encode(Join(names, '\n'))
  }

  /** The store and the response after one request. */
  ghost function Dispatched(cfg: Config, root: Node, s: Store, q: Request): (Store, Response) {
    if q.verb == "READ" then
      var (s', r) := CachedRead(root, s, q.path);
      (s', match r case Ok(body) => Response("OK", body) case Err(e) => Refuse(cfg, Fs(e)))
    else if q.verb == "WRITE" then
      var gate := Gate(cfg, q.path, q.body);
      if gate.Some? then (s, Refuse(cfg, gate.value))
      else
        var (s', r) := CachedWrite(root, s, q.path, q.body);
        (s', match r case Ok(_) => Response("OK", []) case Err(e) => Refuse(cfg, Fs(e)))
    else if q.verb == "DELETE" then
      var (s', r) := CachedDelete(root, s, q.path);
      (s', match r case Ok(_) => Response("OK", []) case Err(e) => Refuse(cfg, Fs(e)))
    else if q.verb == "LIST" then
      (s, match FsList(root, s.disk, q.path)
          case Ok(names) => Response("OK", Listing(names))
          case Err(e) => Refuse(cfg, Fs(e)))
    else
      (s, Refuse(cfg, BadVerb))
  }

  method Dispatch(cfg: Config, store: CachedVaultStore, q: Request) returns (response: Response)
    modifies store, store.fs
    ensures (store.State(), response) == Dispatched(cfg, store.fs.root, old(store.State()), q)
  {
    if q.verb == "READ" {
      var r := store.Read(q.path);
      match r {
        case Ok(body) => return Response("OK", body);
        case Err(e) => return Refuse(cfg, Fs(e));
      }
    }
    if q.verb == "WRITE" {
      var gate := CheckGate(cfg, q.path, q.body);
      if gate.Some? {
        return Refuse(cfg, gate.value);
      }
      var r := store.Write(q.path, q.body);
      match r {
        case Ok(_) => return Response("OK", []);
        case Err(e) => return Refuse(cfg, Fs(e));
      }
    }
    if q.verb == "DELETE" {
      var r := store.Delete(q.path);
      match r {
        case Ok(_) => return Response("OK", []);
        case Err(e) => return Refuse(cfg, Fs(e));
      }
    }
    if q.verb == "LIST" {
      var r := store.ListDir(q.path);
      match r {
        case Ok(names) => return Response("OK", Listing(names));
        case Err(e) => return Refuse(cfg, Fs(e));
      }
    }
    return Refuse(cfg, BadVerb);
  }

  lemma DispatchedStatus(cfg: Config, root: Node, s: Store, q: Request)
    ensures Dispatched(cfg, root, s, q).1.status in STATUSES
  {
  }

  /** A response as bytes on the wire. */
  function Wire(r: Response): bytes {
    Frame(r.status, r.body)
  }

  /** How a connection went, which the source only logs. */
  datatype Handled = Dropped | Refused(why: ProtocolError) | Served(q: Request)

  /** The reading of the stream that a connection came down to. */
  function ReadingOf(h: Handled): Result<Request, RecvError> {
    match h
    case Dropped => Err(ConnectionClosed)
    case Refused(e) => Err(Violation(e))
    case Served(q) => Ok(q)
  }

  /**
   One connection: what the stream carries is dispatched and answered; a framing error is answered and
   changes nothing; a stream that ends early is dropped. A formatted request is always served as itself.
   */
  method HandleConnection(cfg: Config, conn: Socket, store: CachedVaultStore) returns (h: Handled)
    modifies conn, store, store.fs
    ensures h.Dropped? ==> conn.sent == old(conn.sent) && store.State() == old(store.State())
    ensures h.Refused? ==>
      conn.sent == old(conn.sent) + Wire(Refuse(cfg, BadFrame(h.why))) && store.State() == old(store.State())
    ensures h.Served? ==>
      var (s, response) := Dispatched(cfg, store.fs.root, old(store.State()), h.q);
      Carries(old(conn.incoming), h.q) && conn.sent == old(conn.sent) + Wire(response) && store.State() == s
    ensures forall q :: IsFormatted(old(conn.incoming), q) ==> MayRead(q, ReadingOf(h))
    ensures forall q :: IsMessage(old(conn.incoming), q) ==> h == Served(q)
  {
    hide Dispatched;
    hide IsMessage;
    hide IsFormatted;
    hide MayRead;
    hide Carries;
    var response: Response;
    var q := ReadRequest(conn);
    match q {
      case Ok(request) =>
        DispatchedStatus(cfg, store.fs.root, store.State(), request);
        response := Dispatch(cfg, store, request);
        h := Served(request);
      case Err(ConnectionClosed) =>
        return Dropped;
      case Err(Violation(e)) =>
        response := Refuse(cfg, BadFrame(e));
        h := Refused(e);
    }
    var framed := FormatResponse(response);
    conn.SendAll(framed.value);
  }

  // ----- what the gate guarantees ------------------------------------------------------------------------

  /** The file at a canonical path would be let through the gate as it stands. */
  predicate Gated(cfg: Config, d: Disk, path: string) {
    var node := Split(path, '/');
    node in d.files ==> Gate(cfg, path, d.files[node]).None?
  }

  /** A spelling that the gate looks up as it would the canonical one of the same file, if that is registered at all. */
  predicate RoutedAlike(cfg: Config, root: Node, path: string) {
    match Resolve(root, path)
    case Err(_) => true
    case Ok(node) =>
      node != [] ==>
        var schema := Schema.SchemaOf(cfg.registry, Join(node, '/'));
        schema.None? || Schema.SchemaOf(cfg.registry, path) == schema
  }

  lemma CanonicalIsRoutedAlike(cfg: Config, root: Node, path: string)
    requires Canonical(path)
    ensures RoutedAlike(cfg, root, path)
  {
    CanonicalResolves(root, path);
    JoinSplit(path, '/');
  }

  /** A WRITE that leads to the file at a canonical path. */
  predicate Aims(root: Node, q: Request, path: string) {
    q.verb == "WRITE" && Resolve(root, q.path) == Ok(Split(path, '/'))
  }

  /** Such a WRITE, accepted. */
  ghost predicate Accepts(cfg: Config, root: Node, s: Store, q: Request, path: string) {
    Aims(root, q, path) && Dispatched(cfg, root, s, q).1.status == "OK"
  }

  /**
   What one request does to one file: an accepted WRITE of it stores what the gate let through; a WRITE that the
   gate refuses changes nothing at all; and no other request stores anything in it.
   */
  lemma DispatchKeepsGate(cfg: Config, root: Node, s: Store, q: Request, path: string)
    requires Canonical(path) && (Aims(root, q, path) ==> RoutedAlike(cfg, root, q.path))
    ensures var (s', response) := Dispatched(cfg, root, s, q);
      var node := Split(path, '/');
      && (Accepts(cfg, root, s, q, path) ==>
            node in s'.disk.files && s'.disk.files[node] == q.body && Gated(cfg, s'.disk, path))
      && (!Accepts(cfg, root, s, q, path) && node in s'.disk.files ==>
            node in s.disk.files && s'.disk.files[node] == s.disk.files[node])
      && (q.verb == "WRITE" && Gate(cfg, q.path, q.body).Some? ==> s' == s && response.status != "OK")
  {
    hide Against;
    hide Resolve;
    hide Canonical;
    hide Split;
    hide Join;
    JoinSplit(path, '/');
  }

  ghost function ServedAll(cfg: Config, root: Node, s: Store, requests: seq<Request>): Store {
    if requests == [] then s
    else Dispatched(cfg, root, ServedAll(cfg, root, s, requests[..|requests| - 1]), requests[|requests| - 1]).0
  }

  /** Some request so far was an accepted WRITE of this file. */
  ghost predicate Stored(cfg: Config, root: Node, s: Store, requests: seq<Request>, path: string) {
    exists i :: 0 <= i < |requests| && Accepts(cfg, root, ServedAll(cfg, root, s, requests[..i]), requests[i], path)
  }

  lemma StoredSplit(cfg: Config, root: Node, s: Store, requests: seq<Request>, path: string)
    requires requests != []
    ensures var n := |requests| - 1;
      Stored(cfg, root, s, requests, path)
      <==> Stored(cfg, root, s, requests[..n], path)
           || Accepts(cfg, root, ServedAll(cfg, root, s, requests[..n]), requests[n], path)
  {
    hide Accepts;
    hide ServedAll;
    var n := |requests| - 1;
    assert forall i :: 0 <= i < n ==> requests[..n][..i] == requests[..i] && requests[..n][i] == requests[i];
    if Stored(cfg, root, s, requests[..n], path) {
      var i :| 0 <= i < n
               && Accepts(cfg, root, ServedAll(cfg, root, s, requests[..n][..i]), requests[..n][i], path);
      assert Accepts(cfg, root, ServedAll(cfg, root, s, requests[..i]), requests[i], path);
    }
    if Stored(cfg, root, s, requests, path) {
      var i :| 0 <= i < |requests| && Accepts(cfg, root, ServedAll(cfg, root, s, requests[..i]), requests[i], path);
      assert i < n ==> Accepts(cfg, root, ServedAll(cfg, root, s, requests[..n][..i]), requests[..n][i], path);
    }
  }

  /**
   On any disk and after any requests, as long as the writes of a file spell it as the gate routes it: the file is
   gated if it was at the start or some request was an accepted WRITE of it; and if none was, what it holds is what
   it held.
   */
  lemma {:induction false} GateHolds(cfg: Config, root: Node, s: Store, requests: seq<Request>, path: string)
    requires forall q :: q in requests && Aims(root, q, path) ==> RoutedAlike(cfg, root, q.path)
    requires Canonical(path)
    ensures var d := ServedAll(cfg, root, s, requests).disk;
      var node := Split(path, '/');
      && (Gated(cfg, s.disk, path) || Stored(cfg, root, s, requests, path) ==> Gated(cfg, d, path))
      && (!Stored(cfg, root, s, requests, path) && node in d.files ==>
            node in s.disk.files && d.files[node] == s.disk.files[node])
  {
    hide Gate;
    hide Aims;
    hide Accepts;
    hide Stored;
    hide Dispatched;
    hide RoutedAlike;
    hide Canonical;
    if requests == [] {
      NothingStored(cfg, root, s, path);
    } else {
      var n := |requests| - 1;
      assert requests[n] in requests && forall q :: q in requests[..n] ==> q in requests;
      GateHolds(cfg, root, s, requests[..n], path);
      StoredSplit(cfg, root, s, requests, path);
      DispatchKeepsGate(cfg, root, ServedAll(cfg, root, s, requests[..n]), requests[n], path);
    }
  }

  lemma NothingStored(cfg: Config, root: Node, s: Store, path: string)
    ensures !Stored(cfg, root, s, [], path)
  {
  }

  /** What it means for a registered file to be gated. */
  lemma GatedConforms(cfg: Config, d: Disk, path: string)
    requires Split(path, '/') in d.files && Schema.SchemaOf(cfg.registry, path).Some?
    ensures var body := d.files[Split(path, '/')];
      Gated(cfg, d, path) <==>
        && Decode(body).Some?
        && Frontmatter.Parse(cfg.yaml, Decode(body).value).Ok?
        && Schema.Conforms(Frontmatter.Parse(cfg.yaml, Decode(body).value).value.0,
                           Schema.SchemaOf(cfg.registry, path).value)
  {
  }

  /**
   With canonical spellings throughout: every file under a registered prefix last stored by an accepted WRITE
   decodes, parses and conforms to the schema of the longest prefix that matches its path, whatever the disk held.
   */
  lemma StoredConforms(cfg: Config, root: Node, s: Store, requests: seq<Request>, path: string)
    requires forall q :: q in requests && q.verb == "WRITE" ==> Canonical(q.path)
    requires Canonical(path) && Stored(cfg, root, s, requests, path)
    ensures var d := ServedAll(cfg, root, s, requests).disk;
      var node := Split(path, '/');
      var schema := Schema.SchemaOf(cfg.registry, path);
      node in d.files && schema.Some? ==>
        && Decode(d.files[node]).Some?
        && Frontmatter.Parse(cfg.yaml, Decode(d.files[node]).value).Ok?
        && Schema.Conforms(Frontmatter.Parse(cfg.yaml, Decode(d.files[node]).value).value.0, schema.value)
  {
    hide Gate;
    hide Gated;
    hide Stored;
    hide Canonical;
    hide RoutedAlike;
    hide ServedAll;
    forall q | q in requests && Aims(root, q, path) ensures RoutedAlike(cfg, root, q.path) {
      CanonicalIsRoutedAlike(cfg, root, q.path);
    }
    GateHolds(cfg, root, s, requests, path);
    var d := ServedAll(cfg, root, s, requests).disk;
    if Split(path, '/') in d.files && Schema.SchemaOf(cfg.registry, path).Some? {
      GatedConforms(cfg, d, path);
    }
  }
}
