/** The write-through cache, keyed by the spelling of a path (axiom-store/cache.py). */
module Cache {
  import opened Wrappers
  import opened Utf8
  import opened Filesystem

  /** The cached store seen as a value. */
  datatype Store = Store(disk: Disk, entries: map<string, bytes>, hits: nat, misses: nat)

  datatype Op = Read(path: string) | Write(path: string, body: bytes) | Delete(path: string) | ListDir(path: string)

  datatype Reply = Bytes(body: bytes) | Done | Names(names: seq<string>) | Failed(error: FsError)

  function Answer(r: Result<(), FsError>): Reply {
    match r
    case Ok(_) => Done
    case Err(e) => Failed(e)
  }

  function CachedRead(root: Node, s: Store, path: string): (Store, Result<bytes, FsError>) {
    if path in s.entries then (s.(hits := s.hits + 1), Ok(s.entries[path]))
    else
      var missed := s.(misses := s.misses + 1);
      match FsRead(root, s.disk, path)
      case Err(e) => (missed, Err(e))
      case Ok(body) => (missed.(entries := s.entries[path := body]), Ok(body))
  }

  function CachedWrite(root: Node, s: Store, path: string, body: bytes): (Store, Result<(), FsError>) {
    var (disk, r) := FsWrite(root, s.disk, path, body);
    (if r.Ok? then s.(disk := disk, entries := s.entries[path := body]) else s, r)
  }

  function CachedDelete(root: Node, s: Store, path: string): (Store, Result<(), FsError>) {
    var (disk, r) := FsDelete(root, s.disk, path);
    (if r.Ok? then s.(disk := disk, entries := s.entries - {path}) else s, r)
  }

  class CachedVaultStore {
    const fs: VaultFS
    var cache: map<string, bytes>
    var hits: nat
    var misses: nat

    constructor (fs: VaultFS)
      ensures this.fs == fs && cache == map[] && hits == 0 && misses == 0
    {
      this.fs := fs;
      cache, hits, misses := map[], 0, 0;
    }

    function State(): Store
      reads this, fs
    {
      Store(fs.disk, cache, hits, misses)
    }

    method Read(path: string) returns (r: Result<bytes, FsError>)
      modifies this
      ensures (State(), r) == CachedRead(fs.root, old(State()), path)
    {
      if path in cache {
        hits := hits + 1;
        return Ok(cache[path]);
      }
      misses := misses + 1;
      r := fs.Read(path);
      if r.Ok? {
        cache := cache[path := r.value];
      }
    }

    method Write(path: string, body: bytes) returns (r: Result<(), FsError>)
      modifies this, fs
      ensures (State(), r) == CachedWrite(fs.root, old(State()), path, body)
    {
      r := fs.Write(path, body);
      if r.Ok? {
        cache := cache[path := body];
      }
    }

    method Delete(path: string) returns (r: Result<(), FsError>)
      modifies this, fs
      ensures (State(), r) == CachedDelete(fs.root, old(State()), path)
    {
      r := fs.Delete(path);
      if r.Ok? {
        cache := cache - {path};
      }
    }

    method ListDir(path: string) returns (r: Result<seq<string>, FsError>)
      ensures r == FsList(fs.root, fs.disk, path)
    {
      r := fs.ListDir(path);
    }
  }

  // ----- runs ------------------------------------------------------------------------------------------

  ghost function Step(root: Node, s: Store, op: Op): (Store, Reply) {
    match op
    case Read(p) =>
      var (s', r) := CachedRead(root, s, p);
      (s', match r case Ok(body) => Bytes(body) case Err(e) => Failed(e))
    case Write(p, body) => var (s', r) := CachedWrite(root, s, p, body); (s', Answer(r))
    case Delete(p) => var (s', r) := CachedDelete(root, s, p); (s', Answer(r))
    case ListDir(p) => (s, match FsList(root, s.disk, p) case Ok(names) => Names(names) case Err(e) => Failed(e))
  }

  /** The uncached store. */
  ghost function PlainStep(root: Node, d: Disk, op: Op): (Disk, Reply) {
    match op
    case Read(p) => (d, match FsRead(root, d, p) case Ok(body) => Bytes(body) case Err(e) => Failed(e))
    case Write(p, body) => var (d', r) := FsWrite(root, d, p, body); (d', Answer(r))
    case Delete(p) => var (d', r) := FsDelete(root, d, p); (d', Answer(r))
    case ListDir(p) => (d, match FsList(root, d, p) case Ok(names) => Names(names) case Err(e) => Failed(e))
  }

  /** The state after a run, from the end. */
  ghost function After(root: Node, s: Store, ops: seq<Op>): Store {
    if ops == [] then s else Step(root, After(root, s, ops[..|ops| - 1]), ops[|ops| - 1]).0
  }

  ghost function Replies(root: Node, s: Store, ops: seq<Op>): seq<Reply> {
    if ops == [] then []
    else Replies(root, s, ops[..|ops| - 1]) + [Step(root, After(root, s, ops[..|ops| - 1]), ops[|ops| - 1]).1]
  }

  ghost function PlainAfter(root: Node, d: Disk, ops: seq<Op>): Disk {
    if ops == [] then d else PlainStep(root, PlainAfter(root, d, ops[..|ops| - 1]), ops[|ops| - 1]).0
  }

  ghost function PlainReplies(root: Node, d: Disk, ops: seq<Op>): seq<Reply> {
    if ops == [] then []
    else
      var init, op := ops[..|ops| - 1], ops[|ops| - 1];
      PlainReplies(root, d, init) + [PlainStep(root, PlainAfter(root, d, init), op).1]
  }

  function Empty(d: Disk): Store {
    Store(d, map[], 0, 0)
  }

  // ----- freshness ---------------------------------------------------------------------------------------

  /** Different spellings of one file. */
  predicate Alias(root: Node, p: string, q: string) {
    p != q && Resolve(root, p).Ok? && Resolve(root, p) == Resolve(root, q)
  }

  predicate Touches(root: Node, op: Op, p: string) {
    (op.Write? || op.Delete?) && Alias(root, op.path, p)
  }

  /** The step stores an entry for `p`: a write of `p`, or a read of `p` that misses, if it succeeds. */
  ghost predicate Fills(root: Node, s: Store, op: Op, p: string) {
    op.path == p && (op.Write? || (op.Read? && p !in s.entries)) && !Step(root, s, op).1.Failed?
  }

  /** Since the entry of `p` was last filled, another spelling of its file was written or deleted. */
  ghost predicate AliasedSinceFill(root: Node, s: Store, ops: seq<Op>, p: string) {
    && ops != []
    && var before := After(root, s, ops[..|ops| - 1]);
       var op := ops[|ops| - 1];
       Touches(root, op, p) || (!Fills(root, before, op, p) && AliasedSinceFill(root, s, ops[..|ops| - 1], p))
  }

  /** If `p` has an entry, it holds what the disk holds. */
  predicate FreshEntry(root: Node, s: Store, p: string) {
    p in s.entries ==> FsRead(root, s.disk, p) == Ok(s.entries[p])
  }

  lemma StepFresh(root: Node, s: Store, op: Op, p: string)
    requires DiskOk(s.disk)
    ensures DiskOk(Step(root, s, op).0.disk)
    ensures FreshEntry(root, s, p) && !Touches(root, op, p) ==> FreshEntry(root, Step(root, s, op).0, p)
    ensures Fills(root, s, op, p) ==> FreshEntry(root, Step(root, s, op).0, p)
  {
    match op
    case Write(q, body) =>
      if FsWrite(root, s.disk, q, body).1.Ok? {
        WriteKeepsDisk(s.disk, Resolve(root, q).value, body);
        ReadAfterWrite(root, s.disk, q, body, p);
      }
    case Delete(q) =>
      if FsDelete(root, s.disk, q).1.Ok? {
        DeleteKeepsDisk(s.disk, Resolve(root, q).value);
      }
    case _ =>
  }

  /**
   On every run an entry equals the bytes on disk unless, since it was last filled, a write or delete
   used a different spelling of the same file.
   */
  lemma {:induction false} FreshUnlessAliased(root: Node, s: Store, ops: seq<Op>, p: string)
    requires DiskOk(s.disk) && FreshEntry(root, s, p)
    ensures DiskOk(After(root, s, ops).disk)
    ensures FreshEntry(root, After(root, s, ops), p) || AliasedSinceFill(root, s, ops, p)
  {
    if ops != [] {
      var n := |ops| - 1;
      FreshUnlessAliased(root, s, ops[..n], p);
      StepFresh(root, After(root, s, ops[..n]), ops[n], p);
    }
  }

  // ----- one spelling per file -----------------------------------------------------------------------------

  ghost predicate Within(ops: seq<Op>, paths: set<string>) {
    forall op :: op in ops ==> op.ListDir? || op.path in paths
  }

  ghost predicate OneSpelling(root: Node, paths: set<string>) {
    forall p, q :: p in paths && q in paths ==> !Alias(root, p, q)
  }

  lemma {:induction false} EntriesWithin(root: Node, d: Disk, ops: seq<Op>, paths: set<string>)
    requires Within(ops, paths)
    ensures After(root, Empty(d), ops).entries.Keys <= paths
  {
    if ops != [] {
      var n := |ops| - 1;
      assert ops[n] in ops && forall op :: op in ops[..n] ==> op in ops;
      EntriesWithin(root, d, ops[..n], paths);
    }
  }

  lemma {:induction false} NeverAliased(root: Node, s: Store, ops: seq<Op>, paths: set<string>, p: string)
    requires Within(ops, paths) && OneSpelling(root, paths) && p in paths
    ensures !AliasedSinceFill(root, s, ops, p)
  {
    if ops != [] {
      var n := |ops| - 1;
      assert ops[n] in ops && forall op :: op in ops[..n] ==> op in ops;
      NeverAliased(root, s, ops[..n], paths, p);
    }
  }

  /** With fresh entries a step answers and acts as the uncached store does. */
  lemma FreshStepIsPlain(root: Node, s: Store, op: Op)
    requires op.ListDir? || FreshEntry(root, s, op.path)
    ensures Step(root, s, op).0.disk == PlainStep(root, s.disk, op).0
    ensures Step(root, s, op).1 == PlainStep(root, s.disk, op).1
  {
  }

  /** With one spelling per file the cached store is observationally the uncached one. */
  lemma {:induction false} CacheTransparent(root: Node, d: Disk, ops: seq<Op>, paths: set<string>)
    requires DiskOk(d) && Within(ops, paths) && OneSpelling(root, paths)
    ensures After(root, Empty(d), ops).disk == PlainAfter(root, d, ops)
    ensures Replies(root, Empty(d), ops) == PlainReplies(root, d, ops)
  {
    if ops != [] {
      var n := |ops| - 1;
      assert ops[n] in ops && forall op :: op in ops[..n] ==> op in ops;
      CacheTransparent(root, d, ops[..n], paths);
      if !ops[n].ListDir? {
        FreshUnlessAliased(root, Empty(d), ops[..n], ops[n].path);
        NeverAliased(root, Empty(d), ops[..n], paths, ops[n].path);
      }
      FreshStepIsPlain(root, After(root, Empty(d), ops[..n]), ops[n]);
    }
  }

  const NOTHING := Disk(map[], {})

  /** Two spellings of one file are enough for a stale read. */
  lemma AliasReadsStale(root: Node, p: string, q: string)
    requires Alias(root, p, q)
    ensures var ops := [Write(p, [0]), Write(q, [1]), Op.Read(p)];
      Replies(root, Empty(NOTHING), ops) != PlainReplies(root, NOTHING, ops)
  {
    hide Replies;
    hide PlainReplies;
    hide After;
    hide PlainAfter;
    hide Ancestors;
    var w0, w1, r := Write(p, [0]), Write(q, [1]), Op.Read(p);
    var node := Resolve(root, p).value;
    var s1, d1 := Step(root, Empty(NOTHING), w0).0, PlainStep(root, NOTHING, w0).0;
    assert !Blocked(NOTHING, node) && d1 == Disk(map[node := [0]], Ancestors(node)) == s1.disk;
    NotOwnAncestor(node);
    assert !Blocked(d1, node);
    var s2, d2 := Step(root, s1, w1).0, PlainStep(root, d1, w1).0;
    assert d2.files[node] == [1] && s2.entries[p] == [0];
    NoOps(root, Empty(NOTHING));
    Snoc(root, Empty(NOTHING), [], w0);
    Snoc(root, Empty(NOTHING), [w0], w1);
    Snoc(root, Empty(NOTHING), [w0, w1], r);
    assert [] + [w0] == [w0] && [w0] + [w1] == [w0, w1] && [w0, w1] + [r] == [w0, w1, r];
    assert Step(root, s2, r).1 == Bytes([0]) && PlainStep(root, d2, r).1 == Bytes([1]);
    var cached, plain := Replies(root, Empty(NOTHING), [w0, w1, r]), PlainReplies(root, NOTHING, [w0, w1, r]);
    assert cached[|cached| - 1] == Bytes([0]) && plain[|plain| - 1] == Bytes([1]);
  }

  lemma NoOps(root: Node, s: Store)
    ensures After(root, s, []) == s && PlainAfter(root, s.disk, []) == s.disk
    ensures Replies(root, s, []) == [] && PlainReplies(root, s.disk, []) == []
  {
  }

  lemma Snoc(root: Node, s: Store, ops: seq<Op>, op: Op)
    ensures After(root, s, ops + [op]) == Step(root, After(root, s, ops), op).0
    ensures Replies(root, s, ops + [op]) == Replies(root, s, ops) + [Step(root, After(root, s, ops), op).1]
    ensures PlainAfter(root, s.disk, ops + [op]) == PlainStep(root, PlainAfter(root, s.disk, ops), op).0
    ensures PlainReplies(root, s.disk, ops + [op])
         == PlainReplies(root, s.disk, ops) + [PlainStep(root, PlainAfter(root, s.disk, ops), op).1]
  {
    assert (ops + [op])[..|ops|] == ops;
  }

  lemma NotOwnAncestor(node: Node)
    ensures node !in Ancestors(node)
    ensures forall k :: 0 <= k < |node| ==> node[..k] != node
  {
    forall k | 0 <= k < |node| ensures node[..k] != node {
      assert |node[..k]| == k;
    }
  }

  /** A set of spellings is safe for the cache on every run exactly when no two of them name one file. */
  lemma SafeSpellings(root: Node, paths: set<string>)
    ensures OneSpelling(root, paths) <==>
      forall ops :: Within(ops, paths) ==> Replies(root, Empty(NOTHING), ops) == PlainReplies(root, NOTHING, ops)
  {
    if OneSpelling(root, paths) {
      forall ops | Within(ops, paths) ensures Replies(root, Empty(NOTHING), ops) == PlainReplies(root, NOTHING, ops) {
        CacheTransparent(root, NOTHING, ops, paths);
      }
    } else {
      var p, q :| p in paths && q in paths && Alias(root, p, q);
      AliasReadsStale(root, p, q);
      assert Within([Write(p, [0]), Write(q, [1]), Op.Read(p)], paths);
    }
  }

  // ----- the counters ----------------------------------------------------------------------------------------

  function Reads(ops: seq<Op>): nat {
    if ops == [] then 0 else Reads(ops[..|ops| - 1]) + if ops[|ops| - 1].Read? then 1 else 0
  }

  /** The last operation on `p` that did not fail was a read or a write. */
  ghost predicate Cached(root: Node, d: Disk, ops: seq<Op>, p: string) {
    && ops != []
    && var init, op := ops[..|ops| - 1], ops[|ops| - 1];
       if !op.ListDir? && op.path == p && !Step(root, After(root, Empty(d), init), op).1.Failed?
       then !op.Delete?
       else Cached(root, d, init, p)
  }

  /** The reads of a run that find their path cached. */
  ghost function HitsIn(root: Node, d: Disk, ops: seq<Op>): nat {
    if ops == [] then 0
    else
      var init, op := ops[..|ops| - 1], ops[|ops| - 1];
      HitsIn(root, d, init) + if op.Read? && Cached(root, d, init, op.path) then 1 else 0
  }

  /** An entry changes with the operations on its own path that go through. */
  lemma EntryChanges(root: Node, s: Store, op: Op, p: string)
    ensures var (next, reply) := Step(root, s, op);
      p in next.entries <==> if !op.ListDir? && op.path == p && !reply.Failed? then !op.Delete? else p in s.entries
  {
  }

  /** On every run the entries are those of the paths last read or written. */
  lemma {:induction false} EntriesAre(root: Node, d: Disk, ops: seq<Op>, p: string)
    ensures p in After(root, Empty(d), ops).entries <==> Cached(root, d, ops, p)
  {
    hide Step;
    if ops != [] {
      var n := |ops| - 1;
      EntriesAre(root, d, ops[..n], p);
      EntryChanges(root, After(root, Empty(d), ops[..n]), ops[n], p);
    }
  }

  /** Hits count the reads whose path was last read or written, misses all others. */
  lemma {:induction false} CountersAre(root: Node, d: Disk, ops: seq<Op>)
    ensures var end := After(root, Empty(d), ops);
      end.hits == HitsIn(root, d, ops) && end.misses == Reads(ops) - HitsIn(root, d, ops)
  {
    hide Cached;
    if ops != [] {
      CountersAre(root, d, ops[..|ops| - 1]);
      EntriesAre(root, d, ops[..|ops| - 1], ops[|ops| - 1].path);
    }
  }
}
