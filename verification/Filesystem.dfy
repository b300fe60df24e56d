/** Path discipline and file operations under a vault root (axiom-store/filesystem.py). */
module Filesystem {
  import opened Wrappers
  import opened Text
  import opened Utf8

  /** The name of a file or directory, segment by segment, below the vault root unless said otherwise. */
  type Node = seq<string>

  datatype FsError = InvalidVaultPath | FileNotFound | IsADirectory | NotADirectory

  /** The directories that exist and the files with their bytes. */
  datatype Disk = Disk(files: map<Node, bytes>, dirs: set<Node>)

  // ----- path discipline ---------------------------------------------------------------------------

  /** Lexical resolution from `base`: empty and dot segments drop out, dot-dot goes up, stopping at the top. */
  function Walk(base: Node, segments: seq<string>): Node
    decreases |segments|
  {
    if segments == [] then base
    else
      var s := segments[0];
      var next := if s == "" || s == "." then base
                  else if s == ".." then (if base == [] then [] else base[..|base| - 1])
                  else base + [s];
      Walk(next, segments[1..])
  }

  /** Where a vault path leads below `root`, which is itself an absolute name. */
  function Resolve(root: Node, path: string): Result<Node, FsError> {
    if path == "" || '\0' in path || '\\' in path || path[0] == '/' then Err(InvalidVaultPath)
    else
      var candidate := Walk(root, Split(path, '/'));
      if root <= candidate then Ok(candidate[|root|..]) else Err(InvalidVaultPath)
  }

  /** A spelling with no segment that resolution would drop or follow. */
  predicate Canonical(path: string) {
    && '\0' !in path && '\\' !in path
    && forall s :: s in Split(path, '/') ==> s != "" && s != "." && s != ".."
  }

  lemma {:induction false} WalkPlain(base: Node, segments: seq<string>)
    requires forall s :: s in segments ==> s != "" && s != "." && s != ".."
    ensures Walk(base, segments) == base + segments
    decreases |segments|
  {
    if segments == [] {
      assert base + segments == base;
    } else {
      assert segments[0] in segments && forall s :: s in segments[1..] ==> s in segments;
      WalkPlain(base + [segments[0]], segments[1..]);
      assert base + [segments[0]] + segments[1..] == base + segments;
    }
  }

  lemma LeadingSlash(path: string)
    ensures path != "" && path[0] == '/' ==> Split(path, '/')[0] == ""
  {
  }

  /** A canonical path leads to its own segments, under any root. */
  lemma CanonicalResolves(root: Node, path: string)
    requires Canonical(path)
    ensures Resolve(root, path) == Ok(Split(path, '/')) && path != ""
  {
    var segments := Split(path, '/');
    assert segments[0] in segments;
    LeadingSlash(path);
    WalkPlain(root, segments);
    assert (root + segments)[|root|..] == segments;
  }

  /** Two canonical spellings of one file are the same spelling. */
  lemma CanonicalUnique(root: Node, p: string, q: string)
    requires Canonical(p) && Canonical(q) && Resolve(root, p) == Resolve(root, q)
    ensures p == q
  {
    CanonicalResolves(root, p);
    CanonicalResolves(root, q);
    JoinSplit(p, '/');
    JoinSplit(q, '/');
  }

  /** A name that resolution takes for itself. */
  predicate PlainSegment(s: string) {
    s != "" && s != "." && s != ".." && '/' !in s && '\0' !in s && '\\' !in s
  }

  lemma {:induction false} WalkPlainBelow(n: nat, base: Node, segments: seq<string>)
    requires forall i :: n <= i < |base| ==> PlainSegment(base[i])
    requires forall s :: s in segments ==> '/' !in s && '\0' !in s && '\\' !in s
    ensures forall i :: n <= i < |Walk(base, segments)| ==> PlainSegment(Walk(base, segments)[i])
    decreases |segments|
  {
    if segments != [] {
      var s := segments[0];
      assert s in segments;
      var next := if s == "" || s == "." then base
                  else if s == ".." then (if base == [] then [] else base[..|base| - 1])
                  else base + [s];
      WalkPlainBelow(n, next, segments[1..]);
    }
  }

  /** Every file below the root has a canonical spelling, and only one. */
  lemma ResolvedCanonical(root: Node, path: string)
    requires Resolve(root, path).Ok? && Resolve(root, path).value != []
    ensures var node := Resolve(root, path).value;
      Canonical(Join(node, '/')) && Split(Join(node, '/'), '/') == node
  {
    var node := Resolve(root, path).value;
    var segments := Split(path, '/');
    JoinSplit(path, '/');
    forall s | s in segments ensures '/' !in s && '\0' !in s && '\\' !in s {
      SegmentWithin(path, '/', s, '\0');
      SegmentWithin(path, '/', s, '\\');
    }
    WalkPlainBelow(|root|, root, segments);
    forall s | s in node ensures PlainSegment(s) {
      var i :| 0 <= i < |node| && node[i] == s;
      assert s == Walk(root, segments)[|root| + i];
    }
    SplitJoin(node, '/');
    JoinWithout(node, '/', '\0');
    JoinWithout(node, '/', '\\');
  }

  // ----- dots ----------------------------------------------------------------------------------------

  lemma {:induction false} WalkAppend(base: Node, a: seq<string>, b: seq<string>)
    ensures Walk(base, a + b) == Walk(Walk(base, a), b)
    decreases |a|
  {
    if a == [] {
      assert a + b == b;
    } else {
      assert (a + b)[0] == a[0] && (a + b)[1..] == a[1..] + b;
      var s := a[0];
      var next := if s == "" || s == "." then base
                  else if s == ".." then (if base == [] then [] else base[..|base| - 1])
                  else base + [s];
      WalkAppend(next, a[1..], b);
    }
  }

  /** How many levels up a relative path leads, and the names it then goes down. */
  datatype Lexical = Lexical(ups: nat, names: Node)

  function Normal(segments: seq<string>): Lexical {
    if segments == [] then Lexical(0, [])
    else
      var before, s := Normal(segments[..|segments| - 1]), segments[|segments| - 1];
      if s == "" || s == "." then before
      else if s != ".." then before.(names := before.names + [s])
      else if before.names != [] then before.(names := before.names[..|before.names| - 1])
      else before.(ups := before.ups + 1)
  }

  /** The part of `base` that is left after so many levels up; at the top, up leads nowhere. */
  function Above(base: Node, ups: nat): Node {
    if ups <= |base| then base[..|base| - ups] else []
  }

  lemma {:induction false} WalkIsNormal(base: Node, segments: seq<string>)
    ensures Walk(base, segments) == Above(base, Normal(segments).ups) + Normal(segments).names
  {
    if segments != [] {
      var n := |segments| - 1;
      var before, s := Normal(segments[..n]), segments[n];
      WalkIsNormal(base, segments[..n]);
      assert segments == segments[..n] + [s];
      WalkAppend(base, segments[..n], [s]);
      var mid := Walk(base, segments[..n]);
      WalkOne(mid, s);
      if s == ".." && before.names != [] {
        assert mid[..|mid| - 1] == Above(base, before.ups) + before.names[..|before.names| - 1];
      } else if s == ".." {
        assert Above(base, before.ups + 1)
            == if Above(base, before.ups) == [] then [] else Above(base, before.ups)[..|Above(base, before.ups)| - 1];
      } else if s != "" && s != "." {
        assert (Above(base, before.ups) + before.names) + [s] == Above(base, before.ups) + (before.names + [s]);
      }
    }
  }

  lemma WalkOne(base: Node, s: string)
    ensures Walk(base, [s]) == if s == "" || s == "." then base
                               else if s == ".." then (if base == [] then [] else base[..|base| - 1])
                               else base + [s]
  {
    assert [s][1..] == [];
  }

  predicate Named(s: string) {
    s != "" && s != "." && s != ".."
  }

  /** Names less dot-dots. */
  function Level(segments: seq<string>): int {
    if segments == [] then 0
    else
      var s := segments[|segments| - 1];
      Level(segments[..|segments| - 1]) + if s == ".." then -1 else if Named(s) then 1 else 0
  }

  /** Somewhere along the path its dot-dots outnumber the names before them. */
  ghost predicate Sinks(segments: seq<string>) {
    exists k :: 0 <= k <= |segments| && Level(segments[..k]) < 0
  }

  lemma {:induction false} UpsWhenSinking(segments: seq<string>)
    ensures Normal(segments).ups > 0 <==> Sinks(segments)
    ensures |Normal(segments).names| - Normal(segments).ups == Level(segments)
  {
    assert segments[..|segments|] == segments;
    if segments != [] {
      var n := |segments| - 1;
      UpsWhenSinking(segments[..n]);
      assert forall k :: 0 <= k <= n ==> segments[..n][..k] == segments[..k];
      if Sinks(segments[..n]) {
        var k :| 0 <= k <= n && Level(segments[..n][..k]) < 0;
        assert Level(segments[..k]) < 0;
      }
      if Sinks(segments) {
        var k :| 0 <= k <= |segments| && Level(segments[..k]) < 0;
        assert k <= n ==> Level(segments[..n][..k]) < 0;
        assert k == |segments| ==> Level(segments) < 0;
      }
    }
  }

  /** A spelling that is turned away for its characters. */
  predicate Malformed(path: string) {
    path == "" || '\0' in path || '\\' in path || path[0] == '/'
  }

  /** The root's own names that the path has to spell again to come back after going up. */
  function WayBack(root: Node, ups: nat): Node {
    root[|Above(root, ups)|..]
  }

  /**
   Where a path leads: refused exactly when it is malformed, or goes up out of the root and does not spell its way
   back; and otherwise to the names it goes down, less that way back.
   */
  lemma ResolveExactly(root: Node, path: string)
    ensures var lexical := Normal(Split(path, '/'));
      var back := WayBack(root, lexical.ups);
      Resolve(root, path)
      == if Malformed(path) || !(back <= lexical.names) then Err(InvalidVaultPath)
         else Ok(lexical.names[|back|..])
    ensures Sinks(Split(path, '/')) <==> Normal(Split(path, '/')).ups > 0
    ensures !Sinks(Split(path, '/')) ==> WayBack(root, Normal(Split(path, '/')).ups) == []
  {
    var segments := Split(path, '/');
    var lexical := Normal(segments);
    UpsWhenSinking(segments);
    WalkIsNormal(root, segments);
    var up, back := Above(root, lexical.ups), WayBack(root, lexical.ups);
    assert root == up + back;
    var candidate := up + lexical.names;
    assert candidate[|up|..] == lexical.names;
    if root <= candidate {
      assert lexical.names[..|back|] == candidate[|up|..|up| + |back|] == root[|up|..] == back;
      assert candidate[|root|..] == lexical.names[|back|..];
    }
    if back <= lexical.names {
      assert candidate[..|root|] == up + lexical.names[..|back|];
    }
  }

  /** A path whose dot-dots outnumber the names before them is refused unless it spells the root's own name again. */
  lemma EscapesRefused(root: Node, path: string)
    requires root != [] && Sinks(Split(path, '/')) && root[|root| - 1] !in Split(path, '/')
    ensures Resolve(root, path) == Err(InvalidVaultPath)
  {
    var lexical := Normal(Split(path, '/'));
    ResolveExactly(root, path);
    NamesFromPath(Split(path, '/'));
    var back := WayBack(root, lexical.ups);
    assert back != [] && back[|back| - 1] == root[|root| - 1];
    PrefixMember(back, lexical.names);
  }

  lemma PrefixMember(a: Node, b: Node)
    requires a != []
    ensures a <= b ==> a[|a| - 1] in b
  {
  }

  lemma {:induction false} NamesFromPath(segments: seq<string>)
    ensures forall n :: n in Normal(segments).names ==> n in segments
  {
    if segments != [] {
      NamesFromPath(segments[..|segments| - 1]);
    }
  }

  /** A name and the dot-dot right after it can be dropped together. */
  lemma DotDotCancels(root: Node, before: string, name: string, after: string)
    requires Named(name) && '/' !in name && '\0' !in name && '\\' !in name
    requires before != "" && !Malformed(before)
    ensures Resolve(root, before + "/" + (name + "/" + (".." + "/" + after))) == Resolve(root, before + "/" + after)
  {
    var long, short := before + "/" + (name + "/" + (".." + "/" + after)), before + "/" + after;
    var a, b := Split(before, '/'), Split(after, '/');
    assert short == before + ['/'] + after;
    SplitAt(before, '/', after);
    assert long == before + ['/'] + (name + ['/'] + (".." + ['/'] + after));
    SplitAt(before, '/', name + ['/'] + (".." + ['/'] + after));
    SplitAt(name, '/', ".." + ['/'] + after);
    SplitAt("..", '/', after);
    SplitWhole(name, '/');
    SplitWhole("..", '/');
    assert Split(long, '/') == a + ([name] + ([".."] + b));
    WalkAppend(root, a, [name] + ([".."] + b));
    WalkAppend(root, a, b);
    var mid := Walk(root, a);
    WalkAppend(mid, [name], [".."] + b);
    WalkAppend(Walk(mid, [name]), [".."], b);
    WalkOne(mid, name);
    WalkOne(mid + [name], "..");
    assert (mid + [name])[..|mid|] == mid;
    assert long[0] == before[0] == short[0];
    assert '\0' in long <==> '\0' in short;
    assert '\\' in long <==> '\\' in short;
  }

  // ----- operations on a disk ------------------------------------------------------------------------

  /** Some proper ancestor is a file, so the system call fails on the way down. */
  predicate Blocked(d: Disk, node: Node) {
    exists k :: 0 <= k < |node| && node[..k] in d.files
  }

  function ReadFile(d: Disk, node: Node): Result<bytes, FsError> {
    if node in d.files then Ok(d.files[node])
    else if node in d.dirs then Err(IsADirectory)
    else if Blocked(d, node) then Err(NotADirectory)
    else Err(FileNotFound)
  }

  function Ancestors(node: Node): set<Node> {
    set k | 0 <= k < |node| :: node[..k]
  }

  function WriteFile(d: Disk, node: Node, body: bytes): Result<Disk, FsError> {
    if Blocked(d, node) then Err(NotADirectory)
    else if node in d.dirs then Err(IsADirectory)
    else Ok(Disk(d.files[node := body], d.dirs + Ancestors(node)))
  }

  function DeleteFile(d: Disk, node: Node): Result<Disk, FsError> {
    if node in d.dirs then Err(IsADirectory)
    else if node in d.files then Ok(d.(files := d.files - {node}))
    else if Blocked(d, node) then Err(NotADirectory)
    else Err(FileNotFound)
  }

  /** Names of the regular files directly in a directory. */
  function FileNames(d: Disk, node: Node): set<string> {
    set f | f in d.files && f != [] && f[..|f| - 1] == node :: f[|f| - 1]
  }

  ghost function ListNode(d: Disk, node: Node): Result<seq<string>, FsError> {
    if node in d.dirs then Ok(Sorted(FileNames(d, node)))
    else if node in d.files then Err(NotADirectory)
    else Err(FileNotFound)
  }

  /** Files and directories do not overlap, and every ancestor of either is a directory. */
  predicate DiskOk(d: Disk) {
    && d.files.Keys !! d.dirs
    && (forall f :: f in d.files ==> Ancestors(f) <= d.dirs)
    && (forall n :: n in d.dirs ==> Ancestors(n) <= d.dirs)
  }

  lemma WriteKeepsDisk(d: Disk, node: Node, body: bytes)
    requires DiskOk(d) && WriteFile(d, node, body).Ok?
    ensures DiskOk(WriteFile(d, node, body).value)
  {
    var d' := WriteFile(d, node, body).value;
    forall n | n in Ancestors(node) ensures Ancestors(n) <= Ancestors(node) && n !in d'.files {
      var k :| 0 <= k < |node| && n == node[..k];
      forall j | 0 <= j < k ensures n[..j] == node[..j] {
      }
    }
  }

  lemma DeleteKeepsDisk(d: Disk, node: Node)
    requires DiskOk(d) && DeleteFile(d, node).Ok?
    ensures DiskOk(DeleteFile(d, node).value)
  {
  }

  /** On a well-formed disk nothing that exists has a file above it. */
  lemma ExistingNotBlocked(d: Disk, node: Node)
    requires DiskOk(d) && (node in d.files || node in d.dirs)
    ensures !Blocked(d, node)
  {
    forall k | 0 <= k < |node| ensures node[..k] !in d.files {
      assert node[..k] in Ancestors(node);
    }
  }

  // ----- the vault file system -----------------------------------------------------------------------

  class VaultFS {
    const root: Node
    var disk: Disk

    constructor (root: Node, disk: Disk)
      ensures this.root == root && this.disk == disk
    {
      this.root, this.disk := root, disk;
    }

    method Read(path: string) returns (r: Result<bytes, FsError>)
      ensures r == FsRead(root, disk, path)
    {
      var target := Resolve(root, path);
      match target {
        case Err(e) => r := Err(e);
        case Ok(node) => r := ReadFile(disk, node);
      }
    }

    method Write(path: string, body: bytes) returns (r: Result<(), FsError>)
      modifies this`disk
      ensures (disk, r) == FsWrite(root, old(disk), path, body)
    {
      var target := Resolve(root, path);
      if target.Err? {
        return Err(target.error);
      }
      var next := WriteFile(disk, target.value, body);
      if next.Err? {
        return Err(next.error);
      }
      disk := next.value;
      r := Ok(());
    }

    method Delete(path: string) returns (r: Result<(), FsError>)
      modifies this`disk
      ensures (disk, r) == FsDelete(root, old(disk), path)
    {
      var target := Resolve(root, path);
      if target.Err? {
        return Err(target.error);
      }
      var next := DeleteFile(disk, target.value);
      if next.Err? {
        return Err(next.error);
      }
      disk := next.value;
      r := Ok(());
    }

    method ListDir(path: string) returns (r: Result<seq<string>, FsError>)
      ensures r == FsList(root, disk, path)
    {
      var target := if path == "" || path == "." then Ok([]) else Resolve(root, path);
      if target.Err? {
        return Err(target.error);
      }
      if target.value !in disk.dirs && target.value !in disk.files {
        return Err(FileNotFound);
      }
      if target.value !in disk.dirs {
        return Err(NotADirectory);
      }
      var names := SortNames(FileNames(disk, target.value));
      r := Ok(names);
    }
  }

  // The same operations as functions of the disk.

  function FsRead(root: Node, d: Disk, path: string): Result<bytes, FsError> {
    match Resolve(root, path)
    case Err(e) => Err(e)
    case Ok(node) => ReadFile(d, node)
  }

  function FsWrite(root: Node, d: Disk, path: string, body: bytes): (Disk, Result<(), FsError>) {
    match Resolve(root, path)
    case Err(e) => (d, Err(e))
    case Ok(node) =>
      match WriteFile(d, node, body)
      case Err(e) => (d, Err(e))
      case Ok(d') => (d', Ok(()))
  }

  function FsDelete(root: Node, d: Disk, path: string): (Disk, Result<(), FsError>) {
    match Resolve(root, path)
    case Err(e) => (d, Err(e))
    case Ok(node) =>
      match DeleteFile(d, node)
      case Err(e) => (d, Err(e))
      case Ok(d') => (d', Ok(()))
  }

  ghost function FsList(root: Node, d: Disk, path: string): Result<seq<string>, FsError> {
    if path == "" || path == "." then ListNode(d, [])
    else
      match Resolve(root, path)
      case Err(e) => Err(e)
      case Ok(node) => ListNode(d, node)
  }

  /** What a write stores is what a read of any spelling of that file returns, and nothing else changes. */
  lemma ReadAfterWrite(root: Node, d: Disk, path: string, body: bytes, other: string)
    requires DiskOk(d) && FsWrite(root, d, path, body).1.Ok?
    ensures var d' := FsWrite(root, d, path, body).0;
      FsRead(root, d', other) ==
        if Resolve(root, other) == Resolve(root, path) then Ok(body)
        else if FsRead(root, d, other) != Err(FileNotFound) then FsRead(root, d, other)
        else if Resolve(root, other).value in d'.dirs then Err(IsADirectory)
        else if Blocked(d', Resolve(root, other).value) then Err(NotADirectory)
        else FsRead(root, d, other)
  {
    var d' := FsWrite(root, d, path, body).0;
    if Resolve(root, other).Ok? {
      var node, n := Resolve(root, path).value, Resolve(root, other).value;
      WriteKeepsDisk(d, node, body);
      if n in d'.files {
        ExistingNotBlocked(d', n);
      }
      if Blocked(d, n) && n != node {
        var k :| 0 <= k < |n| && n[..k] in d.files;
        assert n[..k] in d'.files && n[..k] in Ancestors(n);
        assert n !in d'.dirs;
      }
    }
  }

  /** A deleted file is gone under every spelling, and every other read is as before. */
  lemma ReadAfterDelete(root: Node, d: Disk, path: string, other: string)
    requires DiskOk(d)
    ensures FsDelete(root, d, path).1.Ok? <==> FsRead(root, d, path).Ok?
    ensures FsDelete(root, d, path).1.Ok? ==>
      var d' := FsDelete(root, d, path).0;
      && DiskOk(d')
      && FsRead(root, d', other)
         == if Resolve(root, other).Ok? && Resolve(root, path).value <= Resolve(root, other).value
            then Err(FileNotFound) else FsRead(root, d, other)
  {
    hide Resolve;
    hide Blocked;
    hide Ancestors;
    if FsDelete(root, d, path).1.Ok? {
      var node := Resolve(root, path).value;
      DeleteKeepsDisk(d, node);
      if Resolve(root, other).Ok? {
        BlockedAfterDelete(d, node, Resolve(root, other).value);
      }
    }
  }

  /** Nothing exists below a file. */
  lemma NothingBelow(d: Disk, file: Node, n: Node)
    requires DiskOk(d) && file in d.files && file < n
    ensures n !in d.files && n !in d.dirs
  {
    assert n[..|file|] == file && file in Ancestors(n);
  }

  /** Deleting a file unblocks what lies below it and nothing else. */
  lemma BlockedAfterDelete(d: Disk, gone: Node, n: Node)
    requires DiskOk(d) && gone in d.files
    ensures var d' := d.(files := d.files - {gone});
      if gone <= n then !Blocked(d', n) && n !in d'.files && n !in d'.dirs else (Blocked(d', n) <==> Blocked(d, n))
  {
    var d' := d.(files := d.files - {gone});
    if gone <= n {
      forall k | 0 <= k <= |n| ensures n[..k] !in d'.files {
        BelowOrAbove(d, gone, n, k);
      }
      assert n[..|n|] == n;
      if n != gone {
        NothingBelow(d, gone, n);
      }
    } else {
      assert forall k :: 0 <= k < |n| ==> n[..k] != gone;
    }
  }

  lemma BelowOrAbove(d: Disk, gone: Node, n: Node, k: nat)
    requires DiskOk(d) && gone in d.files && gone <= n && k <= |n|
    ensures n[..k] == gone || n[..k] !in d.files
  {
    if k < |gone| {
      assert n[..k] == gone[..k] && gone[..k] in Ancestors(gone);
    } else if k == |gone| {
      assert n[..k] == gone;
    } else {
      NothingBelow(d, gone, n[..k]);
    }
  }

  /** A delete raises what a read raises, and succeeds where a read does. */
  lemma DeleteLikeRead(root: Node, d: Disk, path: string)
    requires DiskOk(d)
    ensures FsDelete(root, d, path).1
         == match FsRead(root, d, path)
            case Ok(_) => Ok(())
            case Err(e) => Err(e)
  {
  }

  /** A write succeeds where a read does or finds nothing, and otherwise raises what the read raises. */
  lemma WriteLikeRead(root: Node, d: Disk, path: string, body: bytes)
    requires DiskOk(d)
    ensures FsWrite(root, d, path, body).1
         == match FsRead(root, d, path)
            case Ok(_) => Ok(())
            case Err(e) => if e == FileNotFound then Ok(()) else Err(e)
  {
    match Resolve(root, path)
    case Err(_) =>
    case Ok(node) =>
      if node in d.files || node in d.dirs {
        ExistingNotBlocked(d, node);
      }
  }

  /** A listing succeeds where a read finds a directory, finds no directory in a file, and otherwise finds nothing. */
  lemma ListLikeRead(root: Node, d: Disk, path: string)
    requires DiskOk(d) && path != "" && path != "."
    ensures match FsRead(root, d, path)
      case Ok(_) => FsList(root, d, path) == Err(NotADirectory)
      case Err(IsADirectory) => FsList(root, d, path).Ok?
      case Err(InvalidVaultPath) => FsList(root, d, path) == Err(InvalidVaultPath)
      case Err(_) => FsList(root, d, path) == Err(FileNotFound)
  {
  }

  /** What a listing names: the files directly inside. */
  lemma NamesListed(d: Disk, node: Node, name: string)
    requires ListNode(d, node).Ok?
    ensures name in ListNode(d, node).value <==> node + [name] in d.files
  {
    var names := ListNode(d, node).value;
    assert name in names <==> name in Members(names);
    if name in FileNames(d, node) {
      var f :| f in d.files && f != [] && f[..|f| - 1] == node && name == f[|f| - 1];
      assert f == node + [name];
    }
    if node + [name] in d.files {
      var f := node + [name];
      assert f[..|f| - 1] == node && f[|f| - 1] == name;
    }
  }
}
