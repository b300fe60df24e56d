/**
 The write gate looks a path up as it is spelled, the disk as it resolves (axiom-store/server.py,
 axiom-store/filesystem.py). Which spellings of a file the gate still guards.
 */
module Routing {
  import opened Wrappers
  import opened Text
  import opened Yaml
  import opened Filesystem
  import opened Cache
  import opened Protocol
  import opened Server
  import opened Utf8
  import Frontmatter
  import Schema

  /** Writes under this spelling, whatever they carry and whatever is stored, leave a gated file gated. */
  ghost predicate KeepsGate(cfg: Config, root: Node, path: string) {
    forall s: Store, body, file ::
      Canonical(file) && Gated(cfg, s.disk, file) ==> Gated(cfg, AfterWrite(cfg, root, s, path, body), file)
  }

  ghost function AfterWrite(cfg: Config, root: Node, s: Store, path: string, body: bytes): Disk {
    Dispatched(cfg, root, s, Request("WRITE", path, body)).0.disk
  }

  /** No schema of the registry admits all that another one admits. */
  ghost predicate Telling(cfg: Config) {
    forall a, b :: a in cfg.registry && b in cfg.registry && a.1 != b.1 ==>
      exists body :: Against(cfg, a.1, body).None? && Against(cfg, b.1, body).Some?
  }

  const NOT_UTF8: bytes := [255]

  lemma NotUtf8Is(cfg: Config, schema: Schema.Schema)
    ensures Against(cfg, schema, NOT_UTF8) == Some(BodyNotUtf8)
  {
    assert DecodeFirst(NOT_UTF8).None?;
  }

  /** A body that the gate lets through at this spelling and not at the canonical one. */
  lemma Smuggled(cfg: Config, root: Node, path: string) returns (body: bytes)
    requires Telling(cfg) && !RoutedAlike(cfg, root, path)
    ensures Gate(cfg, path, body).None? && Gate(cfg, Join(Resolve(root, path).value, '/'), body).Some?
  {
    hide Against;
    var other := Join(Resolve(root, path).value, '/');
    Schema.BestIsLongest(cfg.registry, path);
    Schema.BestIsLongest(cfg.registry, other);
    var b := Schema.Best(cfg.registry, other).value;
    if Schema.Best(cfg.registry, path).None? {
      body := NOT_UTF8;
      NotUtf8Is(cfg, b.1);
    } else {
      var a := Schema.Best(cfg.registry, path).value;
      body :| Against(cfg, a.1, body).None? && Against(cfg, b.1, body).Some?;
    }
  }

  /** On an empty disk such a body is stored, and the file no longer conforms. */
  lemma SmuggledBreaks(cfg: Config, root: Node, path: string, body: bytes)
    requires Resolve(root, path).Ok? && Resolve(root, path).value != []
    requires Gate(cfg, path, body).None? && Gate(cfg, Join(Resolve(root, path).value, '/'), body).Some?
    ensures !KeepsGate(cfg, root, path)
  {
    hide Gate;
    hide Resolve;
    hide Canonical;
    hide Ancestors;
    ResolvedCanonical(root, path);
    var node := Resolve(root, path).value;
    var file, s := Join(node, '/'), Empty(NOTHING);
    assert !Blocked(NOTHING, node);
    assert AfterWrite(cfg, root, s, path, body).files[node] == body;
    assert Canonical(file) && Gated(cfg, s.disk, file) && !Gated(cfg, AfterWrite(cfg, root, s, path, body), file);
  }

  /**
   Exactly the spellings routed as their file's canonical spelling, or whose canonical spelling is unregistered,
   keep every gated file gated.
   */
  lemma GuardedSpellings(cfg: Config, root: Node, path: string)
    requires Telling(cfg)
    ensures KeepsGate(cfg, root, path) <==> RoutedAlike(cfg, root, path)
  {
    hide Gate;
    hide Dispatched;
    hide Canonical;
    if RoutedAlike(cfg, root, path) {
      forall s: Store, body, file | Canonical(file) && Gated(cfg, s.disk, file)
        ensures Gated(cfg, AfterWrite(cfg, root, s, path, body), file)
      {
        DispatchKeepsGate(cfg, root, s, Request("WRITE", path, body), file);
      }
    } else {
      var body := Smuggled(cfg, root, path);
      SmuggledBreaks(cfg, root, path, body);
    }
  }

  // ----- the shipped registry ------------------------------------------------------------------------------

  function Sample(kind: Schema.Kind): Value {
    match kind
    case StrKind => Str("")
    case IntKind => Int(0)
    case ListKind => List([])
    case DictKind => Dict(map[])
  }

  /** The least metadata a schema admits. */
  function Least(fields: seq<Schema.Field>): Meta {
    if fields == [] then map[]
    else Least(fields[..|fields| - 1])[fields[|fields| - 1].0 := Sample(fields[|fields| - 1].1)]
  }

  ghost predicate NamedOnce(fields: seq<Schema.Field>) {
    forall i, j :: 0 <= i < j < |fields| ==> fields[i].0 != fields[j].0
  }

  lemma {:induction false} LeastHas(fields: seq<Schema.Field>)
    requires NamedOnce(fields)
    ensures forall key :: key in Least(fields) <==> exists i :: 0 <= i < |fields| && fields[i].0 == key
    ensures forall i :: 0 <= i < |fields| ==> Least(fields)[fields[i].0] == Sample(fields[i].1)
  {
    if fields != [] {
      var n := |fields| - 1;
      var init := fields[..n];
      LeastHas(init);
      assert forall i :: 0 <= i < n ==> init[i] == fields[i];
      forall key ensures key in Least(fields) <==> exists i :: 0 <= i < |fields| && fields[i].0 == key {
        if key in Least(init) {
          var i :| 0 <= i < n && init[i].0 == key;
          assert fields[i].0 == key;
        }
      }
    }
  }

  lemma LeastConforms(schema: Schema.Schema)
    requires NamedOnce(schema.required + schema.optional)
    ensures Schema.Conforms(Least(schema.required), schema)
  {
    hide Least;
    var m, all := Least(schema.required), schema.required + schema.optional;
    RequiredNamedOnce(schema);
    LeastHas(schema.required);
    assert forall i :: 0 <= i < |schema.required| ==> all[i] == schema.required[i];
    forall f | f in schema.required ensures Schema.HasField(m, f) && f.0 in Schema.Known(schema) {
    }
    forall j | 0 <= j < |schema.optional| ensures Schema.FieldOk(m, schema.optional[j]) {
      assert all[|schema.required| + j] == schema.optional[j];
      assert forall i :: 0 <= i < |schema.required| ==> all[i].0 != all[|schema.required| + j].0;
    }
    forall key | key in m ensures key in Schema.Known(schema) {
      var i :| 0 <= i < |schema.required| && schema.required[i].0 == key;
      assert schema.required[i] in schema.required;
    }
  }

  /** A required key the least metadata of another schema does not have. */
  lemma Lacks(a: Schema.Schema, b: Schema.Schema, i: nat)
    requires NamedOnce(a.required) && i < |b.required|
    requires forall j :: 0 <= j < |a.required| ==> a.required[j].0 != b.required[i].0
    ensures !Schema.Conforms(Least(a.required), b)
  {
    LeastHas(a.required);
    assert b.required[i] in b.required && !Schema.HasField(Least(a.required), b.required[i]);
  }

  /** A required key another schema does not know. */
  lemma Exceeds(a: Schema.Schema, b: Schema.Schema, i: nat)
    requires NamedOnce(a.required) && i < |a.required| && !b.allowExtra
    requires forall j :: 0 <= j < |b.required| ==> b.required[j].0 != a.required[i].0
    requires forall j :: 0 <= j < |b.optional| ==> b.optional[j].0 != a.required[i].0
    ensures !Schema.Conforms(Least(a.required), b)
  {
    LeastHas(a.required);
    var key := a.required[i].0;
    assert key in Least(a.required) && key !in Schema.Known(b);
  }

  /** Where each schema's own required key stands: one that only it requires, or for facts one that only three do. */
  function Mark(k: nat): nat
    requires k < 7
  {
    match k
    case 0 => 1
    case 1 => 2
    case 2 => 2
    case 3 => 1
    case 4 => 1
    case 5 => 3
    case _ => 2
  }

  lemma ShippedNamedOnce(k: nat)
    requires k < 7
    ensures NamedOnce(Schema.REGISTRY[k].1.required + Schema.REGISTRY[k].1.optional)
  {
    match k
    case 0 => assert NamedOnce(Schema.FACT.required + Schema.FACT.optional);
    case 1 => assert NamedOnce(Schema.SUMMARY.required + Schema.SUMMARY.optional);
    case 2 => assert NamedOnce(Schema.CONVERSATION.required + Schema.CONVERSATION.optional);
    case 3 => assert NamedOnce(Schema.PERSONA.required + Schema.PERSONA.optional);
    case 4 => JobNamedOnce();
    case 5 => SourceNamedOnce();
    case 6 => ChunkNamedOnce();
  }

  lemma JobNamedOnce()
    ensures NamedOnce(Schema.JOB.required + Schema.JOB.optional)
  {
  }

  lemma SourceNamedOnce()
    ensures NamedOnce(Schema.FETCH_SOURCE.required + Schema.FETCH_SOURCE.optional)
  {
  }

  lemma ChunkNamedOnce()
    ensures NamedOnce(Schema.FETCH_CHUNK.required + Schema.FETCH_CHUNK.optional)
  {
  }

  lemma RequiredNamedOnce(schema: Schema.Schema)
    requires NamedOnce(schema.required + schema.optional)
    ensures NamedOnce(schema.required)
  {
    var all := schema.required + schema.optional;
    assert forall i :: 0 <= i < |schema.required| ==> all[i] == schema.required[i];
  }

  lemma MarkIsOwn(j: nat, k: nat)
    requires j < 7 && k < 7 && j != k && !(k == 0 && j <= 2)
    ensures Mark(k) < |Schema.REGISTRY[k].1.required|
    ensures forall i :: 0 <= i < |Schema.REGISTRY[j].1.required| ==>
      Schema.REGISTRY[j].1.required[i].0 != Schema.REGISTRY[k].1.required[Mark(k)].0
  {
  }

  /** No shipped schema admits the least metadata of another. */
  lemma ShippedTellApart(j: nat, k: nat)
    requires j < 7 && k < 7 && j != k
    ensures !Schema.Conforms(Least(Schema.REGISTRY[j].1.required), Schema.REGISTRY[k].1)
  {
    hide Schema.Conforms;
    var a, b := Schema.REGISTRY[j].1, Schema.REGISTRY[k].1;
    ShippedNamedOnce(j);
    RequiredNamedOnce(a);
    if k == 0 && j <= 2 {
      Exceeds(a, b, 2);
    } else {
      MarkIsOwn(j, k);
      Lacks(a, b, Mark(k));
    }
  }

  /** YAML is faithful on the least metadata of every shipped schema. */
  ghost predicate SamplesDump(cfg: Config) {
    forall k: nat :: k < 7 ==> Faithful(cfg.yaml, Least(Schema.REGISTRY[k].1.required))
  }

  lemma LeastNotEmpty(k: nat)
    requires k < 7
    ensures Least(Schema.REGISTRY[k].1.required) != map[]
  {
    ShippedNamedOnce(k);
    RequiredNamedOnce(Schema.REGISTRY[k].1);
    LeastHas(Schema.REGISTRY[k].1.required);
    assert Schema.REGISTRY[k].1.required[0].0 in Least(Schema.REGISTRY[k].1.required);
  }

  lemma ShippedAt(e: (string, Schema.Schema)) returns (k: nat)
    requires e in Schema.REGISTRY
    ensures k < 7 == |Schema.REGISTRY| && Schema.REGISTRY[k] == e
  {
    k :| k < |Schema.REGISTRY| && Schema.REGISTRY[k] == e;
  }

  lemma ShippedTells(cfg: Config)
    requires cfg.registry == Schema.REGISTRY && SamplesDump(cfg)
    ensures Telling(cfg)
  {
    hide Against;
    hide SamplesDump;
    hide Schema.REGISTRY;
    forall a, b | a in cfg.registry && b in cfg.registry && a.1 != b.1
      ensures exists body :: Against(cfg, a.1, body).None? && Against(cfg, b.1, body).Some?
    {
      var j := ShippedAt(a);
      var k := ShippedAt(b);
      TellingBody(cfg, j, k);
    }
  }

  lemma TellingBody(cfg: Config, j: nat, k: nat)
    requires j < 7 && k < 7 && j != k && SamplesDump(cfg)
    ensures var body := Utf8.Encode(Frontmatter.Render(cfg.yaml, Least(Schema.REGISTRY[j].1.required), ""));
      Against(cfg, Schema.REGISTRY[j].1, body).None? && Against(cfg, Schema.REGISTRY[k].1, body).Some?
  {
    hide Schema.Conforms;
    hide Schema.FACT;
    hide Schema.SUMMARY;
    hide Schema.CONVERSATION;
    hide Schema.PERSONA;
    hide Schema.JOB;
    hide Schema.FETCH_SOURCE;
    hide Schema.FETCH_CHUNK;
    hide Frontmatter.Render;
    hide Frontmatter.Parse;
    hide Faithful;
    var meta := Least(Schema.REGISTRY[j].1.required);
    ShippedNamedOnce(j);
    LeastNotEmpty(j);
    LeastConforms(Schema.REGISTRY[j].1);
    ShippedTellApart(j, k);
    Utf8.DecodeEncode(Frontmatter.Render(cfg.yaml, meta, ""));
    Frontmatter.RoundTrip(cfg.yaml, meta, "");
  }

  /** A dot in front leads to the same file. */
  lemma DotResolves(root: Node, path: string)
    requires Canonical(path)
    ensures Resolve(root, "./" + path) == Resolve(root, path) == Ok(Split(path, '/'))
  {
    CanonicalResolves(root, path);
    var dotted := "./" + path;
    assert dotted == "." + ['/'] + path;
    SplitWhole(".", '/');
    SplitAt(".", '/', path);
    assert Split(dotted, '/') == ["."] + Split(path, '/');
    assert (["."] + Split(path, '/'))[1..] == Split(path, '/');
  }

  lemma DotIsUnregistered(path: string)
    ensures Schema.SchemaOf(Schema.REGISTRY, "./" + path).None?
  {
    var dotted := "./" + path;
    Schema.BestIsLongest(Schema.REGISTRY, dotted);
    hide Schema.Best;
    forall e | e in Schema.REGISTRY ensures !(e.0 <= dotted) {
      assert dotted[0] == '.' && e.0[0] in {'m', 'p', 'j', 'f'};
    }
  }

  /** Under the shipped registry no registered file is guarded once its path is spelled with a dot in front. */
  lemma DotSpellingIsUnguarded(cfg: Config, root: Node, path: string)
    requires cfg.registry == Schema.REGISTRY && Canonical(path) && Schema.SchemaOf(cfg.registry, path).Some?
    ensures !KeepsGate(cfg, root, "./" + path)
  {
    hide Canonical;
    hide Dispatched;
    hide Against;
    hide Resolve;
    hide Schema.REGISTRY;
    var dotted, schema := "./" + path, Schema.SchemaOf(cfg.registry, path).value;
    DotResolves(root, path);
    DotIsUnregistered(path);
    JoinSplit(path, '/');
    NotUtf8Is(cfg, schema);
    SmuggledBreaks(cfg, root, dotted, NOT_UTF8);
  }
}
