/** Frontmatter schemas per vault prefix and the check applied on write (axiom-store/schema.py). */
module Schema {
  import opened Wrappers
  import opened Yaml

  datatype Kind = StrKind | IntKind | ListKind | DictKind

  /** `isinstance(v, kind)`: a Python bool is an int. */
  predicate HasKind(v: Value, kind: Kind) {
    match kind
    case StrKind => v.Str?
    case IntKind => v.Int? || v.Bool?
    case ListKind => v.List?
    case DictKind => v.Dict?
  }

  type Field = (string, Kind)

  datatype Schema = Schema(required: seq<Field>, optional: seq<Field>, allowExtra: bool)

  const FACT := Schema([("type", StrKind), ("created", StrKind)],
                       [("tags", ListKind), ("source", StrKind), ("confidence", StrKind)], false)

  const SUMMARY := Schema([("type", StrKind), ("created", StrKind), ("covers", ListKind)],
                          [("tags", ListKind)], false)

  const CONVERSATION := Schema([("type", StrKind), ("created", StrKind), ("provider", StrKind)],
                               [("tags", ListKind), ("title", StrKind), ("tokens", IntKind)], false)

  const PERSONA := Schema([("type", StrKind), ("name", StrKind)],
                          [("tags", ListKind), ("model_hint", StrKind)], false)

  const JOB := Schema([("id", StrKind), ("kind", StrKind), ("status", StrKind), ("created_at", StrKind),
                       ("updated_at", StrKind), ("attempts", IntKind), ("max_attempts", IntKind),
                       ("payload", DictKind)],
                      [("result", DictKind), ("error", StrKind), ("next_attempt_at", StrKind), ("worker_id", StrKind),
                       ("claimed_at", StrKind), ("tags", ListKind)], false)

  const FETCH_SOURCE := Schema([("id", StrKind), ("type", StrKind), ("status", StrKind), ("url", StrKind),
                                ("created_at", StrKind), ("updated_at", StrKind)],
                               [("fetched_at", StrKind), ("content_type", StrKind), ("title", StrKind),
                                ("error", StrKind),
                                ("chunk_count", IntKind), ("tags", ListKind)], false)

  const FETCH_CHUNK := Schema([("id", StrKind), ("type", StrKind), ("source_id", StrKind), ("chunk_index", IntKind),
                               ("chunk_total", IntKind), ("created_at", StrKind), ("char_count", IntKind)],
                              [("overlap_chars", IntKind), ("tags", ListKind)], false)

  type Registry = seq<(string, Schema)>

  const REGISTRY: Registry :=
    [("memory/facts/", FACT), ("memory/summaries/", SUMMARY), ("memory/conversations/", CONVERSATION),
     ("personas/", PERSONA), ("jobs/", JOB), ("fetch/sources/", FETCH_SOURCE), ("fetch/chunks/", FETCH_CHUNK)]

  // ----- lookup --------------------------------------------------------------------------------

  /** The entry the lookup loop holds after scanning `reg`. */
  function Best(reg: Registry, path: string): Option<(string, Schema)> {
    if reg == [] then None
    else
      var entry := reg[|reg| - 1];
      var best := Best(reg[..|reg| - 1], path);
      if entry.0 <= path && (best.None? || |entry.0| > |best.value.0|) then Some(entry) else best
  }

  function SchemaOf(reg: Registry, path: string): Option<Schema> {
    match Best(reg, path)
    case None => None
    case Some(entry) => Some(entry.1)
  }

  method SchemaFor(reg: Registry, path: string) returns (r: Option<Schema>)
    ensures r == SchemaOf(reg, path)
  {
    var best: Option<(string, Schema)> := None;
    for i := 0 to |reg|
      invariant best == Best(reg[..i], path)
    {
      assert reg[..i + 1][..i] == reg[..i];
      var (prefix, schema) := reg[i];
      if prefix <= path {
        if best.None? || |prefix| > |best.value.0| {
          best := Some((prefix, schema));
        }
      }
    }
    assert reg[..|reg|] == reg;
    match best
    case None => return None;
    case Some(entry) => return Some(entry.1);
  }

  /** The lookup finds a matching entry whose prefix no other match exceeds, and fails only with no match. */
  lemma {:induction false} BestIsLongest(reg: Registry, path: string)
    ensures Best(reg, path).None? <==> forall e :: e in reg ==> !(e.0 <= path)
    ensures Best(reg, path).Some? ==> Best(reg, path).value in reg && Best(reg, path).value.0 <= path
    ensures Best(reg, path).Some? ==>
              forall e :: e in reg && e.0 <= path ==> |e.0| <= |Best(reg, path).value.0|
  {
    if reg != [] {
      BestIsLongest(reg[..|reg| - 1], path);
      assert reg == reg[..|reg| - 1] + [reg[|reg| - 1]];
    }
  }

  /** A registry is a dictionary: one schema per prefix. */
  ghost predicate OnePerPrefix(reg: Registry) {
    forall d, e :: d in reg && e in reg && d.0 == e.0 ==> d == e
  }

  /** Only the entries matter, not their order. */
  lemma OrderIndependent(a: Registry, b: Registry, path: string)
    requires OnePerPrefix(a)
    requires forall e :: e in a <==> e in b
    ensures SchemaOf(a, path) == SchemaOf(b, path)
  {
    BestIsLongest(a, path);
    BestIsLongest(b, path);
    if Best(a, path).Some? && Best(b, path).Some? {
      var d, e := Best(a, path).value, Best(b, path).value;
      assert |d.0| == |e.0|;
      assert d.0 == path[..|d.0|] == e.0;
    }
  }

  /** No registered prefix opens another, so a path under one is routed there. */
  lemma RegisteredPathRoutes(e: (string, Schema), path: string)
    requires e in REGISTRY && e.0 <= path
    ensures SchemaOf(REGISTRY, path) == Some(e.1)
  {
    BestIsLongest(REGISTRY, path);
    PrefixesApart(e, Best(REGISTRY, path).value, path);
  }

  lemma PrefixesApart(d: (string, Schema), e: (string, Schema), path: string)
    requires d in REGISTRY && e in REGISTRY && d.0 <= path && e.0 <= path
    ensures d == e
  {
    var i :| 0 <= i < |REGISTRY| && REGISTRY[i] == d;
    var j :| 0 <= j < |REGISTRY| && REGISTRY[j] == e;
    hide FACT;
    hide SUMMARY;
    hide CONVERSATION;
    hide PERSONA;
    hide JOB;
    hide FETCH_SOURCE;
    hide FETCH_CHUNK;
    assert d.0[0] == path[0] == e.0[0];
    assert |d.0| > 7 ==> d.0[7] == path[7];
    assert |e.0| > 7 ==> e.0[7] == path[7];
  }

  // ----- validation ----------------------------------------------------------------------------

  datatype SchemaError = MissingKey(key: string) | WrongKind(key: string) | ExtraKeys(keys: set<string>)

  predicate HasField(meta: Meta, f: Field) {
    f.0 in meta && HasKind(meta[f.0], f.1)
  }

  predicate FieldOk(meta: Meta, f: Field) {
    f.0 in meta ==> HasKind(meta[f.0], f.1)
  }

  function FieldNames(fields: seq<Field>): set<string> {
    set f | f in fields :: f.0
  }

  function Known(schema: Schema): set<string> {
    FieldNames(schema.required) + FieldNames(schema.optional)
  }

  /** Metadata that a schema admits. */
  predicate Conforms(meta: Meta, schema: Schema) {
    && (forall f :: f in schema.required ==> HasField(meta, f))
    && (forall f :: f in schema.optional ==> FieldOk(meta, f))
    && (schema.allowExtra || meta.Keys <= Known(schema))
  }

  /** One more value under an optional key, and only there, changes nothing about conformance. */
  lemma OptionalKeyConforms(meta: Meta, schema: Schema, key: string, kind: Kind, value: Value)
    requires Conforms(meta, schema) && (key, kind) in schema.optional && HasKind(value, kind)
    requires forall f :: f in schema.required + schema.optional && f.0 == key ==> f.1 == kind
    ensures Conforms(meta[key := value], schema)
  {
    assert forall f :: f in schema.required ==> f in schema.required + schema.optional;
    assert forall f :: f in schema.optional ==> f in schema.required + schema.optional;
    assert key in Known(schema) by { assert (key, kind).0 == key; }
  }

  /** `None` is the normal return; `Some` is the exception for the first violation met. */
  method Validate(meta: Meta, schema: Schema) returns (r: Option<SchemaError>)
    ensures r.None? <==> Conforms(meta, schema)
    ensures r.Some? && r.value.MissingKey? ==> r.value.key in FieldNames(schema.required) && r.value.key !in meta
    ensures r.Some? && r.value.WrongKind? ==>
              exists f :: f in schema.required + schema.optional && f.0 == r.value.key && !FieldOk(meta, f)
    ensures r.Some? && r.value.ExtraKeys? ==>
              r.value.keys == meta.Keys - Known(schema) && forall f :: f in schema.required ==> HasField(meta, f)
  {
    for i := 0 to |schema.required|
      invariant forall j :: 0 <= j < i ==> HasField(meta, schema.required[j])
    {
      var f := schema.required[i];
      assert f in schema.required;
      if f.0 !in meta {
        assert !HasField(meta, f);
        return Some(MissingKey(f.0));
      }
      if !HasKind(meta[f.0], f.1) {
        assert f in schema.required + schema.optional && !FieldOk(meta, f);
        return Some(WrongKind(f.0));
      }
    }
    for i := 0 to |schema.optional|
      invariant forall j :: 0 <= j < i ==> FieldOk(meta, schema.optional[j])
    {
      var f := schema.optional[i];
      if f.0 in meta && !HasKind(meta[f.0], f.1) {
        assert f in schema.required + schema.optional && !FieldOk(meta, f);
        return Some(WrongKind(f.0));
      }
    }
    assert forall f :: f in schema.required ==> HasField(meta, f);
    assert forall f :: f in schema.optional ==> FieldOk(meta, f);
    if !schema.allowExtra {
      var extras := meta.Keys - Known(schema);
      if extras != {} {
        return Some(ExtraKeys(extras));
      }
      assert forall k :: k in meta.Keys && k !in Known(schema) ==> k in extras;
      assert meta.Keys <= Known(schema);
    }
    return None;
  }
}
