/** Metadata values, and YAML as an abstract dump/load pair. */
module Yaml {
  import opened Wrappers
  import opened Text

  /** What `yaml.safe_load` can put in a metadata dictionary. `Other` stands for floats, dates and the like. */
  datatype Value =
    | Str(s: string)
    | Int(i: int)
    | Bool(b: bool)
    | List(items: seq<Value>)
    | Dict(entries: map<string, Value>)
    | Null
    | Other(tag: int)

  type Meta = map<string, Value>

  const FENCE := "---"

  /** `safe_dump` and `safe_load`; a load that raises `YAMLError` gives `None`. */
  datatype Yaml = Yaml(dump: Meta -> string, load: string -> Option<Value>)

  /** The dump without its final newline, which is the text that comes back between the fences. */
  function Block(y: Yaml, m: Meta): string {
    var d := y.dump(m);
    if d == "" then "" else d[..|d| - 1]
  }

  /**
   What is assumed of YAML for one metadata dictionary: the dump is not blank, ends in a newline,
   has no line that is a fence, and loads back to the same dictionary.
   */
  ghost predicate Faithful(y: Yaml, m: Meta) {
    && y.dump(m) == Block(y, m) + "\n"
    && FENCE !in Split(Block(y, m), '\n')
    && !Blank(Block(y, m))
    && y.load(Block(y, m)) == Some(Dict(m))
  }
}
