/**
 The values `yaml.safe_load` yields. `Num` stands for every scalar that is not null, a bool or a
 string; only the fact that it is such a scalar is ever looked at.
 */
module Yaml {
  datatype Yaml =
    | Null
    | Bool(b: bool)
    | Num(n: int)
    | Str(s: string)
    | List(items: seq<Yaml>)
    | Map(fields: map<string, Yaml>)

  /** `d.get(key)`: an absent key and an explicit null read the same. */
  function Get(fields: map<string, Yaml>, key: string): Yaml
  {
    if key in fields then fields[key] else Null
  }

  /** The scanner's `_as_list`. */
  function AsList(v: Yaml): seq<Yaml>
  {
    match v
    case Null => []
    case List(items) => items
    case _ => [v]
  }

  /** Python can hash the value, that is, look it up in a dict. */
  predicate Hashable(v: Yaml)
  {
    !v.List? && !v.Map?
  }

  predicate AllStr(vs: seq<Yaml>)
  {
    forall v :: v in vs ==> v.Str?
  }
}
