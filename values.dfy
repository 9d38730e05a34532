/**
 * The values a YAML configuration file loads into: the scalars YAML produces
 * (null, booleans, integers, strings), lists, and mappings from string keys
 * to values. Any other object the YAML loader builds (a float, a timestamp,
 * `!!binary` bytes, a `!!set`, a tuple) is an `Opaque` leaf known by its type
 * name and text. A `Mapping` is what Python sees as a `dict`; everything else
 * is a value that cannot be indexed by a string key.
 */
module Values {

  datatype Value =
    | Null
    | Bool(b: bool)
    | Int(i: int)
    | Str(s: string)
    | List(items: seq<Value>)
    | Mapping(entries: map<string, Value>)
    | Opaque(typeName: string, text: string)

  /** The empty mapping `{}`. */
  const EmptyMapping: Value := Mapping(map[])

  datatype Option<T> = None | Some(value: T)
}
