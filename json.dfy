/**
 * The values the core serialises with `JSON.stringify`. The serialisation
 * itself is treated as an opaque function supplied by the caller.
 */
module Json {

  datatype Value =
    | JString(s: string)
    | JNumber(n: int)
    | JObject(members: seq<(string, Value)>)

  /** `JSON.stringify`, left abstract. */
  type Stringify = Value -> string
}
