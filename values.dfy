/** Values that cross the API boundary: decoded JSON request bodies and
    attributes that a Python object may or may not carry. */
module Values {

  datatype Option<T> = None | Some(value: T)

  /** A scalar JSON value as the web framework decodes it from a request body.
      Whatever the client sends is stored verbatim by the update methods, so a
      record attribute holds one of these rather than a typed column value. */
  datatype Json = JNull | JBool(b: bool) | JInt(n: int) | JStr(s: string)

  /** A decoded JSON object. Python dictionary keys are unique, so a map. */
  type Request = map<string, Json>

  /** The entries of `data` whose keys lie in `keep`. */
  function Restrict(data: Request, keep: set<string>): (r: Request)
    ensures r.Keys == data.Keys * keep
    ensures forall k :: k in r ==> r[k] == data[k]
  {
    map k | k in data && k in keep :: data[k]
  }

  /** `data[key]` when the key is present, otherwise the current value. */
  function Pick(data: Request, key: string, current: Json): Json {
    if key in data then data[key] else current
  }

  /** The value stored for a column with a default: `data[key]` when the key
      is present with a non-null value, otherwise the default (an explicit
      null is left out of the insert, like an absent key). */
  function PickOrDefault(data: Request, key: string, default: Json): Json {
    if key in data && data[key] != JNull then data[key] else default
  }
}
