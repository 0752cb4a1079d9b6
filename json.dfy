// Values exchanged with the device: the JSON documents that Python's
// `json` module produces and consumes, as a datatype.
module Json {

  /** A JSON value. Objects are maps (key order is not modelled). */
  datatype Json =
    | JNull
    | JBool(b: bool)
    | JInt(i: int)
    | JFloat(r: real)
    | JStr(s: string)
    | JArr(items: seq<Json>)
    | JObj(fields: map<string, Json>)

  type Object = map<string, Json>

  /** Python truthiness of a decoded JSON value. */
  predicate Truthy(j: Json) {
    match j
    case JNull => false
    case JBool(b) => b
    case JInt(i) => i != 0
    case JFloat(r) => r != 0.0
    case JStr(s) => s != ""
    case JArr(items) => items != []
    case JObj(fields) => fields != map[]
  }

  /** `d.get(key, default)` on a dict. */
  function Get(d: Object, key: string, default: Json): Json {
    if key in d then d[key] else default
  }

  /** A list or dict cannot be hashed: using one as a dict key raises
      TypeError. */
  predicate Unhashable(j: Json) {
    j.JArr? || j.JObj?
  }

  /** `d[key]` on a decoded value: KeyError for a missing key, TypeError
      when the value is not a dict. */
  function Item(d: Json, key: string): Result<Json> {
    match d
    case JObj(m) => if key in m then Ok(m[key]) else Raise(KeyError)
    case _ => Raise(TypeError)
  }

  /** The exceptions a lookup or conversion in the source can raise. */
  datatype PyError =
    | KeyError
    | IndexError
    | TypeError
    | ValueError
    | AttributeError
    | AssertionError
    | TimeoutError
    | NotImplemented
    | UnsupportedOperation
    | InvalidGrill(name: string)
    | RPCError(message: Json)
    | NoReply            // the awaited answer never arrives: the call does not return

  datatype Result<+T> = Ok(value: T) | Raise(error: PyError) {
    predicate IsFailure() { Raise? }
    function PropagateFailure<U>(): Result<U> requires Raise? { Raise(error) }
    function Extract(): T requires Ok? { value }
  }

  datatype Option<+T> = None | Some(value: T)

  /** A callback the caller registered, known by its identity. */
  type CallbackId = nat
}
