/** JavaScript values as they reach the handlers: the fields of a parsed
    JSON or multipart request body, and what JSON.parse returns.
    `Undefined` stands for a missing field. Numbers are finite reals: neither a
    JSON body nor a form field can carry NaN or an infinity. */
module Js {

  datatype Option<T> = None | Some(value: T) {
    function GetOr(default: T): T {
      match this
      case Some(v) => v
      case None => default
    }
  }

  datatype Result<T, E> = Ok(value: T) | Err(error: E)

  datatype Value =
    | Undefined
    | Null
    | Bool(b: bool)
    | Number(n: real)
    | Str(s: string)
    | Array(items: seq<Value>)
    | Object(members: seq<(string, Value)>)

  /** JavaScript truthiness: `undefined`, `null`, `false`, `0` and `""` are falsy,
      every other value (including an empty array or object) is truthy. */
  predicate Truthy(v: Value) {
    match v
    case Undefined => false
    case Null => false
    case Bool(b) => b
    case Number(n) => n != 0.0
    case Str(s) => s != ""
    case Array(_) => true
    case Object(_) => true
  }

  /** The GeoJSON object `{type: "Point", coordinates: [lng, lat]}`. */
  function PointValue(lng: real, lat: real): Value {
    Object([("type", Str("Point")), ("coordinates", Array([Number(lng), Number(lat)]))])
  }

  /** The outcome of `JSON.parse` on some text: the parsed value or a thrown SyntaxError. */
  datatype JsonParse = Parsed(value: Value) | ParseFailed
}
