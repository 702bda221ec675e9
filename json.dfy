/**
 * JSON values as `JSON.parse` produces them, and the JavaScript operations
 * the reply normalisers apply to them: property access and truthiness.
 * `JSON.parse` itself is not modelled; callers receive it as a function.
 */
module Json {

  datatype JsonValue =
    | JNull
    | JBool(b: bool)
    | JNumber(n: real)
    | JString(s: string)
    | JArray(items: seq<JsonValue>)
    | JObject(members: map<string, JsonValue>)

  /** The value of `obj.name`: `undefined` or a JSON value. */
  datatype Member = Undefined | Defined(value: JsonValue)

  /**
   * What `JSON.parse` makes of a candidate: it throws, or, since every
   * candidate begins with `{`, it yields an object.
   */
  datatype ParseResult = ParseFails | Parsed(members: map<string, JsonValue>)

  /** Property access `obj.name` on a parsed object. */
  function Get(members: map<string, JsonValue>, name: string): (m: Member)
    ensures m == Undefined <==> name !in members
    ensures m.Defined? ==> m.value == members[name]
  {
    if name in members then Defined(members[name]) else Undefined
  }

  /** JavaScript truthiness of a JSON value: arrays and objects are always truthy. */
  predicate Truthy(v: JsonValue)
  {
    match v
    case JNull => false
    case JBool(b) => b
    case JNumber(n) => n != 0.0
    case JString(s) => s != ""
    case JArray(_) => true
    case JObject(_) => true
  }
}
