/** JSON request bodies as the route handlers receive them after body parsing,
    plus the Option type used throughout the model. */
module Json {

  datatype Option<+T> = None | Some(value: T)

  /** The identifier the document store assigns to a record (a MongoDB ObjectId). */
  type ObjectId = nat

  /** A parsed JSON value. Numbers are integers (dates are millisecond timestamps). */
  datatype Value =
    | Null
    | Bool(b: bool)
    | Num(n: int)
    | Str(s: string)
    | Arr(items: seq<Value>)
    | Obj(fields: map<string, Value>)

  /** The outcome of casting and validating a value against a schema path or record. */
  datatype Parsed<+T> = Valid(value: T) | Invalid

  /** A request body or any JSON object: key to value. */
  type Body = map<string, Value>

  /** `body[key]` in JavaScript: undefined when the key is missing. */
  function Get(body: Body, key: string): (r: Option<Value>)
    ensures r.Some? <==> key in body
    ensures r.Some? ==> r.value == body[key]
  {
    if key in body then Some(body[key]) else None
  }

  /** The value the schema sees for a path: a missing key and an explicit null both leave it unset. */
  function Field(body: Body, key: string): (r: Option<Value>)
    ensures r.Some? <==> key in body && body[key] != Null
    ensures r.Some? ==> r.value == body[key]
  {
    if key in body && body[key] != Null then Some(body[key]) else None
  }

  /** The `Object.keys(body).filter(k => allowed.includes(k)).reduce(...)` idiom:
      the entries of `body` whose key is allowed. */
  function Pick(body: Body, allowed: set<string>): (r: Body)
    ensures r.Keys == body.Keys * allowed
    ensures forall k :: k in r ==> r[k] == body[k]
  {
    map k | k in body && k in allowed :: body[k]
  }

  /** JavaScript truthiness; undefined (a missing key) is falsy. */
  predicate Truthy(v: Option<Value>) {
    match v
    case None => false
    case Some(Null) => false
    case Some(Bool(b)) => b
    case Some(Num(n)) => n != 0
    case Some(Str(s)) => s != ""
    case Some(Arr(_)) => true
    case Some(Obj(_)) => true
  }
}
