/** The decoded JSON values the exchange returns, and the JavaScript
    truthiness and property access the client applies to them. */
module Json {
  import opened Wrappers

  /** A decoded JSON value. Numbers are reals: the exchange sends prices and
      volumes with fractional parts. */
  datatype Value =
    | Null
    | Bool(b: bool)
    | Num(n: real)
    | Str(s: string)
    | Arr(items: seq<Value>)
    | Obj(fields: map<string, Value>)

  /** JavaScript truthiness of a decoded value: `null`, `false`, `0` and the
      empty string are falsy; every array and object is truthy. */
  predicate Truthy(v: Value) {
    match v
    case Null => false
    case Bool(b) => b
    case Num(n) => n != 0.0
    case Str(s) => |s| > 0
    case Arr(_) => true
    case Obj(_) => true
  }

  /** JavaScript truthiness of an optional string (a missing key, secret or
      server is `undefined`). */
  predicate TruthyText(o: Option<string>) {
    o.Some? && |o.value| > 0
  }

  /** `v.name` for a decoded value that is not `null`: only objects carry
      named properties; on a boolean, number, string or array the property
      is `undefined`. */
  function Property(v: Value, name: string): (r: Option<Value>)
    requires !v.Null?
    ensures r.Some? <==> v.Obj? && name in v.fields
    ensures r.Some? ==> r.value == v.fields[name]
  {
    match v
    case Obj(fields) => if name in fields then Some(fields[name]) else None
    case _ => None
  }
}
