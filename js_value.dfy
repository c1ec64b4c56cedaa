/**
 * The values the workflow's code handles after `JSON.parse`: a JSON document tree
 * with integer numbers, plus the JavaScript operations the code applies to them:
 * property access, truthiness (`if (!x)`, `x || y`) and the equality a `Set` uses.
 */
module JsValue {
  import opened Wrappers
  import opened Seqs

  datatype Json =
    | JNull
    | JBool(b: bool)
    | JNumber(n: int)
    | JString(s: string)
    | JArray(elems: seq<Json>)
    | JObject(fields: seq<(string, Json)>)

  /**
   * `v.key` for the member names the workflow reads (none of them is inherited from
   * `Object.prototype`): an object's own member, `undefined` for any other value.
   * On `null` JavaScript throws instead; every caller in the workflow first rules
   * `null` out, except the one the packing-list reducer's finding is about.
   */
  function Get(v: Json, key: string): Option<Json> {
    match v
    case JObject(fields) => Lookup(fields, key)
    case _ => None
  }

  /** JavaScript's ToBoolean: `null`, `false`, `0` and `""` are falsy; arrays and objects are truthy. */
  predicate Truthy(v: Json) {
    match v
    case JNull => false
    case JBool(b) => b
    case JNumber(n) => n != 0
    case JString(s) => s != []
    case _ => true
  }

  /** `Array.isArray(v)` */
  predicate IsArray(v: Json) {
    v.JArray?
  }

  predicate IsPrimitive(v: Json) {
    !v.JArray? && !v.JObject?
  }

  /**
   * SameValueZero, the equality `new Set` uses: primitives compare by value; arrays
   * and objects by reference, and every one `JSON.parse` returns is a fresh
   * reference, so no two of them are ever the same.
   */
  predicate SameValueZero(a: Json, b: Json) {
    IsPrimitive(a) && a == b
  }

  /** `a || fallback` for a string-valued field that may be missing. */
  function OrElse(a: Option<string>, fallback: string): (r: string)
    ensures r == fallback || (a.Some? && r == a.value && r != [])
    ensures a.Some? && a.value != [] ==> r == a.value
  {
    if a.Some? && a.value != [] then a.value else fallback
  }
}
