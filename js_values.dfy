/**
 * JavaScript values as they travel through the system: JSON documents received over the socket, returned
 * by the AI model, stored in the document store. Only the operations of JavaScript that the core relies on
 * are modelled: truthiness, `typeof x === 'object'`, property access and strict equality.
 * Numbers are integers here (floating point is not modelled).
 */
module JsValues {
  import opened Wrappers

  datatype Json =
    | JNull
    | JBool(b: bool)
    | JNumber(n: int)
    | JString(s: string)
    | JArray(items: seq<Json>)
    | JObject(fields: map<string, Json>)

  /** JavaScript truthiness of a value; `undefined` (None) is falsy. */
  predicate Truthy(v: Option<Json>)
  {
    match v
    case None => false
    case Some(JNull) => false
    case Some(JBool(b)) => b
    case Some(JNumber(n)) => n != 0
    case Some(JString(s)) => s != ""
    case Some(JArray(_)) => true
    case Some(JObject(_)) => true
  }

  /** `a || b` on values: the left operand when it is truthy, else the right one. */
  function Or(a: Option<Json>, b: Json): (r: Json)
    ensures Truthy(a) ==> Some(r) == a
    ensures !Truthy(a) ==> r == b
  {
    if Truthy(a) then a.value else b
  }

  /** `typeof v === 'object'`: true for objects, arrays and (as JavaScript has it) for null. */
  predicate TypeofObject(v: Option<Json>)
  {
    v.Some? && (v.value.JNull? || v.value.JArray? || v.value.JObject?)
  }

  /** `v?.k`: the property `k` of an object, `undefined` for anything else (including null and undefined). */
  function Member(v: Option<Json>, k: string): (r: Option<Json>)
    ensures r.Some? <==> v.Some? && v.value.JObject? && k in v.value.fields
    ensures r.Some? ==> r.value == v.value.fields[k]
  {
    if v.Some? && v.value.JObject? && k in v.value.fields then Some(v.value.fields[k]) else None
  }

  /** Whether `v.k` throws a TypeError: property access on `null` or `undefined`. */
  predicate AccessThrows(v: Option<Json>)
  {
    v.None? || v.value.JNull?
  }

  /**
   * `a === b` on values that were produced by JSON deserialisation: primitives compare by value,
   * while two objects or arrays are never the same reference.
   */
  predicate StrictEquals(a: Option<Json>, b: Option<Json>)
  {
    match (a, b)
    case (None, None) => true
    case (Some(x), Some(y)) => !x.JArray? && !x.JObject? && x == y
    case _ => false
  }
}
