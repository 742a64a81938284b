/** A JSON-like value as the app sees it at run time (the result of
    `response.json()` or of a structured-clone read from IndexedDB), with the
    JavaScript notions the validators rely on: truthiness, `typeof x ===
    'object'`, `Array.isArray` and property access. */
module JsonValues {
  import opened Wrappers

  datatype Json =
    | JUndefined
    | JNull
    | JBool(b: bool)
    | JNum(n: real)
    | JStr(s: string)
    | JArr(items: seq<Json>)
    | JObj(fields: map<string, Json>)

  /** `!!v`: false exactly for `undefined`, `null`, `false`, `0` and `''`. */
  predicate Truthy(v: Json) {
    match v
    case JUndefined => false
    case JNull => false
    case JBool(b) => b
    case JNum(n) => n != 0.0
    case JStr(s) => s != ""
    case JArr(_) => true
    case JObj(_) => true
  }

  /** `typeof v === 'object'`: true for `null`, arrays and plain objects. */
  predicate IsObjectType(v: Json) {
    v.JNull? || v.JArr? || v.JObj?
  }

  predicate IsArray(v: Json) {
    v.JArr?
  }

  predicate IsString(v: Json) {
    v.JStr?
  }

  /** `v[key]` for a non-numeric key other than `length`: the field of a
      plain object, `undefined` for every other value. The caller must not
      pass `null`/`undefined` (property access on them throws); every use in
      this model is guarded. */
  function Get(v: Json, key: string): (r: Json)
    ensures v.JObj? && key in v.fields ==> r == v.fields[key]
    ensures !(v.JObj? && key in v.fields) ==> r == JUndefined
  {
    if v.JObj? && key in v.fields then v.fields[key] else JUndefined
  }

  /** Property access that throws on `null` and `undefined`, as JavaScript
      does. */
  function Access(v: Json, key: string): (r: Option<Json>)
    ensures r.None? <==> (v.JNull? || v.JUndefined?)
    ensures r.Some? ==> r.value == Get(v, key)
  {
    if v.JNull? || v.JUndefined? then None else Some(Get(v, key))
  }

  /** `a === b` where `b` is known to be a string: strict equality. */
  predicate StrictEqString(a: Json, b: string) {
    a == JStr(b)
  }
}
