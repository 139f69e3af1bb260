/** JSON values as they travel between the extension, the backend proxy and
    the upstream providers, with the JavaScript notions the handlers apply
    to them: truthiness and property lookup. */
module Json {

  datatype Option<T> = None | Some(value: T)

  /** A JSON value. Numbers are integers here: no decision in the modelled
      code depends on a fractional part. */
  datatype JValue =
    | JNull
    | JBool(b: bool)
    | JNum(n: int)
    | JStr(s: string)
    | JArr(items: seq<JValue>)
    | JObj(fields: map<string, JValue>)

  /** JavaScript truthiness: null, false, 0 and "" are falsy. */
  predicate Truthy(v: JValue)
  {
    match v
    case JNull => false
    case JBool(b) => b
    case JNum(n) => n != 0
    case JStr(s) => s != []
    case _ => true
  }

  /** Truthiness of a value that may be `undefined` (None). */
  predicate Present(v: Option<JValue>)
  {
    v.Some? && Truthy(v.value)
  }

  /** `v[key]`: an own field of an object, `undefined` otherwise. */
  function Get(v: JValue, key: string): (r: Option<JValue>)
    ensures r.Some? <==> v.JObj? && key in v.fields
    ensures r.Some? ==> r.value == v.fields[key]
  {
    if v.JObj? && key in v.fields then Some(v.fields[key]) else None
  }

  /** `v?.[key]` on a possibly undefined value. */
  function GetOpt(v: Option<JValue>, key: string): Option<JValue>
  {
    if v.Some? then Get(v.value, key) else None
  }

  /** The string held by a possibly undefined value, if it is one. */
  function AsString(v: Option<JValue>): Option<string>
  {
    if v.Some? && v.value.JStr? then Some(v.value.s) else None
  }

  /** `a || b` on two possibly undefined values. */
  function Or(a: Option<JValue>, b: Option<JValue>): (r: Option<JValue>)
    ensures Present(a) ==> r == a
    ensures !Present(a) ==> r == b
  {
    if Present(a) then a else b
  }

  /** An object literal holding only the entries whose value is defined, as
      `JSON.stringify` writes it (undefined members are dropped). */
  function ObjOf(entries: seq<(string, Option<JValue>)>): JValue
  {
    JObj(FieldsOf(entries))
  }

  function FieldsOf(entries: seq<(string, Option<JValue>)>): map<string, JValue>
  {
    if entries == [] then map[]
    else
      var rest := FieldsOf(entries[..|entries| - 1]);
      var (k, v) := entries[|entries| - 1];
      Assign(rest, k, v)
  }

  /** `o[k] = v` as `JSON.stringify` later sees it: an undefined value
      leaves no member behind. */
  function Assign(fields: map<string, JValue>, k: string, v: Option<JValue>): (r: map<string, JValue>)
    ensures Get(JObj(r), k) == v
    ensures forall j :: j != k ==> Get(JObj(r), j) == Get(JObj(fields), j)
  {
    if v.Some? then fields[k := v.value] else fields - {k}
  }

  /** `a === b`: objects and arrays parsed from JSON are distinct objects,
      so they are never strictly equal to anything else. */
  predicate StrictEquals(a: Option<JValue>, b: Option<JValue>)
  {
    a == b && (a.Some? ==> !a.value.JObj? && !a.value.JArr?)
  }

  /** The error body most handlers answer with: `{ error: message }`. */
  function ErrorBody(message: string): JValue
  {
    JObj(map["error" := JStr(message)])
  }
}
