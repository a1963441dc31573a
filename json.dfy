/**
 * JSON values as `JSON.parse` produces them and `NextResponse.json` /
 * `response.json()` carry them. A number is kept as a real; only whether
 * it is zero ever matters.
 */
module Json {
  import opened Wrappers

  datatype Json =
    | JNull
    | JBool(b: bool)
    | JNum(n: real)
    | JStr(s: string)
    | JArr(elems: seq<Json>)
    | JObj(fields: map<string, Json>)

  /** `typeof v === "object" && v !== null`: arrays are records too. */
  predicate IsRecord(v: Json) {
    v.JArr? || v.JObj?
  }

  /**
   * `v.key` for a non-null value: an own field of an object, `undefined`
   * (`None`) for every other value. None of the keys the application reads
   * (`name`, `items`, `error`, ...) is a property of a string, number,
   * boolean or array.
   */
  function Lookup(v: Json, key: string): (r: Option<Json>)
    ensures r.Some? <==> v.JObj? && key in v.fields
    ensures r.Some? ==> r.value == v.fields[key]
  {
    if v.JObj? && key in v.fields then Some(v.fields[key]) else None
  }

  /** JavaScript truthiness of a value (`None` being `undefined`). */
  predicate Truthy(o: Option<Json>) {
    match o
    case None => false
    case Some(JNull) => false
    case Some(JBool(b)) => b
    case Some(JNum(n)) => n != 0.0
    case Some(JStr(s)) => s != ""
    case Some(JArr(_)) => true
    case Some(JObj(_)) => true
  }

  /** `{ error: message }` */
  function ErrorBody(message: string): (j: Json)
    ensures Lookup(j, "error") == Some(JStr(message))
  {
    JObj(map["error" := JStr(message)])
  }
}
