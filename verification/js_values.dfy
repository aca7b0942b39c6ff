/** JavaScript values as the extension and the dashboard exchange them. */
module JsValues {
  import opened Wrappers
  import Text
  import Numbers

  /** A value as `JSON.parse` or structured cloning delivers it. Numbers are modelled as
      integers. */
  datatype Json =
    | JNull
    | JBool(b: bool)
    | JNumber(n: int)
    | JString(s: string)
    | JArray(items: seq<Json>)
    | JObject(fields: map<string, Json>)

  /** JavaScript truthiness of a present value. */
  predicate Truthy(j: Json) {
    match j
    case JNull => false
    case JBool(b) => b
    case JNumber(n) => n != 0
    case JString(s) => s != ""
    case _ => true
  }

  /** Truthiness of a possibly `undefined` value (`None`). */
  predicate TruthyOpt(v: Option<Json>) {
    v.Some? && Truthy(v.value)
  }

  /** `typeof v === "object"`: null, arrays and plain objects. */
  predicate IsObjectType(j: Json) {
    j.JNull? || j.JArray? || j.JObject?
  }

  /** `v?.key`: a property of an object, `undefined` (`None`) for anything else. */
  function Property(v: Option<Json>, key: string): (r: Option<Json>)
    ensures r.Some? <==> v.Some? && v.value.JObject? && key in v.value.fields
    ensures r.Some? ==> r.value == v.value.fields[key]
  {
    match v
    case Some(JObject(fields)) => if key in fields then Some(fields[key]) else None
    case _ => None
  }

  /** The message of the `TypeError` thrown on reading property `key` of `null`, in the wording
      of the V8 engine that runs the extension. */
  function NullPropertyError(key: string): string {
    "Cannot read properties of null (reading '" + key + "')"
  }

  /** `String(v)`: arrays are joined with commas, with `null` elements as empty strings. */
  function ToJsString(j: Json): string
    decreases j
  {
    match j
    case JNull => "null"
    case JBool(b) => if b then "true" else "false"
    case JNumber(n) => Numbers.IntToString(n)
    case JString(s) => s
    case JArray(items) =>
      Text.Join(seq(|items|, i requires 0 <= i < |items| =>
        if items[i].JNull? then "" else ToJsString(items[i])), ",")
    case JObject(_) => "[object Object]"
  }
}
