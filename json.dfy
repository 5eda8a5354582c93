/** A parsed JSON value, as `JSON.parse` returns it. */
module Json {
  import opened Wrappers

  datatype Json =
    | JNull
    | JBool(b: bool)
    | JNumber(n: real)
    | JString(s: string)
    | JArray(items: seq<Json>)
    | JObject(fields: map<string, Json>)

  /** `value[key]` on an object; `None` stands for `undefined`. */
  function Field(value: Json, key: string): Option<Json> {
    if value.JObject? && key in value.fields then Some(value.fields[key]) else None
  }
}
