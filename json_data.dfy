/** Parsed JSON values, as Flask's `request.json` hands them to a handler
    and as `jsonify` and the browser's `response.json()` exchange them. */
module JsonData {
  import opened Text

  datatype Json =
    | JNull
    | JBool(boolValue: bool)
    | JNumber(num: real)
    | JString(str: string)
    | JArray(items: seq<Json>)
    | JObject(fields: map<string, Json>)

  /** The outcome of Python's `key in data` followed by `data[key]` on a
      parsed body. */
  datatype Lookup = Found(value: Json) | Missing | Raises

  /** `key in data` is key membership on an object, element membership on
      a list and substring search on a string, and raises `TypeError` on
      null, booleans and numbers; `data[key]` then succeeds only on an
      object, and on a list or a string raises `TypeError` too. */
  function LookupKey(data: Json, key: string): (r: Lookup)
    ensures r.Found? <==> data.JObject? && key in data.fields
    ensures r.Found? ==> r.value == data.fields[key]
    ensures r.Missing? ==> data.JObject? || data.JArray? || data.JString?
    ensures data.JObject? ==> !r.Raises?
    ensures data.JArray? ==> (r.Raises? <==> JString(key) in data.items)
    ensures data.JString? ==> (r.Raises? <==> Contains(data.str, key))
  {
    match data
    case JObject(fields) => if key in fields then Found(fields[key]) else Missing
    case JArray(items) => if JString(key) in items then Raises else Missing
    case JString(s) => if Contains(s, key) then Raises else Missing
    case _ => Raises
  }
}
