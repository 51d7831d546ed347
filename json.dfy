/** The values `json.loads` produces, as the advisor sees them.  Objects are
    dictionaries from keys to values; the order of their keys plays no part
    in what is modelled. */
module JsonValues {

  datatype Json =
    | JNull
    | JBool(b: bool)
    | JNumber(n: real)
    | JString(s: string)
    | JArray(items: seq<Json>)
    | JObject(fields: map<string, Json>)
}
