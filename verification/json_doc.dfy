/** The JSON documents stored in a story's `config` column. */
module JsonDoc {

  /** A JSON value; numbers are integers here (floating point is not modelled). */
  datatype Json =
    | JNull
    | JBool(b: bool)
    | JNumber(n: int)
    | JString(s: string)
    | JArray(items: seq<Json>)
    | JObject(fields: map<string, Json>)

  /** A story configuration: a JSON object. */
  type Config = map<string, Json>

  /** Python truthiness of the decoded value: null, false, 0, "", [] and {} are false. */
  predicate Truthy(j: Json)
  {
    match j
    case JNull => false
    case JBool(b) => b
    case JNumber(n) => n != 0
    case JString(s) => s != []
    case JArray(items) => items != []
    case JObject(fields) => fields != map[]
  }

  /** `config.get(key, default)`. */
  function Get(config: Config, key: string, default: Json): (v: Json)
    ensures key in config ==> v == config[key]
    ensures key !in config ==> v == default
  {
    if key in config then config[key] else default
  }
}
