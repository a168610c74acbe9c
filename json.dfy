/**
 * The values `json.loads` can produce, as Python sees them: `None`, booleans, numbers,
 * strings, lists and dicts with string keys. Python's `None` and JSON `null` are the
 * same value, so `JNull` also stands for a Python function returning `None`.
 */
module JsonValues {
  import opened Wrappers

  datatype Json =
    | JNull
    | JBool(b: bool)
    | JNumber(num: real)
    | JString(str: string)
    | JArray(items: seq<Json>)
    | JObject(fields: map<string, Json>)

  /** `json.loads`: decoded text, or `None` where it raises `JSONDecodeError`. */
  type Decoder = string -> Option<Json>

  /** Python truthiness (`if x:` / `if not x:`) of a decoded value: false for exactly the six empty or zero values. */
  predicate Truthy(j: Json)
    ensures !Truthy(j) <==>
              j == JNull || j == JBool(false) || j == JNumber(0.0) || j == JString([]) || j == JArray([]) || j == JObject(map[])
  {
    match j
    case JNull => false
    case JBool(b) => b
    case JNumber(n) => n != 0.0
    case JString(s) => s != []
    case JArray(items) => items != []
    case JObject(fields) => fields != map[]
  }

  /** `d.get(key)` on a dict: the value, or `None` when the key is absent. */
  function DictGet(fields: map<string, Json>, key: string): (r: Json)
    ensures key in fields ==> r == fields[key]
    ensures r != JNull ==> key in fields
  {
    if key in fields then fields[key] else JNull
  }
}
