/** JSON values as the bot holds them once decoded: Python dicts, lists, strings, numbers. */
module Json {
  import opened Text

  datatype Json =
    | JNull
    | JBool(b: bool)
    | JInt(i: int)
    | JStr(s: string)
    | JArr(items: seq<Json>)
    | JObj(fields: Object)

  /** A decoded JSON object: a Python dict with string keys. */
  type Object = map<string, Json>

  /** Python truthiness of a decoded JSON value. */
  predicate Truthy(j: Json) {
    match j
    case JNull => false
    case JBool(b) => b
    case JInt(i) => i != 0
    case JStr(s) => s != ""
    case JArr(items) => items != []
    case JObj(fields) => fields != map[]
  }

  /** What an f-string shows for a scalar value: Python's str(). */
  function PyStr(j: Json): string {
    match j
    case JNull => "None"
    case JBool(b) => if b then "True" else "False"
    case JInt(i) => IntText(i)
    case JStr(s) => s
    case JArr(_) => "[...]"
    case JObj(_) => "{...}"
  }

  /** A Python list of strings, as JSON. */
  function Strings(names: seq<string>): Json {
    JArr(seq(|names|, i requires 0 <= i < |names| => JStr(names[i])))
  }
}
