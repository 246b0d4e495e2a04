/** The values `json.loads` produces, the records the pipeline writes, and the
    parser itself, which is a library call and stays uninterpreted. */
module Json {
  import opened Wrappers

  /** A decoded JSON document as Python sees it: `int` and `float` numbers
      are told apart, an object is a `dict` (keys are unique; the last
      duplicate wins, which a map already captures). */
  datatype Json =
    | JNull
    | JBool(b: bool)
    | JInt(i: int)
    | JFloat(f: real)
    | JStr(s: string)
    | JArray(items: seq<Json>)
    | JObject(fields: map<string, Json>)

  /** One output row: a Python dict from column name to value. */
  type Record = map<string, Json>

  /** `json.loads`: either a value or the message of the `JSONDecodeError`
      it raises. Any function of this type is a possible parser. */
  type Parser = string -> Result<Json>

  /** The message of the `TypeError` raised by `v[key] = ...` with a string
      key, for each kind of non-dict value `json.loads` can return. */
  function ItemAssignError(v: Json): (msg: string)
    requires !v.JObject?
    ensures msg != ""
  {
    match v
    case JNull => "'NoneType' object does not support item assignment"
    case JBool(_) => "'bool' object does not support item assignment"
    case JInt(_) => "'int' object does not support item assignment"
    case JFloat(_) => "'float' object does not support item assignment"
    case JStr(_) => "'str' object does not support item assignment"
    case JArray(_) => "list indices must be integers or slices, not str"
  }
}
