/**
 * JSON-like values, as the planner's dictionaries hold them. A plan is a
 * dictionary from field names to values; the language model may put any
 * value under any key. Numbers are integers only.
 */
module Json {
  datatype Value =
    | JNull
    | JBool(b: bool)
    | JNum(n: int)
    | JStr(s: string)
    | JArr(items: seq<Value>)
    | JObj(fields: map<string, Value>)

  /** A Python `dict` of JSON values; plans have this type. */
  type Dict = map<string, Value>

  /** Python truthiness of a JSON value. */
  predicate Truthy(v: Value) {
    match v
    case JNull => false
    case JBool(b) => b
    case JNum(n) => n != 0
    case JStr(s) => s != ""
    case JArr(items) => items != []
    case JObj(fields) => fields != map[]
  }

  /** `d.get(k, default)`. */
  function GetOr(d: Dict, k: string, default: Value): (r: Value)
    ensures k in d ==> r == d[k]
    ensures k !in d ==> r == default
  {
    if k in d then d[k] else default
  }

  /** `d.setdefault(k, v)`, as the state of `d` afterwards. */
  function SetDefault(d: Dict, k: string, v: Value): (r: Dict)
    ensures r.Keys == d.Keys + {k}
    ensures k in d ==> r == d
    ensures k !in d ==> r[k] == v
    ensures forall j :: j in d ==> r[j] == d[j]
  {
    if k in d then d else d[k := v]
  }
}
