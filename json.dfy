/** JSON values as Python's `json` module loads them, and the three ways a
    `dict.get(key)` lookup can come out. */
module JsonData {

  /** A decoded JSON document. Numbers are integers; objects are maps, so the
      insertion order Python keeps for dict keys is not represented. */
  datatype Json =
    | JNull
    | JBool(b: bool)
    | JNum(n: int)
    | JStr(s: string)
    | JArr(items: seq<Json>)
    | JObj(fields: map<string, Json>)

  /** A key of a loaded JSON object: missing, present with the value `null`
      (Python's `None`), or present with a value. `info.get(k, default)`
      yields the default only when the key is `Absent`. */
  datatype Field<+T> = Absent | Null | Present(value: T)
}
