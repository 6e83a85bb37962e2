/** JSON trees as Go's `map[string]any` sees them. */
module Json {
  type Obj = map<string, Json>

  datatype Json =
    | JNull
    | JBool(b: bool)
    | JNum(n: real)
    | JStr(s: string)
    | JArr(items: seq<Json>)
    | JObj(fields: Obj)

  /** The value of a field, null when the key is absent. */
  function Field(o: Obj, k: string): Json {
    if k in o then o[k] else JNull
  }
}
