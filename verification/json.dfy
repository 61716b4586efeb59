/** JSON values as the backend returns them. */
module JsonValue {
  datatype Json =
    | JNull
    | JBool(b: bool)
    | JNum(n: real)
    | JStr(s: string)
    | JArr(items: seq<Json>)
    | JObj(fields: map<string, Json>)

  /** One `[key, value]` pair of `Object.entries`, which keeps insertion order. */
  datatype Entry = Entry(key: string, value: Json)
}
