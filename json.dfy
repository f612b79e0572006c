/**
 * JSON-like response and document data as the Python code handles it:
 * `None`, booleans, integers, strings, lists and dicts. Key order inside a
 * dict is not modelled.
 */
module Json {

  datatype Json =
    | JNull
    | JBool(b: bool)
    | JInt(i: int)
    | JStr(s: string)
    | JList(items: seq<Json>)
    | JDict(fields: map<string, Json>)

  /** A JSON object as the code manipulates it in place. */
  type Object = map<string, Json>
}
