/** A decoded JSON value. Numbers are exact reals: Python's decoder yields an int or a
    float, and every use in the model reads them through `int(...)` or arithmetic. */
module Json {

  datatype Json =
    | JNull
    | JBool(b: bool)
    | JNum(n: real)
    | JStr(s: string)
    | JArr(elems: seq<Json>)
    | JObj(fields: map<string, Json>)
}
