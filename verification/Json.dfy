/** JSON values, as dictionaries and lists of the program carry them. */
module Json {
  datatype Json =
    | Null
    | Bool(b: bool)
    | Number(value: real)
    | Str(text: string)
    | Arr(items: seq<Json>)
    | Obj(fields: map<string, Json>)
}
