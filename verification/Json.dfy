// JSON values: Tool arguments, Tool results, Business Config trees.
module Json {
  datatype Json =
    | Null
    | Bool(b: bool)
    | Number(n: real)
    | Str(s: string)
    | List(items: seq<Json>)
    | Mapping(fields: map<string, Json>)
}
