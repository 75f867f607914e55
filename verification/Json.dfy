/** Decoded JSON values, as the request decoders and the geometry reader receive them. */
module Json {
  datatype Json =
    | Null
    | Bool(flag: bool)
    | Num(number: real)
    | Str(text: string)
    | Arr(items: seq<Json>)
    | Obj(fields: map<string, Json>)
}
