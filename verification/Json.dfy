/** JSON values as Go's `any` holds them. */
module Json {

  /** `Null` is also Go's nil. */
  datatype Json =
    | Null
    | Bool(b: bool)
    | Num(n: real)
    | Str(s: string)
    | Arr(items: seq<Json>)
    | Obj(fields: map<string, Json>)
}
