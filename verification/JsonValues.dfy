/** JSON values as `json.loads` returns them. Objects are maps: neither JSON equality
    nor the code modelled here depends on the order of an object's members. */
module JsonValues {

  datatype Json =
    | Null
    | Bool(b: bool)
    | Num(r: real)
    | Str(s: string)
    | Arr(items: seq<Json>)
    | Obj(fields: map<string, Json>)
}
