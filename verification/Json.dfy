/** JSON values as the billing code inspects and rewrites them. Numbers are
    integers of any size; AsI64 is the accessor that refuses the ones outside
    the signed 64-bit range. */
module Json {
  import opened Prelude

  datatype Json =
    | Null
    | Bool(b: bool)
    | Num(n: int)
    | Str(s: string)
    | Arr(items: seq<Json>)
    | Obj(fields: map<string, Json>)
  {
    function Get(key: string): Option<Json> {
      if Obj? && key in fields then Some(fields[key]) else None
    }

    function AsI64(): Option<int> {
      if Num? && I64_MIN <= n <= I64_MAX then Some(n) else None
    }

    function AsU64(): Option<int> {
      if Num? && 0 <= n <= 0xFFFF_FFFF_FFFF_FFFF then Some(n) else None
    }
  }

  function FieldI64(j: Json, key: string): Option<int> {
    var v := j.Get(key);
    if v.Some? then v.value.AsI64() else None
  }
}
