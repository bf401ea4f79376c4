/** JSON values and the `serde_json` accessors the renderers use. */
module JsonModel {
  import opened Prelude

  datatype Value =
    | Null
    | Bool(b: bool)
    | Int(i: int)
    | Float(r: real)
    | Str(s: string)
    | Array(items: seq<Value>)
    | Object(fields: map<string, Value>)

  /** `v.get(key)` */
  function Get(v: Value, key: string): Option<Value> {
    if v.Object? && key in v.fields then Some(v.fields[key]) else None
  }

  function AsStr(v: Option<Value>): Option<string> {
    if v.Some? && v.value.Str? then Some(v.value.s) else None
  }

  function AsArray(v: Option<Value>): Option<seq<Value>> {
    if v.Some? && v.value.Array? then Some(v.value.items) else None
  }

  /** `v.get(key).and_then(Value::as_str)` */
  function GetStr(v: Value, key: string): Option<string> {
    AsStr(Get(v, key))
  }

  function GetArray(v: Value, key: string): Option<seq<Value>> {
    AsArray(Get(v, key))
  }

  function Or<T>(v: Option<T>, default: T): T {
    if v.Some? then v.value else default
  }

  /** `v.get(key).and_then(Value::as_str).unwrap_or(default)` */
  function StrOr(v: Value, key: string, default: string): string {
    Or(GetStr(v, key), default)
  }

  /** `v.get(key).and_then(Value::as_bool).unwrap_or(false)` */
  function Flag(v: Value, key: string): bool {
    var x := Get(v, key);
    x.Some? && x.value.Bool? && x.value.b
  }

  /** `as_i64`, for numbers in range. */
  function I64Or0(v: Value, key: string): int {
    var x := Get(v, key);
    if x.Some? && x.value.Int? && -0x8000_0000_0000_0000 <= x.value.i < 0x8000_0000_0000_0000 then x.value.i else 0
  }

  /** `as_u64`, for numbers in range. */
  function U64Or0(v: Value, key: string): nat {
    var x := Get(v, key);
    if x.Some? && x.value.Int? && 0 <= x.value.i < 0x1_0000_0000_0000_0000 then x.value.i else 0
  }
}
