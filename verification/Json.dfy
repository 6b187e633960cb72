/**
 JSON values as `serde_json::Value` holds them. Reading and printing JSON text is not modelled:
 a text that does not parse is `None`, and an object is a map, as the crate's sorted map is.
 */
module Json {
  import opened Wrappers

  datatype Number = Integer(int) | Float(real)

  datatype Json =
    | Null
    | Bool(bool)
    | Num(number: Number)
    | Str(text: string)
    | Arr(elements: seq<Json>)
    | Obj(members: map<string, Json>)

  type Members = map<string, Json>

  const U64_LIMIT := 0x1_0000_0000_0000_0000

  function Get(members: Members, key: string): Option<Json> {
    if key in members then Some(members[key]) else None
  }

  /** `Value::as_str` of an optional member. */
  function AsStr(value: Option<Json>): Option<string> {
    match value
    case Some(Str(text)) => Some(text)
    case _ => None
  }

  /** `Value::as_u64` of an optional member. */
  function AsU64(value: Option<Json>): Option<nat> {
    match value
    case Some(Num(Integer(n))) => if 0 <= n < U64_LIMIT then Some(n) else None
    case _ => None
  }
}
