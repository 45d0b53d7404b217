/** JSON documents as the protocol carries them, and the two JavaScript object
    idioms that client and server rely on: spreading a value into a fresh record and
    comparing two values with `===`. Numbers are integers. */
module Json {
  datatype Option<+T> = None | Some(value: T)

  datatype Json =
    | Null
    | Bool(b: bool)
    | Num(n: int)
    | Str(s: string)
    | Arr(items: seq<Json>)
    | Obj(fields: map<string, Json>)

  type Fields = map<string, Json>

  /** A JSON object. */
  type Object = j: Json | j.Obj? witness Obj(map[])

  const EMPTY: Object := Obj(map[])

  predicate IsScalar(v: Json) {
    !v.Arr? && !v.Obj?
  }

  /** `a === b`. Objects and arrays compare by identity, and two documents that
      were parsed or stored separately never share one. */
  predicate StrictEq(a: Json, b: Json) {
    IsScalar(a) && a == b
  }

  function Digits(n: nat): string {
    if n < 10 then [('0' as int + n) as char] else Digits(n / 10) + Digits(n % 10)
  }

  /** The record of indices that spreading an array produces. */
  function Indexed(items: seq<Json>): Fields {
    if items == [] then map[]
    else Indexed(items[..|items| - 1])[Digits(|items| - 1) := items[|items| - 1]]
  }

  /** `{...v}`. */
  function Spread(v: Json): Fields {
    match v
    case Obj(m) => m
    case Arr(items) => Indexed(items)
    case Str(s) => Indexed(seq(|s|, i requires 0 <= i < |s| => Str([s[i]])))
    case _ => map[]
  }

  /** `typeof v === 'object' && v !== null ? {...v} : {}`. */
  function SpreadObject(v: Json): Fields {
    if v.Obj? || v.Arr? then Spread(v) else map[]
  }
}
