/** JSON values as trees, with the accessors the sources use on them. */
module JsonValues {
  import opened Wrappers

  datatype Numeral = Whole(i: int) | Fraction(r: real)

  datatype Json =
    | Null
    | Bool(b: bool)
    | Number(n: Numeral)
    | Str(s: string)
    | Arr(items: seq<Json>)
    | Obj(fields: map<string, Json>)
  {
    /** The member `key` of an object; nothing for every other value. */
    function Get(key: string): Option<Json> {
      if Obj? && key in fields then Some(fields[key]) else None
    }

    function AsStr(): Option<string> {
      if Str? then Some(s) else None
    }
  }

  type Fields = map<string, Json>

  function At(m: Fields, key: string): Option<Json> {
    if key in m then Some(m[key]) else None
  }

  /** `get(key)` then `as_str`. */
  function GetStr(j: Json, key: string): Option<string> {
    match j.Get(key)
    case None => None
    case Some(v) => v.AsStr()
  }
}
