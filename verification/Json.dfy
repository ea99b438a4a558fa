/** JSON values as the parsers see them. */
module Json {
  import opened Common

  datatype Value =
    | Null
    | Bool(b: bool)
    | Num(n: int)
    | Str(s: string)
    | Arr(items: seq<Value>)
    | Obj(fields: Entity)

  type Entity = map<string, Value>

  function Field(e: Entity, key: string): Option<Value> {
    if key in e then Some(e[key]) else None
  }

  /** `value.get(key)`: nothing on anything but an object. */
  function Get(v: Value, key: string): Option<Value> {
    if v.Obj? then Field(v.fields, key) else None
  }

  /** A member that is present and a string. */
  function StrField(e: Entity, key: string): Option<string> {
    match Field(e, key)
    case Some(Str(s)) => Some(s)
    case _ => None
  }

  /** The objects of a list. */
  function Objects(items: seq<Value>): seq<Entity> {
    if items == [] then []
    else (if items[0].Obj? then [items[0].fields] else []) + Objects(items[1..])
  }

  predicate EndsWith(s: string, suffix: string) {
    |suffix| <= |s| && s[|s| - |suffix|..] == suffix
  }
}
