/** The values the store holds, its entries and the liveness rule of app/kv.py. */
module Values {

  /** The closed set of values `Kv.add` accepts: str, int, bool, dict or None. */
  datatype Value =
    | Str(s: string)
    | Int(i: int)
    | Bool(b: bool)
    | Dict(fields: map<string, Value>)
    | Null

  /** Python truthiness of a stored value, as `if not value` uses it. */
  predicate Truthy(v: Value)
  {
    match v
    case Str(s) => s != ""
    case Int(i) => i != 0
    case Bool(b) => b
    case Dict(m) => m != map[]
    case Null => false
  }

  /** `dict.get(name)` on a dict value: the field, or None. */
  function Field(v: Value, name: string): (r: Value)
    requires v.Dict?
    ensures name !in v.fields ==> r == Null
  {
    if name in v.fields then v.fields[name] else Null
  }

  /** Python's `v == i` for an int i: an int equal to it, or a bool (True == 1, False == 0). */
  predicate EqualsInt(v: Value, i: int)
  {
    v == Int(i) || (v.Bool? && (if v.b then 1 else 0) == i)
  }

  /** The expiry sentinel meaning "never expires". */
  const NEVER: int := -1

  /** What `_data` maps a key to: the value and its absolute expiry time (or NEVER). */
  datatype Entry = Entry(value: Value, expiry: int)

  /** An entry with this expiry is live at time now: never-expiring, or not yet past its expiry. */
  predicate Live(expiry: int, now: int)
  {
    expiry == NEVER || now <= expiry
  }
}
