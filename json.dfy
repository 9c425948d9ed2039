/**
 * The JavaScript values that the booking app keeps in browser storage, and
 * plain objects as finite maps from property names to values.
 *
 * Only what survives `JSON.stringify` / `JSON.parse` is represented: there is
 * no `undefined`, no function and no `NaN`. Numbers are integers, which is
 * what `Date.now()` produces; fractional hours and costs are not modelled.
 * An object spread with overrides, `{ ...obj, k: v }`, is the map update
 * `obj[k := v]`.
 */
module Json {
  import opened Wrappers

  datatype Value =
    | Null
    | Bool(b: bool)
    | Num(n: int)
    | Str(s: string)
    | Arr(items: seq<Value>)
    | Obj(fields: map<string, Value>)

  /** A plain object such as `{ serviceId, serviceName, duration, ... }`. */
  type Record = map<string, Value>

  /** A parsed JSON value that is not an array (`{}`, `null`, `5`, `"x"`, `true`). */
  type Scalar = v: Value | !v.Arr? witness Null

  /** Property access `obj.key`; `None` is JavaScript's `undefined` for a missing key. */
  function Get(obj: Record, key: string): Option<Value> {
    if key in obj then Some(obj[key]) else None
  }
}
