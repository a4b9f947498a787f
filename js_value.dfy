/** The dynamic values a route reads from parsed JSON, with `undefined` for a
    property that is not there. */
module JsValue {

  datatype Value =
    | Undefined
    | Null
    | Bool(b: bool)
    | Num(n: real)
    | Str(s: string)
    | Arr(elems: seq<Value>)
    | Obj(fields: map<string, Value>)

  /** `v?.key`: a field of an object; `undefined` for a missing field and for
      any value that is not an object (JSON parsing gives no other value a
      property of the names the routes read). */
  function Get(v: Value, key: string): (r: Value)
    ensures !v.Obj? ==> r == Undefined
    ensures v.Obj? && key !in v.fields ==> r == Undefined
  {
    if v.Obj? && key in v.fields then v.fields[key] else Undefined
  }

  predicate IsNullish(v: Value) { v.Undefined? || v.Null? }

  /** `v ?? fallback`: the fallback only for `null` and `undefined`, so that
      `false` and `0` are kept. */
  function Coalesce(v: Value, fallback: Value): (r: Value)
    ensures IsNullish(v) ==> r == fallback
    ensures !IsNullish(v) ==> r == v
  {
    if IsNullish(v) then fallback else v
  }
}
