/** JSON values as the backend stores them and the frontend receives them. */
module Json {

  /** A JSON value. Numbers are integers: the model never stores a fractional number. */
  datatype Value =
    | Null
    | Bool(b: bool)
    | Num(n: int)
    | Str(s: string)
    | Arr(items: seq<Value>)
    | Obj(fields: map<string, Value>)

  /** A record (a JSON object) maps each field name to its value. */
  type Record = map<string, Value>

  /** `{ ...base, ...over }`: a shallow merge in which the fields of `over` win. */
  function Spread(base: Record, over: Record): (r: Record)
    ensures r.Keys == base.Keys + over.Keys
    ensures forall k :: k in over ==> r[k] == over[k]
    ensures forall k :: k in base && k !in over ==> r[k] == base[k]
  {
    base + over
  }
}
