/** Plain JavaScript values as the local-storage modules see them: records
    are string-keyed maps, `{...a, ...b}` is map union with b winning, a
    missing property reads as `undefined` (None), and `===` compares
    primitives by value and objects by identity (two objects parsed from
    storage are never identical). */
module JsValue {
  import opened Common

  datatype Val =
    | Str(s: string)
    | Num(n: real)
    | Bool(b: bool)
    | Null
    | Arr(items: seq<Val>)
    | Obj(fields: map<string, Val>)

  type JsObject = map<string, Val>

  /** Property read: `o[k]`, None standing for `undefined`. */
  function Get(o: JsObject, k: string): (r: Option<Val>)
    ensures r.Some? <==> k in o
    ensures r.Some? ==> r.value == o[k]
  {
    if k in o then Some(o[k]) else None
  }

  /** JavaScript truthiness of a possibly undefined value. */
  predicate Truthy(v: Option<Val>)
  {
    match v
    case None => false
    case Some(Null) => false
    case Some(Bool(b)) => b
    case Some(Num(n)) => n != 0.0
    case Some(Str(s)) => s != ""
    case Some(Arr(_)) => true
    case Some(Obj(_)) => true
  }

  /** `a === b` for values read from storage. */
  predicate StrictEq(a: Option<Val>, b: Option<Val>)
  {
    match (a, b)
    case (None, None) => true
    case (Some(Str(x)), Some(Str(y))) => x == y
    case (Some(Num(x)), Some(Num(y))) => x == y
    case (Some(Bool(x)), Some(Bool(y))) => x == y
    case (Some(Null), Some(Null)) => true
    case _ => false
  }

  /** `{...a, ...b}`: every key of either, b's value where both have one. */
  function Spread(a: JsObject, b: JsObject): (r: JsObject)
    ensures r.Keys == a.Keys + b.Keys
    ensures forall k :: k in b ==> r[k] == b[k]
    ensures forall k :: k in a && k !in b ==> r[k] == a[k]
  {
    a + b
  }

  /** `o.k.toLowerCase()`: throws a TypeError unless the property is a string. */
  function LowerField(o: JsObject, k: string): (r: Result<string>)
    ensures r.Ok? <==> k in o && o[k].Str?
    ensures r.Ok? ==> r.value == ToLower(o[k].s)
  {
    if k in o && o[k].Str? then Ok(ToLower(o[k].s)) else Err("TypeError: " + k + " is not a string")
  }

  /** `o.k.toUpperCase()`. */
  function UpperField(o: JsObject, k: string): (r: Result<string>)
    ensures r.Ok? <==> k in o && o[k].Str?
    ensures r.Ok? ==> r.value == ToUpper(o[k].s)
  {
    if k in o && o[k].Str? then Ok(ToUpper(o[k].s)) else Err("TypeError: " + k + " is not a string")
  }
}
