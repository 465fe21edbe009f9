/** Stored documents as plain JSON values whose objects keep their key
    order, and the three ways the code reads them: `o.k` (throws on null or
    undefined), `o?.k` (undefined instead), and `Object.entries(o)`. */
module Json {
  import opened Common
  import opened OrderedMap

  datatype Json =
    | JStr(s: string)
    | JNum(n: int)
    | JBool(b: bool)
    | JNull
    | JArr(items: seq<Json>)
    | JObj(entries: OMap<Json>)

  /** JavaScript truthiness of a possibly undefined value. */
  predicate Truthy(v: Option<Json>)
  {
    match v
    case None => false
    case Some(JNull) => false
    case Some(JBool(b)) => b
    case Some(JNum(n)) => n != 0
    case Some(JStr(s)) => s != ""
    case Some(JArr(_)) => true
    case Some(JObj(_)) => true
  }

  /** `v?.k`: the property of an object, undefined for anything else. */
  function Opt(v: Option<Json>, k: string): (r: Option<Json>)
    ensures r.Some? ==> v.Some? && v.value.JObj? && Has(v.value.entries, k)
  {
    if v.Some? && v.value.JObj? then Find(v.value.entries, k) else None
  }

  /** `v.k`: a TypeError on null or undefined, otherwise as `v?.k`. */
  function Prop(v: Option<Json>, k: string): (r: Result<Option<Json>>)
    ensures r.Err? <==> v.None? || v == Some(JNull)
    ensures r.Ok? ==> r.value == Opt(v, k)
  {
    if v.None? || v == Some(JNull) then Err("TypeError: cannot read property '" + k + "'")
    else Ok(Opt(v, k))
  }

  /** Decimal digits of n, as array indices are named. */
  function NatToString(n: nat): (r: string)
    ensures |r| >= 1
    decreases n
  {
    var d := [(48 + n % 10) as char];
    if n < 10 then d else NatToString(n / 10) + d
  }

  /** `Object.entries(v)`: an object's entries in order, an array's items
      under their indices, nothing for the other values (a string's
      characters are left out: nothing the code reads is found on them). */
  function Entries(v: Option<Json>): (r: OMap<Json>)
    ensures v.Some? && v.value.JObj? ==> r == v.value.entries
    ensures v.Some? && v.value.JArr? ==> Values(r) == v.value.items
  {
    if v.Some? && v.value.JObj? then v.value.entries
    else if v.Some? && v.value.JArr? then
      var items := v.value.items;
      var r := seq(|items|, i requires 0 <= i < |items| => (NatToString(i), items[i]));
      assert Values(r) == items;
      r
    else []
  }

  /** `Object.keys(o || {})` of a possibly missing object. */
  function KeysOf(v: Option<Json>): (r: seq<string>)
    ensures |r| == |Entries(v)|
  {
    Keys(Entries(v))
  }
}
