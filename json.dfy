/**
 * The JSON-like values the persistence layer reads back from storage. JavaScript's
 * `undefined` (a missing property, or `?.` on a non-object) is `None`; `null` is `JNull`.
 */
module Json {
  import opened Wrappers
  import opened Text

  datatype Json =
    | JNull
    | JBool(b: bool)
    | JNum(n: real)
    | JStr(s: string)
    | JArr(items: seq<Json>)
    | JObj(fields: map<string, Json>)

  /** `v?.key`: the property of an object, `undefined` for every other value. */
  function Get(v: Json, key: string): Option<Json> {
    if v.JObj? && key in v.fields then Some(v.fields[key]) else None
  }

  /** `v?.key` where `v` may itself be `undefined`. */
  function GetOpt(v: Option<Json>, key: string): Option<Json> {
    if v.Some? then Get(v.value, key) else None
  }

  /** `null` or `undefined`: the values `??` and `?.` look through. */
  predicate IsNullish(v: Option<Json>) {
    v == None || v == Some(JNull)
  }

  /** `v ?? d`. */
  function Coalesce(v: Option<Json>, d: Json): (r: Json)
    ensures r != JNull <==> (d != JNull || !IsNullish(v))
  {
    if IsNullish(v) then d else v.value
  }

  /** JavaScript's `Boolean(v)` (NaN is not a value of this model). */
  predicate Truthy(v: Option<Json>) {
    match v
    case None => false
    case Some(JNull) => false
    case Some(JBool(b)) => b
    case Some(JNum(n)) => n != 0.0
    case Some(JStr(s)) => s != ""
    case Some(_) => true
  }

  /** `typeof v === 'object' && v !== null`: objects and arrays. */
  predicate IsObjectLike(v: Json) {
    v.JObj? || v.JArr?
  }

  /** `Array.isArray(v) ? v : []`. */
  function ArrayOr(v: Option<Json>): seq<Json> {
    if v.Some? && v.value.JArr? then v.value.items else []
  }

  /** The own enumerable properties of an object or array: what `{ ...v }` and `Object.entries(v)` see. */
  function Spread(v: Json): (m: map<string, Json>)
    requires IsObjectLike(v)
    ensures v.JObj? ==> m == v.fields
    ensures v.JArr? ==> forall i :: 0 <= i < |v.items| ==> NatToString(i) in m && m[NatToString(i)] == v.items[i]
  {
    if v.JObj? then v.fields
    else
      var xs := v.items;
      forall a: nat, b: nat | NatToString(a) == NatToString(b) ensures a == b {
        NatToStringInjective(a, b);
      }
      map i | 0 <= i < |xs| :: NatToString(i) := xs[i]
  }

  /** `typeof v === 'object' && v !== null ? { ...v } : v`. */
  function ShallowCopy(v: Json): (r: Json)
    ensures IsObjectLike(v) ==> r.JObj? && r.fields == Spread(v)
    ensures !IsObjectLike(v) ==> r == v
  {
    if IsObjectLike(v) then JObj(Spread(v)) else v
  }

  /** Copying an object keeps it as it is: the copy is a fixed point. */
  lemma ShallowCopyIdempotent(v: Json)
    ensures ShallowCopy(ShallowCopy(v)) == ShallowCopy(v)
  {
  }
}
