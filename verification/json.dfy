/**
 The request message as the runtime sees it: a tagged JSON-like value.
 An object is an ordered list of members (JavaScript keeps insertion order,
 and that order is the order of the query string).
 */
module Json {
  import opened Results

  datatype Value =
    | Str(s: string)
    | Num(n: int)
    | Bool(b: bool)
    | Null
    | Arr(items: seq<Value>)
    | Obj(members: seq<Member>)

  datatype Member = Member(key: string, value: Value)

  type Object = seq<Member>

  /** The keys of an object, in order. */
  function Keys(o: Object): (ks: seq<string>)
    ensures |ks| == |o|
    ensures forall i | 0 <= i < |o| :: ks[i] == o[i].key
  {
    if o == [] then [] else [o[0].key] + Keys(o[1..])
  }

  /** `o[k]` for an own property: the first member named `k`, or `undefined`. */
  function Lookup(o: Object, k: string): (r: Option<Value>)
    ensures r.None? <==> k !in Keys(o)
    ensures r.Some? ==> Member(k, r.value) in o
  {
    if o == [] then None
    else if o[0].key == k then Some(o[0].value)
    else Lookup(o[1..], k)
  }

  /** `delete o[k]`: drops the member named `k`, keeping the others in order. */
  function Remove(o: Object, k: string): (r: Object)
    ensures forall j :: Lookup(r, j) == if j == k then None else Lookup(o, j)
    ensures forall m :: m in r <==> m in o && m.key != k
    ensures |r| <= |o|
  {
    if o == [] then []
    else if o[0].key == k then Remove(o[1..], k)
    else [o[0]] + Remove(o[1..], k)
  }

  /** `o[k] = v` for an existing member `k`: the member keeps its place, nothing else changes. */
  function Replace(o: Object, k: string, v: Value): (r: Object)
    ensures Keys(r) == Keys(o)
    ensures forall j :: Lookup(r, j) == if j == k && k in Keys(o) then Some(v) else Lookup(o, j)
    ensures Lookup(o, k) == Some(v) ==> r == o
  {
    if o == [] then []
    else if o[0].key == k then [Member(k, v)] + o[1..]
    else [o[0]] + Replace(o[1..], k, v)
  }

  /** `isScalarType`: true exactly for strings, numbers and booleans (`typeof` is neither `object` nor `undefined`). */
  predicate IsScalar(v: Value) {
    v.Str? || v.Num? || v.Bool?
  }

  /** `isScalarType(value)` on a property that may be absent (`None` is `undefined`): `typeof` is neither `object` nor `undefined`. */
  function IsScalarType(v: Option<Value>): (b: bool)
    ensures b <==> v.Some? && TypeOf(v.value) != "object"
    ensures b <==> v.Some? && IsScalar(v.value)
  {
    match v
    case None => false
    case Some(x) => x.Str? || x.Num? || x.Bool?
  }

  /** The `typeof` name of a value. */
  function TypeOf(v: Value): (t: string)
    ensures t == "string" <==> v.Str?
    ensures t == "object" <==> !IsScalar(v)
  {
    match v
    case Str(_) => "string"
    case Num(_) => "number"
    case Bool(_) => "boolean"
    case _ => "object"
  }
}
