/** The JavaScript values that Firestore documents and React state hold, with
    JavaScript's truthiness and object spread. Numbers are integers: floating
    point is not part of this model. */
module Js {
  import opened Wrappers

  datatype Value =
    | Undefined
    | Null
    | Bool(b: bool)
    | Num(n: int)
    | Str(s: string)
    | Arr(elems: seq<Value>)
    | Obj(fields: Doc)

  /** A plain object: a field that is absent reads as `undefined`. */
  type Doc = map<string, Value>

  /** `!!v`. */
  predicate Truthy(v: Value) {
    match v
    case Undefined => false
    case Null => false
    case Bool(b) => b
    case Num(n) => n != 0
    case Str(s) => s != ""
    case Arr(_) => true
    case Obj(_) => true
  }

  /** `d[key]`. */
  function Get(d: Doc, key: string): (v: Value)
    ensures key !in d ==> v == Undefined
  {
    if key in d then d[key] else Undefined
  }

  /** `a || b`. */
  function Or(a: Value, b: Value): (v: Value)
    ensures Truthy(a) ==> v == a
    ensures !Truthy(a) ==> v == b
  {
    if Truthy(a) then a else b
  }

  /** `{ ...a, ...b }`: every field of `b` overrides the same field of `a`. */
  function Spread(a: Doc, b: Doc): (r: Doc)
    ensures r.Keys == a.Keys + b.Keys
    ensures forall k :: k in b ==> r[k] == b[k]
    ensures forall k :: k in a && k !in b ==> r[k] == a[k]
  {
    a + b
  }

  /** `Array.isArray(v)`. */
  predicate IsArray(v: Value) {
    v.Arr?
  }

  /** The error thrown by an operation on a value of the wrong type; its
      message text is not modelled. */
  const TypeError := "TypeError"

  /** `[...v]`: an array spreads into its elements and a string into its
      characters, each a one-character string; `undefined`, `null`, booleans,
      numbers and plain objects are not iterable, and the spread throws. */
  function ArraySpread(v: Value): (r: Result<seq<Value>, string>)
    ensures v.Arr? ==> r == Ok(v.elems)
    ensures v.Str? ==> r.Ok? && |r.value| == |v.s|
    ensures v.Str? ==> forall i :: 0 <= i < |v.s| ==> r.value[i] == Str([v.s[i]])
    ensures !v.Arr? && !v.Str? ==> r == Err(TypeError)
  {
    match v
    case Arr(elems) => Ok(elems)
    case Str(s) => Ok(seq(|s|, i requires 0 <= i < |s| => Str([s[i]])))
    case _ => Err(TypeError)
  }

  /** `a === b`. Primitives compare by value; arrays and objects compare by
      reference, which this model does not track, so they equal nothing. */
  predicate StrictEq(a: Value, b: Value) {
    a == b && !a.Arr? && !a.Obj?
  }
}
