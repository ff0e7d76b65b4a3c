/**
 * The JavaScript values the bookstore's handlers receive in parsed JSON request
 * bodies and keep in their in-memory records, with the three language rules the
 * handlers depend on: strict equality `===`, truthiness, and the string methods
 * `toLowerCase` and `includes`.
 */
module JsValue {

  /**
   * A JavaScript value. `Arr` and `Obj` come from parsing a request body, `Date` is
   * a `new Date()` stamped by the server (its time as an integer). Numbers are exact.
   */
  datatype Value =
    | Undefined
    | Null
    | Bool(b: bool)
    | Num(n: real)
    | Str(s: string)
    | Arr(elems: seq<Value>)
    | Obj(fields: map<string, Value>)
    | Date(time: int)

  /** A plain object such as a stored book or order: property name to value. */
  type Record = map<string, Value>

  /** `r[key]`: reading a property that is absent gives `undefined`. */
  function Get(r: Record, key: string): Value
  {
    if key in r then r[key] else Undefined
  }

  /**
   * `a === b`. Primitives compare by value. Arrays, objects and dates compare by
   * identity, and two such values never share an identity here: each was built
   * by a different request (a parsed body or a `new Date()`). So `===` is equality
   * on primitives and never holds of an object, array or date.
   */
  predicate StrictEq(a: Value, b: Value): (r: bool)
    ensures r <==> IsPrimitive(a) && a == b
  {
    match a
    case Undefined => b.Undefined?
    case Null => b.Null?
    case Bool(x) => b.Bool? && b.b == x
    case Num(x) => b.Num? && b.n == x
    case Str(x) => b.Str? && b.s == x
    case _ => false
  }

  /** The values `===` can find equal to something: those compared by value. */
  predicate IsPrimitive(v: Value)
  {
    v.Undefined? || v.Null? || v.Bool? || v.Num? || v.Str?
  }

  /**
   * `if (v)`: the falsy values are exactly undefined, null, false, 0 and the empty
   * string; every array, object and date is truthy, even an empty one.
   */
  predicate Truthy(v: Value): (r: bool)
    ensures !r <==> v == Undefined || v == Null || v == Bool(false) || v == Num(0.0) || v == Str("")
    ensures v.Arr? || v.Obj? || v.Date? ==> r
  {
    match v
    case Undefined => false
    case Null => false
    case Bool(x) => x
    case Num(x) => x != 0.0
    case Str(x) => x != ""
    case _ => true
  }

  /** `String.prototype.toLowerCase` on one character (ASCII letters only). */
  function LowerChar(c: char): char
  {
    if 'A' <= c <= 'Z' then (c as int + 32) as char else c
  }

  /** `s.toLowerCase()`, character by character (ASCII letters only). */
  function ToLower(s: string): (r: string)
    ensures |r| == |s|
    ensures forall i :: 0 <= i < |s| ==> r[i] == LowerChar(s[i])
    ensures forall i :: 0 <= i < |r| ==> !('A' <= r[i] <= 'Z')
  {
    seq(|s|, i requires 0 <= i < |s| => LowerChar(s[i]))
  }

  /** Lower-casing twice is lower-casing once. */
  lemma ToLowerIdempotent(s: string)
    ensures ToLower(ToLower(s)) == ToLower(s)
  {
  }

  /** `needle` occurs in `hay` starting at position `i`. */
  predicate OccursAt(hay: string, needle: string, i: nat)
  {
    i + |needle| <= |hay| && hay[i..i + |needle|] == needle
  }

  /** `hay.includes(needle)`: `needle` occurs in `hay` at some position. */
  predicate Includes(hay: string, needle: string)
  {
    exists i: nat | i <= |hay| :: OccursAt(hay, needle, i)
  }

  /** `includes` finds a string placed anywhere inside another. */
  lemma IncludesPiece(a: string, needle: string, b: string)
    ensures Includes(a + needle + b, needle)
  {
    var hay := a + needle + b;
    assert hay[|a|..|a| + |needle|] == needle;
    assert OccursAt(hay, needle, |a|);
  }
}
