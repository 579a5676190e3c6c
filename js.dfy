/** The few JavaScript semantics index.js leans on: truthiness, typeof, `a || b` and indexOf. */
module Js {
  import opened Wrappers

  /** A JavaScript value as far as the argument checks of index.js can tell values apart. */
  datatype Value = Undefined | Null | Boolean(b: bool) | Number(n: int) | NaN | Str(s: string) | Object

  /** ToBoolean: the falsy values are undefined, null, false, 0, NaN and "". */
  predicate Truthy(v: Value) {
    match v
    case Undefined => false
    case Null => false
    case Boolean(b) => b
    case Number(n) => n != 0
    case NaN => false
    case Str(s) => s != ""
    case Object => true
  }

  function TypeOf(v: Value): string {
    match v
    case Undefined => "undefined"
    case Null => "object"
    case Boolean(_) => "boolean"
    case Number(_) => "number"
    case NaN => "number"
    case Str(_) => "string"
    case Object => "object"
  }

  /** The guard `!x || typeof x !== 'string'` holds exactly for values other than a non-empty string. */
  lemma {:induction false} RejectsAllButNonEmptyString(v: Value)
    ensures (!Truthy(v) || TypeOf(v) != "string") <==> !(v.Str? && v.s != "")
  {
    match v
    case Str(s) =>
    case Undefined =>
    case Null =>
    case Boolean(b) =>
    case Number(n) =>
    case NaN =>
    case Object =>
  }

  /** `x || d` for a value that is either absent (undefined) or a string. */
  function StringOr(x: Option<string>, d: string): (r: string)
    ensures x.Some? && x.value != "" ==> r == x.value
    ensures (x.None? || x.value == "") ==> r == d
  {
    if x.Some? && x.value != "" then x.value else d
  }

  /** Property lookup on a string-valued object: undefined when the key is absent. */
  function Get(m: map<string, string>, k: string): (r: Option<string>)
    ensures r.Some? <==> k in m
    ensures r.Some? ==> r.value == m[k]
  {
    if k in m then Some(m[k]) else None
  }

  /** String.prototype.indexOf for a one-character search string: the first position of c,
      or -1 when c does not occur. */
  function IndexOf(s: string, c: char): (r: int)
    ensures -1 <= r < |s|
    ensures r == -1 <==> c !in s
    ensures r >= 0 ==> s[r] == c && c !in s[..r]
  {
    if s == [] then -1
    else if s[0] == c then 0
    else
      var k := IndexOf(s[1..], c);
      if k == -1 then -1
      else
        assert s[..k + 1] == [s[0]] + s[1..][..k];
        k + 1
  }

  /** The position of the first c in x + [c] + y, for x free of c, is |x|. */
  lemma IndexOfSeparator(x: string, c: char, y: string)
    requires c !in x
    ensures IndexOf(x + [c] + y, c) == |x|
  {
    var s := x + [c] + y;
    assert s[|x|] == c;
    assert s[..|x|] == x;
  }
}
