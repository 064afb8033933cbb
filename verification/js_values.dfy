/**
  JavaScript values as far as the problems controller can tell them apart:
  the lodash checks `_.isString` and `_.isArray`, the truthiness test behind
  `x || []` and `!x`, and the `.length` of a string, which counts UTF-16
  code units.
 */
module JsValues {

  datatype JsValue =
    | Undefined
    | Null
    | Bool(b: bool)
    | Num(x: real)
    | NaN
    | Str(s: string)
    | Arr(elems: seq<JsValue>)
    | Obj  // any other object: plain objects, functions, dates, ...

  /** JavaScript's ToBoolean: the falsy values are undefined, null, false, 0, NaN and "". */
  predicate Truthy(v: JsValue)
  {
    match v
    case Undefined | Null | NaN => false
    case Bool(b) => b
    case Num(x) => x != 0.0
    case Str(s) => s != ""
    case Arr(_) | Obj => true
  }

  /** Number of UTF-16 code units that encode one Unicode scalar value. */
  function CodeUnits(c: char): (n: nat)
    ensures 1 <= n <= 2
    ensures n == 1 <==> c as int < 0x1_0000
  {
    if c as int < 0x1_0000 then 1 else 2
  }

  /** The `length` of a JavaScript string holding the scalar values of `s`. */
  function Utf16Length(s: string): (n: nat)
    ensures |s| <= n <= 2 * |s|
    ensures n == |s| <==> forall i :: 0 <= i < |s| ==> s[i] as int < 0x1_0000
  {
    if s == [] then 0
    else
      assert forall i :: 0 < i < |s| ==> s[i] == s[1..][i - 1];
      CodeUnits(s[0]) + Utf16Length(s[1..])
  }

  /** Strings made only of characters of the Basic Multilingual Plane: their length is their size. */
  lemma BmpLength(s: string)
    requires forall i :: 0 <= i < |s| ==> s[i] as int < 0x1_0000
    ensures Utf16Length(s) == |s|
  {
  }

  /** A string of characters outside the BMP is twice as long in code units as in characters. */
  lemma {:induction false} AllAstral(s: string)
    requires forall i :: 0 <= i < |s| ==> s[i] as int >= 0x1_0000
    ensures Utf16Length(s) == 2 * |s|
  {
    if s != [] {
      assert forall i :: 0 <= i < |s[1..]| ==> s[1..][i] == s[i + 1];
      AllAstral(s[1..]);
    }
  }
}
