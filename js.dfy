/**
 * JavaScript values as the helpers see them at run time, with the coercions that
 * loose equality (`==`) and template literals apply to them.
 * Numbers are modelled as integers: fractions, NaN and infinities are not represented.
 */
module Js {
  import opened Text

  datatype JsValue =
    | Undefined
    | Null
    | Bool(b: bool)
    | Num(n: int)
    | Str(s: string)
    | Arr(items: seq<JsValue>)
    | Obj(fields: map<string, JsValue>)

  /** JavaScript truthiness. */
  predicate Truthy(v: JsValue) {
    match v
    case Undefined => false
    case Null => false
    case Bool(b) => b
    case Num(n) => n != 0
    case Str(s) => s != ""
    case Arr(_) => true
    case Obj(_) => true
  }

  function IntToString(n: int): string {
    if n < 0 then "-" + NatToString(-n) else NatToString(n)
  }

  /** `String(v)`; an array prints as `v.join(',')`. */
  function ToJsString(v: JsValue): string
    decreases v, 1
  {
    match v
    case Undefined => "undefined"
    case Null => "null"
    case Bool(b) => if b then "true" else "false"
    case Num(n) => IntToString(n)
    case Str(s) => s
    case Arr(_) => ArrayJoin(v, ",")
    case Obj(_) => "[object Object]"
  }

  /** `Array.prototype.join(sep)`: the elements printed and separated by `sep`, with `null`
    * and `undefined` elements printed as the empty string. */
  function ArrayJoin(v: JsValue, sep: string): (r: string)
    requires v.Arr?
    decreases v, 0
  {
    var xs := v.items;
    Join(seq(|xs|, i requires 0 <= i < |xs| =>
      if xs[i].Null? || xs[i].Undefined? then "" else ToJsString(xs[i])), sep)
  }

  predicate AllZeros(s: string) {
    forall i :: 0 <= i < |s| ==> s[i] == '0'
  }

  predicate AllDigits(s: string) {
    forall i :: 0 <= i < |s| ==> IsDigit(s[i])
  }

  /** `m` is split by a decimal point at `i` into two runs of zeros. */
  predicate ZeroFractionAt(m: string, i: int) {
    0 <= i < |m| && |m| >= 2 && m[i] == '.' && AllZeros(m[..i]) && AllZeros(m[i + 1..])
  }

  /** A decimal mantissa whose value is zero: `0`, `00.`, `0.00`, `.0`, ... */
  predicate ZeroMantissa(m: string) {
    |m| >= 1 && (AllZeros(m) || exists i :: 0 <= i < |m| && ZeroFractionAt(m, i))
  }

  /** An exponent suffix `e5`, `E-07`, ... */
  predicate ExponentPart(e: string) {
    && |e| >= 2 && (e[0] == 'e' || e[0] == 'E')
    && var d := if e[1] == '+' || e[1] == '-' then e[2..] else e[1..];
       |d| >= 1 && AllDigits(d)
  }

  /** `u` is a zero mantissa of length `k` followed by an optional exponent. */
  predicate ZeroDecimalAt(u: string, k: int) {
    0 <= k <= |u| && ZeroMantissa(u[..k]) && (k == |u| || ExponentPart(u[k..]))
  }

  /** A trimmed string literal that `Number(...)` reads as zero. */
  predicate ZeroNumeral(t: string) {
    || (|t| >= 3 && t[0] == '0' && t[1] in "xXoObB" && AllZeros(t[2..]))
    || var u := if |t| > 0 && (t[0] == '+' || t[0] == '-') then t[1..] else t;
       exists k :: 0 <= k <= |u| && ZeroDecimalAt(u, k)
  }

  /** `Number(s) === 0`: the string is blank or spells zero. */
  predicate StringNumberIsZero(s: string) {
    var t := Trim(s);
    t == "" || ZeroNumeral(t)
  }

  /** `v == 0` (and so also `v == false`, since `false` coerces to 0). */
  predicate LooseEqualsZero(v: JsValue) {
    match v
    case Undefined => false
    case Null => false
    case Bool(b) => !b
    case Num(n) => n == 0
    case Str(s) => StringNumberIsZero(s)
    case Arr(_) => StringNumberIsZero(ToJsString(v))
    case Obj(_) => false
  }

  /** `v == ''`. */
  predicate LooseEqualsEmptyString(v: JsValue) {
    match v
    case Undefined => false
    case Null => false
    case Bool(b) => !b
    case Num(n) => n == 0
    case Str(s) => s == ""
    case Arr(_) => ToJsString(v) == ""
    case Obj(_) => false
  }

  /** A zero numeral starts with a digit 0, a decimal point or a sign. */
  lemma ZeroNumeralStart(t: string)
    requires ZeroNumeral(t)
    ensures |t| > 0 && t[0] in "0.+-"
  {
    if !(|t| >= 3 && t[0] == '0' && t[1] in "xXoObB" && AllZeros(t[2..])) {
      var u := if |t| > 0 && (t[0] == '+' || t[0] == '-') then t[1..] else t;
      var k :| 0 <= k <= |u| && ZeroDecimalAt(u, k);
      assert ZeroDecimalAt(u, k);
      assert ZeroMantissa(u[..k]);
      var m := u[..k];
      assert ZeroMantissa(m);
      assert |m| >= 1;
      if !AllZeros(m) {
        var i :| 0 <= i < |m| && ZeroFractionAt(m, i);
        if i > 0 {
          assert m[..i][0] == m[0];
        }
      }
      assert m[0] in "0.";
      assert m[0] == u[0];
    }
  }

  /** A string whose trimmed text starts with anything but `0`, `.`, `+` or `-` is not zero. */
  lemma NonNumericIsNotZero(s: string)
    requires Trim(s) != "" && Trim(s)[0] !in "0.+-"
    ensures !StringNumberIsZero(s)
  {
    if ZeroNumeral(Trim(s)) {
      ZeroNumeralStart(Trim(s));
    }
  }
}
