/** The general-purpose predicates and conversions of nest.helper.ts. */
module NestHelper {
  import opened Wrappers
  import opened Text
  import opened Js

  /** `value.hasOwnProperty('length') && value.length === 0`: strings and arrays by their
    * length, plain objects only when they carry a `length` field equal to 0. */
  predicate HasZeroOwnLength(v: JsValue) {
    match v
    case Str(s) => |s| == 0
    case Arr(xs) => |xs| == 0
    case Obj(m) => "length" in m && m["length"] == Num(0)
    case _ => false
  }

  /** `isEmpty`: the disjunction of the source's tests, with its loose comparisons. The test
    * `value == false` coerces `false` to 0 and so is the test `value == 0`. */
  predicate IsEmpty(v: JsValue)
    ensures v.Null? || v.Undefined? || v == Str("") || v == Arr([]) || v == Obj(map[]) ==> IsEmpty(v)
    ensures v.Bool? ==> (IsEmpty(v) <==> !v.b)
    ensures v.Num? ==> (IsEmpty(v) <==> v.n == 0)
  {
    || v.Null? || v.Undefined?
    || LooseEqualsEmptyString(v)
    || LooseEqualsZero(v)
    || (v.Str? && Trim(v.s) == "")
    || HasZeroOwnLength(v)
    || (v.Obj? && |v.fields| == 0)
  }

  /** Numbers and booleans are empty exactly when they are 0 and false. */
  lemma IsEmptyScalars(n: int, b: bool)
    ensures IsEmpty(Num(n)) <==> n == 0
    ensures IsEmpty(Bool(b)) <==> !b
  {
  }

  /** Every blank string, including one made only of white space, is empty. */
  lemma BlankStringIsEmpty(s: string)
    requires AllSpace(s)
    ensures IsEmpty(Str(s))
  {
    TrimStartOfBlank(s);
  }

  lemma {:induction false} TrimStartOfBlank(s: string)
    requires AllSpace(s)
    ensures TrimStart(s) == ""
  {
    if |s| > 0 {
      TrimStartOfBlank(s[1..]);
    }
  }

  lemma TrimOfWord(w: string)
    requires |w| > 0 && !IsSpace(w[0]) && !IsSpace(w[|w| - 1])
    ensures Trim(w) == w
  {
    TrimOfPadded("", w, "");
    assert "" + w + "" == w;
  }

  lemma ZeroIsZeroNumeral()
    ensures StringNumberIsZero("0")
  {
    TrimOfWord("0");
    ZeroNumeralOfZero();
  }

  lemma ZeroNumeralOfZero()
    ensures ZeroNumeral("0")
  {
    ZeroDecimalOfZero();
  }

  lemma ZeroNumeralOfZeroPointZero()
    ensures ZeroNumeral("0.0")
  {
    ZeroFractionOfZeroPointZero();
  }

  lemma ZeroDecimalOfZero()
    ensures ZeroDecimalAt("0", 1)
  {
    assert "0"[..1] == "0";
  }

  lemma ZeroFractionOfZeroPointZero()
    ensures ZeroDecimalAt("0.0", 3)
  {
    assert "0.0"[..1] == "0" && "0.0"[2..] == "0";
    assert ZeroFractionAt("0.0", 1);
    assert "0.0"[..3] == "0.0";
  }

  /** Through loose equality the string "0" counts as empty. */
  lemma ZeroStringIsEmpty()
    ensures IsEmpty(Str("0"))
  {
    ZeroIsZeroNumeral();
    assert LooseEqualsZero(Str("0"));
  }

  /** So does "0.0". */
  lemma ZeroPointZeroStringIsEmpty()
    ensures IsEmpty(Str("0.0"))
  {
    TrimOfWord("0.0");
    ZeroNumeralOfZeroPointZero();
    assert StringNumberIsZero("0.0");
  }

  /** A word that does not start like a number is not empty. */
  lemma WordIsNotEmpty(w: string)
    requires |w| > 0 && !IsSpace(w[0]) && !IsSpace(w[|w| - 1]) && w[0] !in "0.+-"
    ensures !IsEmpty(Str(w))
  {
    TrimOfWord(w);
    NonNumericIsNotZero(w);
  }

  /** A one-element array holding 0 prints as "0" and so is empty. */
  lemma ArrayOfZeroIsEmpty()
    ensures IsEmpty(Arr([Num(0)]))
  {
    assert ToJsString(Arr([Num(0)])) == "0";
    ZeroIsZeroNumeral();
    assert LooseEqualsZero(Arr([Num(0)]));
  }

  lemma FalseIsNotZero()
    ensures !StringNumberIsZero("false")
  {
    FalseTrimmed();
    assert "false"[0] !in "0.+-";
    NonNumericIsNotZero("false");
  }

  lemma FalseTrimmed()
    ensures Trim("false") == "false"
  {
    assert !IsSpace("false"[0]) && !IsSpace("false"[4]);
    TrimOfWord("false");
  }

  lemma ArrayOfFalsePrints()
    ensures ToJsString(Arr([Bool(false)])) == "false"
  {
    var parts := seq(1, i requires 0 <= i < 1 => "false");
    assert parts == ["false"];
  }

  /** `[false]` prints as "false" and is not empty. */
  lemma ArrayOfFalseIsNotEmpty()
    ensures !IsEmpty(Arr([Bool(false)]))
  {
    var v := Arr([Bool(false)]);
    ArrayOfFalsePrints();
    FalseIsNotZero();
    assert !LooseEqualsZero(v);
    assert !LooseEqualsEmptyString(v);
  }

  /** A plain object is empty exactly when it has no keys or a `length` field equal to 0. */
  lemma ObjectIsEmpty(m: map<string, JsValue>)
    ensures IsEmpty(Obj(m)) <==> m == map[] || ("length" in m && m["length"] == Num(0))
  {
    if m == map[] {
      assert |m| == 0;
    }
    if |m| == 0 {
      assert m == map[];
    }
  }

  /** `arrayFirstOrNull`: element 0 of a non-empty array, otherwise null. */
  function ArrayFirstOrNull<T>(xs: seq<T>): (r: Option<T>)
    ensures r.Some? <==> |xs| > 0
    ensures r.Some? ==> r.value == xs[0]
  {
    if |xs| > 0 then Some(xs[0]) else None
  }

  /** `getBooleanValue`: booleans as they are, the strings "true"/"false" in any letter case,
    * and false for everything else. */
  function GetBooleanValue(v: JsValue): (r: bool)
    ensures r <==> v == Bool(true) || (v.Str? && AsciiLower(v.s) == "true")
  {
    match v
    case Bool(b) => b
    case Str(s) =>
      var lower := AsciiLower(s);
      if lower == "true" then true
      else if lower == "false" then false
      else false
    case _ => false
  }

  /** Printing a boolean and reading it back gives the boolean, whatever the letter case. */
  lemma {:induction false} BooleanRoundTrip(b: bool, s: string)
    requires AsciiLower(s) == AsciiLower(ToJsString(Bool(b)))
    ensures GetBooleanValue(Str(s)) == b
  {
    var text := ToJsString(Bool(b));
    assert AsciiLower(text) == text by {
      assert forall i :: 0 <= i < |text| ==> LowerChar(text[i]) == text[i];
    }
  }

  /** `getObjectId`: a string is parsed by `fromHex` (ObjectId's hex parser, outside this
    * model); an object with a truthy `_id` yields that `_id`; anything else throws. */
  function GetObjectId(v: JsValue, fromHex: string -> Result<JsValue, string>): (r: Result<JsValue, string>)
    ensures v.Str? ==> r == fromHex(v.s)
    ensures !v.Str? ==> (r.Ok? <==> v.Obj? && "_id" in v.fields && Truthy(v.fields["_id"]))
    ensures !v.Str? && r.Ok? ==> r.value == v.fields["_id"]
  {
    match v
    case Str(s) => fromHex(s)
    case Obj(m) => if "_id" in m && Truthy(m["_id"]) then Ok(m["_id"]) else Err("Invalid id")
    case Null => Err("Cannot read properties of null (reading '_id')")
    case _ => Err("Invalid id")
  }
}
