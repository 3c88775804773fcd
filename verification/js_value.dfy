/** Values produced by `JSON.parse`, and the JavaScript coercions the client
    applies to them: truthiness, loose equality with `false`, the `length`
    property and `> 1`. */
module JsValue {
  import opened Wrappers
  import opened JsString

  /** A parsed JSON value. `JNum` holds the finite double that `JSON.parse`
      produced for a number, written as a `real`; a literal so large that
      it parses to `Infinity` has no `JNum`. */
  datatype Json =
    | JNull
    | JBool(b: bool)
    | JNum(n: real)
    | JStr(s: string)
    | JArr(items: seq<Json>)
    | JObj(fields: map<string, Json>)

  /** Reading property `key` of a parsed value, `undefined` being `None`.
      Only objects have own properties with the names this client reads
      (none of them is an array index or `length`). */
  function Property(v: Json, key: string): (r: Option<Json>)
    ensures r.Some? <==> v.JObj? && key in v.fields
    ensures r.Some? ==> r.value == v.fields[key]
  {
    if v.JObj? && key in v.fields then Some(v.fields[key]) else None
  }

  /** JavaScript truthiness of a value that may be `undefined`. */
  predicate Truthy(v: Option<Json>) {
    match v
    case None => false
    case Some(JNull) => false
    case Some(JBool(b)) => b
    case Some(JNum(n)) => n != 0.0
    case Some(JStr(s)) => s != ""
    case Some(JArr(_)) => true
    case Some(JObj(_)) => true
  }

  /** The truthy strings are exactly the non-empty ones. */
  predicate NonEmpty(s: Option<string>) {
    s.Some? && s.value != ""
  }

  /** The length of a string in UTF-16 code units, as `String.length`
      counts it: a code point above U+FFFF takes two. */
  function Utf16Length(s: string): (n: nat)
    ensures |s| <= n <= 2 * |s|
    ensures n == 0 <==> s == ""
  {
    if s == [] then 0
    else (if s[0] as int > 0xFFFF then 2 else 1) + Utf16Length(s[1..])
  }

  /** `v.length`: a `TypeError` on `null`, a number for strings and arrays,
      the own `length` property of an object, `undefined` for booleans
      and numbers. */
  function LengthOf(v: Json): (r: Result<Option<Json>, JsError>)
    ensures r.Failure? <==> v.JNull?
    ensures v.JArr? ==> r == Success(Some(JNum(|v.items| as real)))
    ensures v.JStr? ==> r == Success(Some(JNum(Utf16Length(v.s) as real)))
  {
    match v
    case JNull => Failure(TypeError)
    case JBool(_) => Success(None)
    case JNum(_) => Success(None)
    case JStr(s) => Success(Some(JNum(Utf16Length(s) as real)))
    case JArr(items) => Success(Some(JNum(|items| as real)))
    case JObj(_) => Success(Property(v, "length"))
  }

  /** `x > 1`. `undefined` and objects convert to NaN, `null` and booleans
      to 0 or 1. A string or an array is compared as false (its numeric
      conversion is not part of this model). */
  predicate GreaterThanOne(x: Option<Json>) {
    x.Some? && x.value.JNum? && x.value.n > 1.0
  }

  // ----- Number(string) == 0 -----------------------------------------------

  predicate AllZeros(s: string) {
    forall i :: 0 <= i < |s| ==> s[i] == '0'
  }

  predicate IsDecimalDigits(s: string) {
    s != [] && forall i :: 0 <= i < |s| ==> '0' <= s[i] <= '9'
  }

  /** `s` with `E` replaced by `e`, so one `IndexOf` finds the exponent. */
  function LowerExponent(s: string): (r: string)
    ensures |r| == |s|
  {
    seq(|s|, i requires 0 <= i < |s| => if s[i] == 'E' then 'e' else s[i])
  }

  /** A mantissa such as `0`, `00.`, `.000`: zeros around at most one point,
      with at least one digit. */
  predicate IsZeroMantissa(m: string) {
    var d := IndexOf(m, '.');
    if d < 0 then m != [] && AllZeros(m)
    else |m| >= 2 && AllZeros(m[..d]) && AllZeros(m[d + 1..])
  }

  /** An optional sign and then digits. */
  predicate IsExponentDigits(x: string) {
    if x != [] && (x[0] == '+' || x[0] == '-') then IsDecimalDigits(x[1..]) else IsDecimalDigits(x)
  }

  /** A StrDecimalLiteral whose value is (signed) zero, such as `-0.0e12`. */
  predicate IsZeroDecimalLiteral(t: string) {
    var u := if t != [] && (t[0] == '+' || t[0] == '-') then t[1..] else t;
    var e := IndexOf(LowerExponent(u), 'e');
    if e < 0 then IsZeroMantissa(u)
    else IsZeroMantissa(u[..e]) && IsExponentDigits(u[e + 1..])
  }

  /** A `0x`, `0o` or `0b` literal whose digits are all zero. */
  predicate IsZeroRadixLiteral(t: string) {
    |t| >= 3 && t[0] == '0' && t[1] in "xXoObB" && AllZeros(t[2..])
  }

  /** `Number(s) == 0`, judged by the exact value of the literal: the
      trimmed string is empty or a literal whose digits are all zero. A
      non-zero decimal literal too small for a double (such as "1e-400")
      rounds to 0 in JavaScript but is not zero here. */
  predicate StringNumberIsZero(s: string) {
    var t := Trim(s);
    t == "" || IsZeroDecimalLiteral(t) || IsZeroRadixLiteral(t)
  }

  // ----- loose equality with false -------------------------------------------

  /** `String(v) == 0` for an element of an array being joined: `null`
      becomes the empty string, a nested array is joined in turn, a plain
      object becomes "[object Object]". */
  predicate ElementStringIsZero(v: Json)
    decreases v
  {
    match v
    case JNull => true
    case JBool(_) => false
    case JNum(n) => n == 0.0
    case JStr(s) => StringNumberIsZero(s)
    case JArr(items) => JoinIsZero(items)
    case JObj(_) => false
  }

  /** `items.join(",") == 0`: the empty join is "", two or more elements
      leave a comma that makes the number NaN. */
  predicate JoinIsZero(items: seq<Json>)
    decreases items
  {
    if |items| == 0 then true
    else if |items| == 1 then ElementStringIsZero(items[0])
    else false
  }

  /** `v == false` under JavaScript's abstract equality. `undefined` and
      `null` are loosely equal only to each other; everything else is
      compared as the number 0. */
  predicate LooselyEqualsFalse(v: Option<Json>) {
    match v
    case None => false
    case Some(JNull) => false
    case Some(JBool(b)) => !b
    case Some(JNum(n)) => n == 0.0
    case Some(JStr(s)) => StringNumberIsZero(s)
    case Some(JArr(items)) => JoinIsZero(items)
    case Some(JObj(_)) => false
  }

  /** For `undefined`, booleans and numbers, loose equality with `false`
      is falsiness, except that `undefined` is falsy but not loosely equal
      to `false`. */
  lemma LooseFalseOfScalars(v: Option<Json>)
    requires v == None || v.value.JBool? || v.value.JNum?
    ensures v == None ==> !Truthy(v) && !LooselyEqualsFalse(v)
    ensures v != None ==> (LooselyEqualsFalse(v) <==> !Truthy(v))
  {
  }

  /** The string "0" is truthy and yet loosely equal to `false`. */
  lemma StringZeroIsLooselyFalse()
    ensures LooselyEqualsFalse(Some(JStr("0"))) && Truthy(Some(JStr("0")))
  {
    var z := "0";
    assert !IsWhitespace(z[0]);
    assert TrimStart(z) == z;
    assert TrimEnd(z) == z;
    assert Trim(z) == z;
    assert LowerExponent(z) == z;
    assert IndexOf(z, 'e') == -1;
    assert IndexOf(z, '.') == -1;
    assert IsZeroMantissa(z);
    assert IsZeroDecimalLiteral(z);
  }

  /** The string "0" and the empty array are truthy and yet loosely equal
      to `false`. */
  lemma TruthyButLooselyFalse()
    ensures LooselyEqualsFalse(Some(JStr("0"))) && Truthy(Some(JStr("0")))
    ensures LooselyEqualsFalse(Some(JArr([]))) && Truthy(Some(JArr([])))
  {
    StringZeroIsLooselyFalse();
  }
}
