/**
 * The untyped values that flow through dicts in the modelled code (OCR token
 * dicts, template options, JSON documents), and the Python conversions the
 * code applies to them: truthiness, `float()`, `int()` and `dict.get`.
 */
module PyValues {
  import opened Outcomes
  import opened Chars

  /** A Python value as it appears in a JSON-like dict. */
  datatype Value =
    | VNone
    | VBool(b: bool)
    | VInt(i: int)
    | VNum(r: real)
    | VStr(s: string)
    | VList(items: seq<Value>)
    | VTuple(items: seq<Value>)

  /** A dict with string keys; key order is not observable where this type is used. */
  type Dict = map<string, Value>

  /** `d.get(k, default)` */
  function Get(d: Dict, k: string, default: Value): (v: Value)
    ensures k in d ==> v == d[k]
    ensures k !in d ==> v == default
  {
    if k in d then d[k] else default
  }

  /** Python's `bool(v)`. */
  predicate Truthy(v: Value) {
    match v
    case VNone => false
    case VBool(b) => b
    case VInt(i) => i != 0
    case VNum(r) => r != 0.0
    case VStr(s) => s != []
    case VList(items) => items != []
    case VTuple(items) => items != []
  }

  /** `int(r)` for a float: truncation toward zero. */
  function Trunc(r: real): (t: int)
    ensures r >= 0.0 ==> 0 <= t && t as real <= r < t as real + 1.0
    ensures r < 0.0 ==> t <= 0 && t as real - 1.0 < r <= t as real
  {
    if r >= 0.0 then r.Floor else -((-r).Floor)
  }

  // ------------------------------------------------------ numeric text

  /** An optional sign and the rest of the text. */
  function SplitSign(s: string): (bool, string)
  {
    if s != [] && (s[0] == '-' || s[0] == '+') then (s[0] == '-', s[1..]) else (false, s)
  }

  /**
   * `int(s)` for a string: surrounding whitespace, an optional sign and one or
   * more digits. Underscore separators are not modelled.
   */
  function ParseIntText(s: string): (r: Option<int>)
  {
    var (neg, body) := SplitSign(Strip(s));
    if body != [] && AllDigits(body) then
      Some(if neg then -(DigitsValue(body) as int) else DigitsValue(body) as int)
    else None
  }

  /**
   * `float(s)` for a string: surrounding whitespace, an optional sign, digits
   * with an optional fractional part (at least one digit in all). Exponents,
   * "inf", "nan" and underscores are not modelled.
   */
  function ParseFloatText(s: string): (r: Option<real>)
  {
    var (neg, body) := SplitSign(Strip(s));
    var k := DigitRun(body, 0);
    var whole := body[..k];
    if k == |body| && k > 0 then
      Some(Signed(neg, DigitsValue(whole) as real))
    else if k < |body| && body[k] == '.' && AllDigits(body[k + 1..]) && (k > 0 || k + 1 < |body|) then
      var frac := body[k + 1..];
      Some(Signed(neg, DigitsValue(whole) as real + FractionValue(frac)))
    else None
  }

  /** The value of the digits after a decimal point: `"25"` is 0.25. */
  function FractionValue(s: string): (r: real)
    requires AllDigits(s)
    ensures 0.0 <= r < 1.0
  {
    if s == [] then 0.0 else (DigitValue(s[0]) as real + FractionValue(s[1..])) / 10.0
  }

  function Signed(neg: bool, x: real): real { if neg then -x else x }

  /** Text that starts and ends with a non-space character is its own strip. */
  lemma StripNoop(s: string)
    requires s != [] && !IsSpace(s[0]) && !IsSpace(s[|s| - 1])
    ensures Strip(s) == s
  {
    StripLeftNoop(s);
    StripRightNoop(s);
  }

  /** `int()` reads back what `str()` wrote. */
  lemma ParseIntRoundTrip(i: int)
    ensures ParseIntText(IntToDecimal(i)) == Some(i)
  {
    var n: nat := if i < 0 then -i else i;
    var d := NatToDecimal(n);
    NatToDecimalValue(n);
    var t := IntToDecimal(i);
    assert t == if i < 0 then "-" + d else d;
    assert t[|t| - 1] == d[|d| - 1];
    StripNoop(t);
    if i < 0 {
      assert t[0] == '-' && t[1..] == d;
    } else {
      assert IsAsciiDigit(d[0]);
    }
  }

  /** `float()` reads back the decimal text of a whole number. */
  lemma ParseFloatOfDecimal(n: nat)
    ensures ParseFloatText(NatToDecimal(n)) == Some(n as real)
  {
    var d := NatToDecimal(n);
    NatToDecimalValue(n);
    StripNoop(d);
    assert SplitSign(d) == (false, d);
    DigitRunAll(d, 0);
    assert d[..|d|] == d;
  }

  lemma {:induction false} DigitRunAll(s: string, p: nat)
    requires p <= |s| && AllDigits(s)
    ensures DigitRun(s, p) == |s| - p
    decreases |s| - p
  {
    if p < |s| {
      DigitRunAll(s, p + 1);
    }
  }

  // --------------------------------------------------------- conversions

  /** Python's `float(v)`. */
  function ToFloat(v: Value): (r: Result<real>)
    ensures v.VNum? ==> r == Success(v.r)
    ensures v.VInt? ==> r == Success(v.i as real)
    ensures v.VNone? || v.VList? || v.VTuple? ==> r.Failure? && r.error.TypeError?
  {
    match v
    case VNum(x) => Success(x)
    case VInt(i) => Success(i as real)
    case VBool(b) => Success(if b then 1.0 else 0.0)
    case VStr(s) =>
      (match ParseFloatText(s)
       case Some(x) => Success(x)
       case None => Failure(ValueError("could not convert string to float")))
    case _ => Failure(TypeError("float() argument must be a string or a real number"))
  }

  /** Python's `int(v)`; a float is truncated toward zero. */
  function ToInt(v: Value): (r: Result<int>)
    ensures v.VInt? ==> r == Success(v.i)
    ensures v.VNum? ==> r == Success(Trunc(v.r))
    ensures v.VNone? || v.VList? || v.VTuple? ==> r.Failure? && r.error.TypeError?
  {
    match v
    case VInt(i) => Success(i)
    case VNum(x) => Success(Trunc(x))
    case VBool(b) => Success(if b then 1 else 0)
    case VStr(s) =>
      (match ParseIntText(s)
       case Some(i) => Success(i)
       case None => Failure(ValueError("invalid literal for int()")))
    case _ => Failure(TypeError("int() argument must be a string or a real number"))
  }

  /** The items `tuple(v)` or `list(v)` produces; a string yields its characters. */
  function Iterate(v: Value): (r: Result<seq<Value>>)
    ensures v.VList? || v.VTuple? ==> r == Success(v.items)
    ensures v.VStr? ==> r.Success? && |r.value| == |v.s| && forall i :: 0 <= i < |v.s| ==> r.value[i] == VStr([v.s[i]])
    ensures r.Failure? <==> v.VNone? || v.VBool? || v.VInt? || v.VNum?
    ensures r.Failure? ==> r.error.TypeError?
  {
    match v
    case VList(items) => Success(items)
    case VTuple(items) => Success(items)
    case VStr(s) => Success(seq(|s|, i requires 0 <= i < |s| => VStr([s[i]])))
    case _ => Failure(TypeError("object is not iterable"))
  }
}
