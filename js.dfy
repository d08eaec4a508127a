/** The JavaScript values a request body or query field can hold, as far as the handlers
    inspect them: truthiness (`!x`, `x || d`), `Boolean(x)` and `Number(x)`. Numbers are
    integers here; objects and arrays are not modelled. */
module Js {
  import opened Http
  import opened Strings

  datatype JsValue = Undefined | Null | Bool(b: bool) | Num(n: int) | NaN | Str(s: string)

  /** ToBoolean: undefined, null, false, 0, NaN and "" are falsy. */
  predicate Truthy(v: JsValue) {
    match v
    case Undefined => false
    case Null => false
    case NaN => false
    case Bool(b) => b
    case Num(n) => n != 0
    case Str(s) => s != ""
  }

  /** `Number(s)` for a string: surrounding white space is ignored, the empty string is 0,
      an optionally signed run of decimal digits is its value, and anything else is NaN
      (None). Decimal fractions, exponents, hexadecimal and "Infinity" are not modelled. */
  function StringToNumber(s: string): (r: Option<int>)
    ensures Trim(s) == "" ==> r == Some(0)
    ensures AllDigits(Trim(s)) ==> r == Some(DigitsValue(Trim(s)))
  {
    var t := Trim(s);
    if t == "" then Some(0)
    else if AllDigits(t) then Some(DigitsValue(t))
    else if |t| > 1 && t[0] == '-' && AllDigits(t[1..]) then Some(0 - DigitsValue(t[1..]) as int)
    else if |t| > 1 && t[0] == '+' && AllDigits(t[1..]) then Some(DigitsValue(t[1..]))
    else None
  }

  /** `Number(v)`; None is NaN. */
  function ToNumber(v: JsValue): Option<int> {
    match v
    case Undefined => None
    case Null => Some(0)
    case NaN => None
    case Bool(b) => Some(if b then 1 else 0)
    case Num(n) => Some(n)
    case Str(s) => StringToNumber(s)
  }

  /** `Number(String(n))` is n: the decimal text of a number reads back as that number. */
  lemma NumberOfDecimalText(n: nat)
    ensures StringToNumber(NatToString(n)) == Some(n)
  {
    var t := NatToString(n);
    assert t[0] != ' ' && t[|t| - 1] != ' ';
    assert !IsJsWhitespace(t[0]) && !IsJsWhitespace(t[|t| - 1]);
    TrimStartNoop(t);
    TrimEndNoop(t);
  }

  /** `String(v)`: the text a value converts to. */
  function ToText(v: JsValue): (r: string)
    ensures v.Str? ==> r == v.s
    ensures v.Num? && v.n >= 0 ==> r == NatToString(v.n)
  {
    match v
    case Undefined => "undefined"
    case Null => "null"
    case NaN => "NaN"
    case Bool(b) => if b then "true" else "false"
    case Num(n) => if n >= 0 then NatToString(n) else "-" + NatToString(-n)
    case Str(s) => s
  }

  /** `v || ""` stored in a string field: the value's text when it is truthy, else "". */
  function TextOrEmpty(v: JsValue): (r: string)
    ensures !Truthy(v) ==> r == ""
    ensures Truthy(v) ==> r == ToText(v) && r != ""
  {
    if Truthy(v) then ToText(v) else ""
  }

  /** A value that reads as a non-zero number is truthy. */
  lemma NonZeroNumberIsTruthy(v: JsValue)
    requires ToNumber(v).Some? && ToNumber(v).value != 0
    ensures Truthy(v)
  {
  }
}
