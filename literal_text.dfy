/**
  The text that a JavaScript template literal `${v}` gives for the value of a
  literal node: the string itself, a whole number in decimal, `true`/`false`, `null`.
  The schema name is read through this conversion.
 */
module LiteralText {

  /** The value carried by a `Literal` node. */
  datatype LitValue =
    | StringValue(s: string)
      /** A parsed numeric literal is never negative: `-5` is a unary minus applied to `5`. */
    | NumberValue(n: nat)
    | BooleanValue(b: bool)
    | NullValue

  predicate IsDigit(c: char) {
    '0' <= c <= '9'
  }

  predicate IsDigits(s: string) {
    |s| > 0 && forall i :: 0 <= i < |s| ==> IsDigit(s[i])
  }

  function DigitChar(d: nat): (c: char)
    requires d < 10
    ensures IsDigit(c) && c as int - '0' as int == d
  {
    "0123456789"[d]
  }

  function DigitValue(c: char): (d: nat)
    requires IsDigit(c)
    ensures d < 10
  {
    c as int - '0' as int
  }

  /** Decimal digits of `n`, most significant first, no leading zero. */
  function NatToDecimal(n: nat): (s: string)
    ensures IsDigits(s)
    ensures |s| > 1 ==> s[0] != '0'
    decreases n
  {
    if n < 10 then [DigitChar(n)] else NatToDecimal(n / 10) + [DigitChar(n % 10)]
  }

  /** Reads a string of decimal digits back as a number. */
  function DecimalToNat(s: string): nat
    requires IsDigits(s)
    decreases |s|
  {
    if |s| == 1 then DigitValue(s[0])
    else 10 * DecimalToNat(s[..|s| - 1]) + DigitValue(s[|s| - 1])
  }

  /** `${v}` for the value of a literal node. */
  function TemplateString(v: LitValue): (t: string)
    ensures v.StringValue? ==> t == v.s
    ensures v.NumberValue? ==> IsDigits(t) && (|t| > 1 ==> t[0] != '0') && DecimalToNat(t) == v.n
    ensures v.BooleanValue? ==> (t == "true" <==> v.b) && (t == "false" <==> !v.b)
    ensures v.NullValue? ==> t == "null"
  {
    match v
    case StringValue(s) => s
    case NumberValue(n) => DecimalRoundTrip(n); NatToDecimal(n)
    case BooleanValue(b) => if b then "true" else "false"
    case NullValue => "null"
  }

  lemma {:induction false} DecimalRoundTrip(n: nat)
    ensures DecimalToNat(NatToDecimal(n)) == n
    decreases n
  {
    if n >= 10 {
      var s := NatToDecimal(n);
      assert s[..|s| - 1] == NatToDecimal(n / 10);
      DecimalRoundTrip(n / 10);
    }
  }
}
