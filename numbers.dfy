/** Numbers as the engine reads, rounds and prints them: Python's `int()` and
    `float()` on decimal text, `round()` (which rounds half to even, as does
    numpy's `np.round`), `math.ceil`, and the `"{:0.6f}"` format used for
    every timestamp and duration. Floating point is modelled by exact reals. */
module Numbers {
  import opened Base
  import opened Text

  /** `round(x)`: the nearest integer, ties going to the even neighbour. */
  function RoundHalfEven(x: real): (r: int)
    ensures x - 0.5 <= r as real <= x + 0.5
    ensures (r as real - x == 0.5 || x - r as real == 0.5) ==> r % 2 == 0
  {
    var f := x.Floor;
    var d := x - f as real;
    if d < 0.5 then f
    else if d > 0.5 then f + 1
    else if f % 2 == 0 then f else f + 1
  }

  /** `math.ceil(x)`: the least integer not below `x`. */
  function Ceil(x: real): (r: int)
    ensures x <= r as real < x + 1.0
  {
    -((-x).Floor)
  }

  /** Rounding is monotone: a larger value never rounds to a smaller integer. */
  lemma {:induction false} RoundMonotone(x: real, y: real)
    requires x <= y
    ensures RoundHalfEven(x) <= RoundHalfEven(y)
  {
  }

  /** Values more than one apart never round to the same integer. */
  lemma {:induction false} RoundStrict(x: real, y: real)
    requires x + 1.0 < y
    ensures RoundHalfEven(x) < RoundHalfEven(y)
  {
  }

  predicate IsDigit(c: char) { '0' <= c <= '9' }

  predicate AllDigits(s: string) { forall i :: 0 <= i < |s| ==> IsDigit(s[i]) }

  function DigitChar(d: nat): char
    requires d < 10
  {
    ['0', '1', '2', '3', '4', '5', '6', '7', '8', '9'][d]
  }

  function DigitsValue(s: string): nat
    requires AllDigits(s)
  {
    if s == [] then 0 else DigitsValue(s[..|s| - 1]) * 10 + ((s[|s| - 1] as int) - ('0' as int))
  }

  /** Decimal text of a natural number, without leading zeros. */
  function NatToString(n: nat): (s: string)
    ensures s != [] && AllDigits(s)
  {
    if n < 10 then [DigitChar(n)] else NatToString(n / 10) + [DigitChar(n % 10)]
  }

  /** `str(n)` for an integer. */
  function IntToString(n: int): string {
    if n < 0 then "-" + NatToString(-n) else NatToString(n)
  }

  /** The `width` low decimal digits of `n`, zero-padded. */
  function PadDigits(n: nat, width: nat): (s: string)
    ensures |s| == width && AllDigits(s)
  {
    if width == 0 then [] else PadDigits(n / 10, width - 1) + [DigitChar(n % 10)]
  }

  lemma {:induction false} DigitCharValue(d: nat)
    requires d < 10
    ensures IsDigit(DigitChar(d)) && (DigitChar(d) as int) - ('0' as int) == d
  {
  }

  lemma {:induction false} NatToStringValue(n: nat)
    ensures DigitsValue(NatToString(n)) == n
  {
    DigitCharValue(n % 10);
    if n >= 10 {
      NatToStringValue(n / 10);
      DigitsAppend(NatToString(n / 10), n % 10);
    }
  }

  function Pow10(k: nat): (p: nat)
    ensures p >= 1
  {
    if k == 0 then 1 else 10 * Pow10(k - 1)
  }

  lemma {:induction false} DivTenBelow(n: nat, p: nat)
    requires n < 10 * p
    ensures n / 10 < p
  {
  }

  /** Appending a digit multiplies the value by ten and adds the digit. */
  lemma {:induction false} DigitsAppend(s: string, d: nat)
    requires AllDigits(s) && d < 10
    ensures AllDigits(s + [DigitChar(d)]) && DigitsValue(s + [DigitChar(d)]) == DigitsValue(s) * 10 + d
  {
    DigitCharValue(d);
    assert (s + [DigitChar(d)])[..|s|] == s;
  }

  /** A number below `10^width` is read back from its zero-padded digits. */
  lemma {:induction false} PadDigitsValue(n: nat, width: nat)
    requires n < Pow10(width)
    ensures DigitsValue(PadDigits(n, width)) == n
  {
    if width > 0 {
      var p := PadDigits(n / 10, width - 1);
      DivTenBelow(n, Pow10(width - 1));
      PadDigitsValue(n / 10, width - 1);
      DigitsAppend(p, n % 10);
      assert PadDigits(n, width) == p + [DigitChar(n % 10)];
    }
  }

  /** Optional sign, then the rest of the text. */
  function SignOf(t: string): (bool, string) {
    if |t| > 0 && (t[0] == '-' || t[0] == '+') then (t[0] == '-', t[1..]) else (false, t)
  }

  /** Python's `int(s)` for decimal text: surrounding whitespace, an optional
      sign and at least one digit; anything else raises `ValueError` (None). */
  function ParseInt(s: string): Option<int> {
    var (negative, digits) := SignOf(Strip(s));
    if digits != [] && AllDigits(digits) then
      Some(if negative then -(DigitsValue(digits) as int) else DigitsValue(digits))
    else None
  }

  lemma {:induction false} StripOfStripped(s: string)
    requires IsStripped(s)
    ensures Strip(s) == s
  {
    if s != [] {
      assert SpaceRun(s) == 0;
      assert s[0..] == s;
    }
    assert LStrip(s) == s;
    assert RStrip(s) == s;
  }

  /** `int(str(n)) == n`. */
  lemma {:induction false} ParseIntOfString(n: int)
    ensures ParseInt(IntToString(n)) == Some(n)
  {
    var m: nat := if n < 0 then -n else n;
    var digits := NatToString(m);
    assert IntToString(n) == (if n < 0 then "-" else "") + digits;
    assert IsDigit(digits[0]) && IsDigit(digits[|digits| - 1]);
    SignedUnsigned(n < 0, digits);
    NatToStringValue(m);
  }

  /** Python's `float(s)` for plain decimal text: surrounding whitespace, an
      optional sign, digits with at most one '.', at least one digit. */
  function ParseDecimal(s: string): Option<real> {
    var (negative, body) := SignOf(Strip(s));
    match UnsignedDecimal(body)
    case None => None
    case Some(v) => Some(Signed(negative, v))
  }

  function Signed(negative: bool, v: real): real {
    if negative then -v else v
  }

  /** Digits with at most one '.' and at least one digit, as a value. */
  function UnsignedDecimal(body: string): Option<real> {
    var pieces := Split(body, ".");
    if |pieces| > 2 then None
    else
      var whole := pieces[0];
      var frac := if |pieces| == 2 then pieces[1] else "";
      if (whole == [] && frac == []) || !AllDigits(whole) || !AllDigits(frac) then None
      else Some(DecimalValue(whole, frac))
  }

  function DecimalValue(whole: string, frac: string): real
    requires AllDigits(whole) && AllDigits(frac)
  {
    DigitsValue(whole) as real + DigitsValue(frac) as real / Pow10(|frac|) as real
  }

  /** A value in seconds, rounded to whole microseconds as `"{:0.6f}"` does. */
  function Micros(x: real): int {
    RoundHalfEven(x * 1000000.0)
  }

  /** `"{:0.6f}".format(x)`: sign, whole part, '.', six decimals. */
  function FormatFixed6(x: real): string {
    FormatMicros(x < 0.0, MicrosMagnitude(x))
  }

  /** `|x|` in whole microseconds, rounded half to even. */
  function MicrosMagnitude(x: real): nat {
    var q := RoundHalfEven((if x < 0.0 then -x else x) * 1000000.0);
    assert q >= 0;
    q
  }

  /** A signed count of microseconds written as seconds with six decimals. */
  function FormatMicros(negative: bool, q: nat): string {
    (if negative then "-" else "") + (NatToString(q / 1000000) + "." + PadDigits(q % 1000000, 6))
  }

  /** Reading back a six-decimal rendering gives the signed count of
      microseconds it was written from, `v` seconds: `float("{:0.6f}".format(x))`
      is `x` rounded to whole microseconds. */
  lemma {:induction false} FormatMicrosParses(negative: bool, q: nat, v: real)
    requires v * 1000000.0 == q as real
    ensures ParseDecimal(FormatMicros(negative, q)) == Some(Signed(negative, v))
  {
    var w := NatToString(q / 1000000);
    var f := PadDigits(q % 1000000, 6);
    UnsignedFixed6Value(q, v);
    assert FormatMicros(negative, q) == (if negative then "-" else "") + (w + "." + f);
    ParseSignedDecimal(negative, w, f);
  }

  /** Signed digit text with a fractional part is read back as its value. */
  lemma {:induction false} ParseSignedDecimal(negative: bool, whole: string, frac: string)
    requires whole != [] && AllDigits(whole) && AllDigits(frac)
    ensures ParseDecimal((if negative then "-" else "") + (whole + "." + frac))
            == Some(Signed(negative, DecimalValue(whole, frac)))
  {
    var unsigned := whole + "." + frac;
    UnsignedDecimalOf(whole, frac);
    assert unsigned[0] == whole[0];
    assert unsigned[|unsigned| - 1] == (if frac == [] then '.' else frac[|frac| - 1]);
    SignedUnsigned(negative, unsigned);
  }

  lemma {:induction false} UnsignedDecimalOf(whole: string, frac: string)
    requires whole != [] && AllDigits(whole) && AllDigits(frac)
    ensures UnsignedDecimal(whole + "." + frac) == Some(DecimalValue(whole, frac))
  {
    DotSplit(whole, frac);
  }

  lemma {:induction false} SignedUnsigned(negative: bool, unsigned: string)
    requires unsigned != [] && !IsSpace(unsigned[0]) && unsigned[0] != '-' && unsigned[0] != '+'
    requires !IsSpace(unsigned[|unsigned| - 1])
    ensures SignOf(Strip((if negative then "-" else "") + unsigned)) == (negative, unsigned)
  {
    var s := (if negative then "-" else "") + unsigned;
    assert s[|s| - 1] == unsigned[|unsigned| - 1];
    assert IsStripped(s);
    StripOfStripped(s);
    if negative { assert s[1..] == unsigned; } else { assert s == unsigned; }
  }

  lemma {:induction false} UnsignedFixed6Value(q: nat, v: real)
    requires v * 1000000.0 == q as real
    ensures DecimalValue(NatToString(q / 1000000), PadDigits(q % 1000000, 6)) == v
  {
    var w := q / 1000000;
    var f := q % 1000000;
    NatToStringValue(w);
    Pow10Six();
    PadDigitsValue(f, 6);
    WholeAndFraction(w, f, q, v);
  }

  lemma {:induction false} Pow10Six()
    ensures Pow10(6) == 1000000
  {
  }

  lemma {:induction false} WholeAndFraction(w: nat, f: nat, q: nat, v: real)
    requires q == w * 1000000 + f && v * 1000000.0 == q as real
    ensures w as real + f as real / 1000000.0 == v
  {
  }

  lemma {:induction false} DotSplit(whole: string, frac: string)
    requires AllDigits(whole) && AllDigits(frac)
    ensures Split(whole + "." + frac, ".") == [whole, frac]
  {
    assert forall i :: 0 <= i < |whole| ==> whole[i] != '.';
    assert forall i :: 0 <= i < |frac| ==> frac[i] != '.';
    SplitAround(whole, frac, '.');
  }

}
