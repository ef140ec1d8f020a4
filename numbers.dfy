/**
 * JavaScript's number arithmetic where it differs from Dafny's (truncating
 * division and remainder), and the two number parsers the cards call:
 * `parseFloat` for weights and `parseInt(…, 10)` for step counts.
 */
module Numbers {
  import opened Wrappers
  import opened Text

  /** Integer division rounded toward zero (`Math.trunc(a / b)`), for a positive divisor. */
  function TruncDiv(a: int, b: int): (q: int)
    requires b > 0
    ensures a >= 0 ==> q == a / b
    ensures a < 0 ==> q == -((-a) / b)
    ensures (a >= 0 ==> 0 <= a - b * q < b) && (a < 0 ==> -b < a - b * q <= 0)
  {
    if a >= 0 then a / b else -((-a) / b)
  }

  /** JavaScript's `a % b` on integers: the remainder takes the sign of `a`. */
  function JsRem(a: int, b: int): (r: int)
    requires b > 0
    ensures a >= 0 ==> r == a % b
    ensures a == b * TruncDiv(a, b) + r
    ensures -b < r < b
  {
    a - b * TruncDiv(a, b)
  }

  /** Cancelling a positive factor keeps a strict order. */
  lemma MulLess(b: int, p: int, q: int)
    requires b > 0 && b * p < b * q
    ensures p < q
  {
    assert b * q - b * p == b * (q - p);
  }

  /** Euclidean division is determined by its quotient and remainder. */
  lemma DivModUnique(a: int, n: int, q: int, r: int)
    requires n > 0 && a == n * q + r && 0 <= r < n
    ensures a / n == q && a % n == r
  {
    var q', r' := a / n, a % n;
    assert a == n * q' + r' && 0 <= r' < n;
    assert n * q < n * (q' + 1) by {
      assert n * (q' + 1) == n * q' + n;
    }
    assert n * q' < n * (q + 1) by {
      assert n * (q + 1) == n * q + n;
    }
    MulLess(n, q, q' + 1);
    MulLess(n, q', q + 1);
  }

  /** Adding the divisor to a number leaves its remainder alone. */
  lemma ModAddDivisor(k: int, n: int)
    requires n > 0
    ensures (k + n) % n == k % n
  {
    assert k == n * (k / n) + k % n && 0 <= k % n < n;
    assert k + n == n * (k / n + 1) + k % n;
    DivModUnique(k + n, n, k / n + 1, k % n);
  }

  /** `Math.trunc(x)`. */
  function Trunc(x: real): (t: int)
    ensures x >= 0.0 ==> t == x.Floor
    ensures x < 0.0 ==> t == -((-x).Floor)
  {
    if x >= 0.0 then x.Floor else -((-x).Floor)
  }

  /** JavaScript's `x % m` on numbers, for a positive modulus. */
  function JsRemReal(x: real, m: real): real
    requires m > 0.0
  {
    x - m * Trunc(x / m) as real
  }

  /** For a non-negative dividend `x % 60` lies in `[0, 60)` and recombines with the floor of `x / 60`. */
  lemma JsRemRealSixty(x: real)
    requires x >= 0.0
    ensures 0.0 <= JsRemReal(x, 60.0) < 60.0
    ensures x == 60.0 * (x / 60.0).Floor as real + JsRemReal(x, 60.0)
  {
    var y := x / 60.0;
    var q := y.Floor;
    assert y >= 0.0 && Trunc(y) == q;
    assert q as real <= y < q as real + 1.0;
  }

  function Pow10(n: nat): (p: nat)
    ensures p >= 1
  {
    if n == 0 then 1 else 10 * Pow10(n - 1)
  }

  /**
   * A decimal number as typed: an optional minus sign, the whole digits and the
   * fraction digits after the point (either may be empty, not both).
   */
  datatype Decimal = Decimal(negative: bool, whole: string, fraction: string)

  predicate ValidDecimal(d: Decimal) {
    AllDigits(d.whole) && AllDigits(d.fraction) && (|d.whole| >= 1 || |d.fraction| >= 1)
  }

  function FractionValue(f: string): real
    requires AllDigits(f)
  {
    DigitsValue(f) as real / Pow10(|f|) as real
  }

  /** The number a decimal denotes. */
  function Value(d: Decimal): real
    requires ValidDecimal(d)
  {
    var magnitude := DigitsValue(d.whole) as real + FractionValue(d.fraction);
    if d.negative then -magnitude else magnitude
  }

  /** The decimal written out: sign, whole digits, and the point only when there are fraction digits. */
  function DecimalText(d: Decimal): string {
    (if d.negative then "-" else "") + d.whole + (if d.fraction == [] then "" else "." + d.fraction)
  }

  /**
   * `parseFloat(s)` on the strings a number input field yields: the whole of `s`
   * must be `-?(D+|D*.D+)`; `None` stands for `NaN`. Exponents are not modelled.
   */
  function ParseDecimal(s: string): Option<Decimal> {
    var negative := |s| > 0 && s[0] == '-';
    ParseUnsigned(negative, if negative then s[1..] else s)
  }

  /** The digits and point after the optional sign. */
  function ParseUnsigned(negative: bool, body: string): Option<Decimal> {
    match SplitAt(body, '.')
    case None =>
      if |body| >= 1 && AllDigits(body) then Some(Decimal(negative, body, "")) else None
    case Some(parts) =>
      if AllDigits(parts.0) && |parts.1| >= 1 && AllDigits(parts.1)
      then Some(Decimal(negative, parts.0, parts.1))
      else None
  }

  lemma ParseUnsignedSound(negative: bool, body: string)
    ensures ParseUnsigned(negative, body).Some? ==>
              && ValidDecimal(ParseUnsigned(negative, body).value)
              && DecimalText(ParseUnsigned(negative, body).value) == (if negative then "-" else "") + body
  {
    match SplitAt(body, '.')
    case None =>
    case Some(parts) =>
      if parts.1 != [] {
        JoinedDecimalText(negative, parts.0, parts.1);
      }
  }

  lemma JoinedDecimalText(negative: bool, whole: string, fraction: string)
    requires fraction != []
    ensures DecimalText(Decimal(negative, whole, fraction)) == (if negative then "-" else "") + (whole + ['.'] + fraction)
  {
    assert whole + ("." + fraction) == whole + ['.'] + fraction;
  }

  /** Whatever parses is a valid decimal that prints back as exactly the parsed text. */
  lemma ParseDecimalSound(s: string)
    ensures ParseDecimal(s).Some? ==>
              ValidDecimal(ParseDecimal(s).value) && DecimalText(ParseDecimal(s).value) == s
  {
    var negative := |s| > 0 && s[0] == '-';
    var body := if negative then s[1..] else s;
    assert s == (if negative then "-" else "") + body;
    ParseUnsignedSound(negative, body);
  }

  /** Printing a valid decimal and parsing the text gives the same decimal back. */
  lemma ParseDecimalText(d: Decimal)
    requires ValidDecimal(d)
    ensures ParseDecimal(DecimalText(d)) == Some(d)
  {
    var body := d.whole + (if d.fraction == [] then "" else "." + d.fraction);
    var s := DecimalText(d);
    assert s == (if d.negative then "-" else "") + body;
    assert body[0] == '.' || IsDigit(body[0]);
    if d.negative {
      assert s[0] == '-' && s[1..] == body;
    } else {
      assert s == body && s[0] != '-';
    }
    assert forall k :: 0 <= k < |d.whole| ==> d.whole[k] != '.';
    if d.fraction == [] {
      assert body == d.whole;
    } else {
      assert body == d.whole + ['.'] + d.fraction;
      SplitAtJoin(d.whole, '.', d.fraction);
    }
  }

  /** Drops leading zeros; the digits keep their value. */
  function StripLeadingZeros(s: string): (r: string)
    requires AllDigits(s)
    ensures AllDigits(r) && DigitsValue(r) == DigitsValue(s)
    ensures r != [] ==> r[0] != '0'
    ensures |r| <= |s|
  {
    if s != [] && s[0] == '0' then
      assert s == "0" + s[1..];
      DigitsValueLeadingZero(s[1..]);
      StripLeadingZeros(s[1..])
    else s
  }

  /** Drops trailing zeros of a fraction; the fraction keeps its value. */
  function StripTrailingZeros(f: string): (r: string)
    requires AllDigits(f)
    ensures AllDigits(r) && FractionValue(r) == FractionValue(f)
    ensures r != [] ==> r[|r| - 1] != '0'
    ensures |r| <= |f|
  {
    if f != [] && f[|f| - 1] == '0' then
      var g := f[..|f| - 1];
      assert DigitsValue(f) == 10 * DigitsValue(g);
      assert Pow10(|f|) == 10 * Pow10(|g|);
      TenthsCancel(DigitsValue(g), Pow10(|g|));
      StripTrailingZeros(g)
    else f
  }

  lemma TenthsCancel(a: nat, b: nat)
    requires b >= 1
    ensures (10 * a) as real / (10 * b) as real == a as real / b as real
  {
  }

  /**
   * The decimal `String(x)` shows for the number `x` a decimal denotes: no
   * leading zeros (a lone `0` for a zero whole part), no trailing fraction zeros,
   * and no sign on zero.
   */
  function Canonical(d: Decimal): (c: Decimal)
    requires ValidDecimal(d)
    ensures ValidDecimal(c) && Value(c) == Value(d)
    ensures c.whole != [] && (c.whole[0] == '0' ==> c.whole == "0")
    ensures c.fraction != [] ==> c.fraction[|c.fraction| - 1] != '0'
  {
    var w := StripLeadingZeros(d.whole);
    var whole := if w == [] then "0" else w;
    assert DigitsValue("0") == 0;
    var fraction := StripTrailingZeros(d.fraction);
    SameMagnitude(d, whole, fraction);
    var zero := DigitsValue(whole) == 0 && DigitsValue(fraction) == 0;
    if zero then
      ZeroHasNoSign(d.negative, whole, fraction);
      Decimal(false, whole, fraction)
    else Decimal(d.negative, whole, fraction)
  }

  lemma SameMagnitude(d: Decimal, whole: string, fraction: string)
    requires ValidDecimal(d) && |whole| >= 1 && AllDigits(whole) && AllDigits(fraction)
    requires DigitsValue(whole) == DigitsValue(d.whole) && FractionValue(fraction) == FractionValue(d.fraction)
    ensures ValidDecimal(Decimal(d.negative, whole, fraction))
    ensures Value(Decimal(d.negative, whole, fraction)) == Value(d)
  {
  }

  lemma ZeroHasNoSign(negative: bool, whole: string, fraction: string)
    requires |whole| >= 1 && AllDigits(whole) && AllDigits(fraction)
    requires DigitsValue(whole) == 0 && DigitsValue(fraction) == 0
    ensures Value(Decimal(false, whole, fraction)) == Value(Decimal(negative, whole, fraction))
  {
    assert FractionValue(fraction) == 0.0;
  }

  /** A number read from its own `String` form is the same number, shown the same way. */
  lemma CanonicalReadsBack(d: Decimal)
    requires ValidDecimal(d)
    ensures ParseDecimal(DecimalText(Canonical(d))).Some?
    ensures Value(ParseDecimal(DecimalText(Canonical(d))).value) == Value(d)
    ensures Canonical(ParseDecimal(DecimalText(Canonical(d))).value) == Canonical(d)
  {
    var c := Canonical(d);
    ParseDecimalText(c);
    CanonicalIdempotent(d);
  }

  lemma CanonicalIdempotent(d: Decimal)
    requires ValidDecimal(d)
    ensures Canonical(Canonical(d)) == Canonical(d)
  {
    var c := Canonical(d);
    if c.whole[0] == '0' {
      assert c.whole == "0";
      assert StripLeadingZeros(c.whole) == [];
    }
    assert StripTrailingZeros(c.fraction) == c.fraction;
  }

  /** The longest prefix of `s` made of decimal digits. */
  function LeadingDigits(s: string): (r: string)
    ensures |r| <= |s| && r == s[..|r|] && AllDigits(r)
    ensures |r| < |s| ==> !IsDigit(s[|r|])
  {
    if s != [] && IsDigit(s[0]) then [s[0]] + LeadingDigits(s[1..]) else []
  }

  lemma {:induction false} LeadingDigitsOfDigits(s: string)
    requires AllDigits(s)
    ensures LeadingDigits(s) == s
  {
    if s != [] {
      LeadingDigitsOfDigits(s[1..]);
    }
  }

  /**
   * `parseInt(s, 10)`: leading whitespace is skipped, one sign is allowed, and the
   * longest run of digits after it is read; `None` stands for `NaN`.
   */
  function ParseIntPrefix(s: string): Option<int> {
    ParseSignedDigits(TrimStart(s))
  }

  /** What `parseInt` reads once the leading whitespace is skipped. */
  function ParseSignedDigits(t: string): Option<int> {
    if |t| > 0 && t[0] == '-' then
      match DigitRun(t[1..])
      case None => None
      case Some(v) => Some(0 - v)
    else if |t| > 0 && t[0] == '+' then DigitRun(t[1..])
    else DigitRun(t)
  }

  /** The value of the digits at the start of `t`, or `None` when there are none. */
  function DigitRun(t: string): Option<int> {
    var digits := LeadingDigits(t);
    if digits == [] then None else Some(DigitsValue(digits))
  }

  /** `parseInt` reads the decimal text of any integer back exactly. */
  lemma ParseIntPrefixOfIntToString(i: int)
    ensures ParseIntPrefix(IntToString(i)) == Some(i)
  {
    var m: nat := if i < 0 then -i else i;
    var n := NatToString(m);
    DigitsValueOfNatToString(m);
    LeadingDigitsOfDigits(n);
    if i < 0 {
      assert IntToString(i) == "-" + n;
      SignedDigitsOfNegative(n);
    } else {
      assert IntToString(i) == n;
      SignedDigitsOfDigits(n);
    }
  }

  lemma SignedDigitsOfDigits(n: string)
    requires n != [] && IsDigit(n[0]) && LeadingDigits(n) == n
    ensures ParseIntPrefix(n) == Some(DigitsValue(n))
  {
    TrimStartOfNonBlank(n);
    assert ParseIntPrefix(n) == ParseSignedDigits(n);
    assert n[0] != '-' && n[0] != '+';
    assert ParseSignedDigits(n) == DigitRun(n);
  }

  lemma SignedDigitsOfNegative(n: string)
    requires n != [] && LeadingDigits(n) == n
    ensures ParseIntPrefix("-" + n) == Some(0 - DigitsValue(n) as int)
  {
    var s := "-" + n;
    assert s[0] == '-' && s[1..] == n;
    TrimStartOfNonBlank(s);
    NegativeRun(s);
  }

  lemma NegativeRun(t: string)
    requires |t| > 0 && t[0] == '-' && t[1..] != [] && LeadingDigits(t[1..]) == t[1..]
    ensures ParseSignedDigits(t) == Some(0 - DigitsValue(t[1..]) as int)
  {
  }

  lemma TrimStartOfNonBlank(s: string)
    requires s != [] && (s[0] == '-' || IsDigit(s[0]))
    ensures TrimStart(s) == s
  {
    assert !IsJsWhitespace(s[0]);
  }
}
