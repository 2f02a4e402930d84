/** Exact decimal arithmetic standing in for java.math.BigDecimal.

    A BigDecimal is an unscaled integer and a scale; its value is
    unscaled / 10^scale. Values are compared as `real`s (exact rationals),
    and the rounding modes the code uses (FLOOR, DOWN, UP, HALF_UP,
    HALF_EVEN) are functions from a real to the integer it rounds to.
    The printed forms (toString / toPlainString, BigInteger.toString)
    and the parser of decimal literals (new BigDecimal(String)) live here
    too, with the round trip between them. */
module Decimals {
  import opened Wrappers

  function Pow10(n: nat): (p: nat)
    ensures p >= 1
  {
    if n == 0 then 1 else 10 * Pow10(n - 1)
  }

  function Abs(x: int): nat { if x < 0 then -x else x }

  /** A BigDecimal: unscaled value and scale. */
  datatype Dec = Dec(unscaled: int, scale: nat) {
    function Value(): real {
      unscaled as real / Pow10(scale) as real
    }
    function Negate(): Dec {
      Dec(-unscaled, scale)
    }
  }

  lemma {:induction false} Pow10Add(a: nat, b: nat)
    ensures Pow10(a + b) == Pow10(a) * Pow10(b)
    decreases a
  {
    if a > 0 {
      Pow10Add(a - 1, b);
    }
  }

  /** setScale to a larger scale: the unscaled value gains trailing zeros. */
  function Rescale(d: Dec, s: nat): Dec
    requires d.scale <= s
  {
    Dec(d.unscaled * Pow10(s - d.scale), s)
  }

  /** Rescaling keeps the value. */
  lemma RescaleValue(d: Dec, s: nat)
    requires d.scale <= s
    ensures Rescale(d, s).Value() == d.Value() && Rescale(d, s).scale == s
  {
    Pow10Add(s - d.scale, d.scale);
    RescaleCore(d.unscaled, Pow10(s - d.scale), Pow10(d.scale), Pow10(s));
  }

  lemma RescaleCore(u: int, q: nat, p: nat, ps: nat)
    requires q > 0 && p > 0 && ps == q * p
    ensures (u * q) as real / ps as real == u as real / p as real
  {
    assert (u * q) as real == u as real * q as real;
    assert ps as real == q as real * p as real;
    CancelFactor(u as real, q as real, p as real);
  }

  lemma CancelFactor(u: real, q: real, p: real)
    requires q > 0.0 && p > 0.0
    ensures (u * q) / (q * p) == u / p
  {
    var r := u / p;
    assert r * p == u;
    assert (r * q) * p == u * q;
    assert u * q == r * (q * p);
  }

  lemma SplitSum(a: real, b: real, p: real)
    requires p > 0.0
    ensures (a + b) / p == a / p + b / p
  {
  }

  /** BigDecimal.add: exact, at the larger of the two scales. */
  function Add(a: Dec, b: Dec): Dec {
    var s := if a.scale >= b.scale then a.scale else b.scale;
    Dec(Rescale(a, s).unscaled + Rescale(b, s).unscaled, s)
  }

  /** The sum has the value of the sum and the larger scale. */
  lemma AddValue(a: Dec, b: Dec)
    ensures Add(a, b).Value() == a.Value() + b.Value()
    ensures Add(a, b).scale == (if a.scale >= b.scale then a.scale else b.scale)
  {
    var s := if a.scale >= b.scale then a.scale else b.scale;
    RescaleValue(a, s);
    RescaleValue(b, s);
    SplitSum(Rescale(a, s).unscaled as real, Rescale(b, s).unscaled as real, Pow10(s) as real);
  }

  // ---------------------------------------------------------------------
  // Rounding a real to an integer
  // ---------------------------------------------------------------------

  /** RoundingMode.FLOOR */
  function Floor(x: real): (r: int)
    ensures r as real <= x < r as real + 1.0
  {
    x.Floor
  }

  /** Flooring keeps order. */
  lemma FloorMonotone(x: real, y: real)
    requires x <= y
    ensures Floor(x) <= Floor(y)
  {
    assert (Floor(x) as real) < Floor(y) as real + 1.0;
  }

  /** RoundingMode.CEILING (and UP on non-negative values). */
  function Ceil(x: real): (r: int)
    ensures r as real - 1.0 < x <= r as real
  {
    -((-x).Floor)
  }

  /** RoundingMode.DOWN: towards zero (BigDecimal.toBigInteger, setScale(_, DOWN)). */
  function Truncate(x: real): (r: int)
    ensures 0.0 <= x ==> 0 <= r && r as real <= x < r as real + 1.0
    ensures x < 0.0 ==> r <= 0 && r as real - 1.0 < x <= r as real
  {
    if x >= 0.0 then Floor(x) else Ceil(x)
  }

  /** RoundingMode.UP: away from zero. */
  function RoundUp(x: real): (r: int)
    ensures 0.0 <= x ==> 0 <= r && r as real - 1.0 < x <= r as real
    ensures x < 0.0 ==> r < 0 && r as real <= x < r as real + 1.0
  {
    if x >= 0.0 then Ceil(x) else Floor(x)
  }

  /** RoundingMode.HALF_UP: to the nearest integer, ties away from zero. */
  function RoundHalfUp(x: real): (r: int)
    ensures x - 0.5 <= r as real <= x + 0.5
    ensures r as real == x + 0.5 ==> x >= 0.0
    ensures r as real == x - 0.5 ==> x < 0.0
  {
    if x >= 0.0 then Floor(x + 0.5) else -Floor(-x + 0.5)
  }

  /** RoundingMode.HALF_EVEN: to the nearest integer, ties to the even one. */
  function RoundHalfEven(x: real): (r: int)
    ensures x - 0.5 <= r as real <= x + 0.5
    ensures (r as real == x + 0.5 || r as real == x - 0.5) ==> r % 2 == 0
  {
    var f := Floor(x);
    var d := x - f as real;
    if d < 0.5 then f
    else if d > 0.5 then f + 1
    else if f % 2 == 0 then f else f + 1
  }

  /** Within half a unit of an even integer, ties included, HALF_EVEN
      rounds to it. */
  lemma HalfEvenNearEven(x: real, g: int)
    requires g % 2 == 0 && g as real - 0.5 <= x <= g as real + 0.5
    ensures RoundHalfEven(x) == g
  {
    if x < g as real {
      assert Floor(x) == g - 1;
    } else {
      assert Floor(x) == g;
    }
  }

  /** The value that setScale(2, mode) gives, as an integer number of
      hundredths, for the modes the code uses. */
  datatype Mode = FLOOR | DOWN | UP | HALF_UP | HALF_EVEN

  function Round(x: real, mode: Mode): int {
    match mode
    case FLOOR => Floor(x)
    case DOWN => Truncate(x)
    case UP => RoundUp(x)
    case HALF_UP => RoundHalfUp(x)
    case HALF_EVEN => RoundHalfEven(x)
  }

  function Hundredths(x: real, mode: Mode): int {
    Round(x * 100.0, mode)
  }

  /** Rounding an exact number of hundredths to hundredths is the identity,
      whatever the mode. */
  lemma HundredthsOfHundredths(h: int, mode: Mode)
    ensures Hundredths(h as real / 100.0, mode) == h
  {
    assert (h as real / 100.0) * 100.0 == h as real;
  }

  lemma HundredthsValue(h: int)
    ensures Dec(h, 2).Value() == h as real / 100.0
  {
    assert Pow10(2) == 100;
  }

  // ---------------------------------------------------------------------
  // Digits and printed forms
  // ---------------------------------------------------------------------

  predicate IsDigit(c: char) { '0' <= c <= '9' }

  predicate AllDigits(s: string) {
    forall i :: 0 <= i < |s| ==> IsDigit(s[i])
  }

  function DigitChar(d: nat): (c: char)
    requires d < 10
    ensures IsDigit(c)
  {
    ('0' as int + d) as char
  }

  function DigitValue(c: char): (d: nat)
    requires IsDigit(c)
    ensures d < 10
  {
    c as int - '0' as int
  }

  /** The natural number a string of decimal digits denotes. */
  function DigitsValue(s: string): nat
    requires AllDigits(s)
  {
    if s == [] then 0 else 10 * DigitsValue(s[..|s| - 1]) + DigitValue(s[|s| - 1])
  }

  /** BigInteger.toString / Integer.toString of a natural number. */
  function NatToString(n: nat): (s: string)
    ensures |s| >= 1 && AllDigits(s)
  {
    if n < 10 then [DigitChar(n)] else NatToString(n / 10) + [DigitChar(n % 10)]
  }

  /** BigInteger.toString / Integer.toString of any integer. */
  function IntToString(i: int): string {
    if i < 0 then "-" + NatToString(-i) else NatToString(i)
  }

  function Zeros(k: nat): (s: string)
    ensures |s| == k && AllDigits(s)
  {
    if k == 0 then "" else "0" + Zeros(k - 1)
  }

  /** The digits and point of toPlainString for a non-negative unscaled value. */
  function PlainBody(u: nat, scale: nat): (s: string)
    ensures |s| >= 1 && IsDigit(s[0])
  {
    var digits := NatToString(u);
    if scale == 0 then digits
    else if |digits| > scale then digits[..|digits| - scale] + "." + digits[|digits| - scale..]
    else "0." + Zeros(scale - |digits|) + digits
  }

  /** BigDecimal.toPlainString: no exponent, exactly `scale` fraction digits. */
  function PlainString(d: Dec): string {
    (if d.unscaled < 0 then "-" else "") + PlainBody(Abs(d.unscaled), d.scale)
  }

  function IndexOf(s: string, c: char): (r: Option<nat>)
    ensures r.Some? ==> r.value < |s| && s[r.value] == c && c !in s[..r.value]
    ensures r.None? ==> c !in s
  {
    if s == [] then None
    else if s[0] == c then Some(0)
    else match IndexOf(s[1..], c)
      case None => None
      case Some(k) => Some(k + 1)
  }

  /** An unsigned literal: integer digits, an optional '.', fraction digits,
      and at least one digit in all. */
  function ParseUnsigned(t: string): (r: Option<Dec>)
    ensures r.Some? ==> r.value.unscaled >= 0
  {
    var dot := IndexOf(t, '.');
    var ip := if dot.Some? then t[..dot.value] else t;
    var fp := if dot.Some? then t[dot.value + 1..] else "";
    if AllDigits(ip) && AllDigits(fp) && |ip| + |fp| >= 1 then
      AllDigitsConcat(ip, fp);
      Some(Dec(DigitsValue(ip + fp), |fp|))
    else
      None
  }

  /** The significand of a literal: an optional sign followed by an
      unsigned literal. */
  function ParseSigned(s: string): (r: Option<Dec>)
  {
    if |s| > 0 && (s[0] == '-' || s[0] == '+') then
      match ParseUnsigned(s[1..])
      case None => None
      case Some(d) => Some(if s[0] == '-' then d.Negate() else d)
    else
      ParseUnsigned(s)
  }

  predicate IsExponentMarker(c: char) { c == 'e' || c == 'E' }

  /** The position of the first exponent marker. */
  function ExponentAt(s: string): (r: Option<nat>)
    ensures r.Some? ==> r.value < |s| && IsExponentMarker(s[r.value])
    ensures r.None? ==> forall k :: 0 <= k < |s| ==> !IsExponentMarker(s[k])
  {
    if s == [] then None
    else if IsExponentMarker(s[0]) then Some(0)
    else match ExponentAt(s[1..])
      case None => None
      case Some(k) => Some(k + 1)
  }

  const IntMin: int := -0x8000_0000
  const IntMax: int := 0x7FFF_FFFF

  /** A Java (int) cast of an integral value: it saturates at the ends of
      the int range. */
  function SaturateInt(x: int): (r: int)
    ensures IntMin <= r <= IntMax
    ensures IntMin <= x <= IntMax ==> r == x
    ensures x > IntMax ==> r == IntMax
    ensures x < IntMin ==> r == IntMin
  {
    if x > IntMax then IntMax else if x < IntMin then IntMin else x
  }

  /** The exponent after the marker: an optional sign and at least one
      digit, its value within the int range. */
  function ParseExponent(t: string): (r: Option<int>)
    ensures r.Some? ==> IntMin <= r.value <= IntMax
  {
    var digits := if |t| > 0 && (t[0] == '-' || t[0] == '+') then t[1..] else t;
    if |digits| >= 1 && AllDigits(digits) then
      var x := if t[0] == '-' then -(DigitsValue(digits) as int) else DigitsValue(digits) as int;
      if IntMin <= x <= IntMax then Some(x) else None
    else None
  }

  /** The significand times ten to the exponent x. A BigDecimal keeps the
      scale m.scale - x even when it is negative; here a negative scale is
      folded into the unscaled value, which keeps the value and the plain
      printed form. */
  function Scaled(m: Dec, x: int): Dec {
    if m.scale - x >= 0 then Dec(m.unscaled, m.scale - x)
    else Dec(m.unscaled * Pow10(x - m.scale), 0)
  }

  /** new BigDecimal(String): a signed literal, optionally followed by an
      exponent marker and the exponent; the resulting scale must lie in the
      int range. Anything else raises NumberFormatException. */
  function ParseDecimal(s: string): (r: Option<Dec>)
    ensures ExponentAt(s).None? ==> r == ParseSigned(s)
  {
    match ExponentAt(s)
    case None => ParseSigned(s)
    case Some(e) =>
      match (ParseSigned(s[..e]), ParseExponent(s[e + 1..]))
      case (Some(m), Some(x)) =>
        if IntMin <= m.scale - x <= IntMax then Some(Scaled(m, x)) else None
      case _ => None
  }

  /** An exponent multiplies the significand's value by ten to its power. */
  lemma ScaledValue(m: Dec, x: int)
    ensures x >= 0 ==> Scaled(m, x).Value() == m.Value() * Pow10(x) as real
    ensures x < 0 ==> Scaled(m, x).Value() == m.Value() / Pow10(-x) as real
  {
    if 0 <= x <= m.scale {
      ScaledDown(m, x);
    } else if x < 0 {
      ScaledFurther(m, x);
    } else {
      ScaledUp(m, x);
    }
  }

  lemma ScaledDown(m: Dec, x: int)
    requires 0 <= x <= m.scale
    ensures Scaled(m, x).Value() == m.Value() * Pow10(x) as real
  {
    DownValue(m, x, Scaled(m, x));
  }

  lemma DownValue(m: Dec, x: nat, d: Dec)
    requires x <= m.scale && d == Dec(m.unscaled, m.scale - x)
    ensures d.Value() == m.Value() * Pow10(x) as real
  {
    DownCore(m.unscaled, m.scale, x, m.Value());
  }

  lemma DownCore(u: int, sc: nat, x: nat, v: real)
    requires x <= sc && v == u as real / Pow10(sc) as real
    ensures u as real / Pow10(sc - x) as real == v * Pow10(x) as real
  {
    Pow10Add(sc - x, x);
    DownReal(u, Pow10(sc - x), Pow10(x), Pow10(sc), v);
  }

  lemma DownReal(u: int, a: nat, b: nat, c: nat, v: real)
    requires a >= 1 && b >= 1 && c == a * b && v == u as real / c as real
    ensures u as real / a as real == v * b as real
  {
    RealProduct(a, b, c);
    ShiftDown(u as real, a as real, b as real, c as real, v);
  }

  lemma ScaledFurther(m: Dec, x: int)
    requires x < 0
    ensures Scaled(m, x).Value() == m.Value() / Pow10(-x) as real
  {
    FurtherValue(m, -x, Scaled(m, x));
  }

  lemma FurtherValue(m: Dec, y: nat, d: Dec)
    requires d == Dec(m.unscaled, m.scale + y)
    ensures d.Value() == m.Value() / Pow10(y) as real
  {
    FurtherCore(m.unscaled, m.scale, y);
  }

  lemma FurtherCore(u: int, sc: nat, y: nat)
    ensures u as real / Pow10(sc + y) as real == u as real / Pow10(sc) as real / Pow10(y) as real
  {
    Pow10Add(sc, y);
    FurtherReal(u, Pow10(sc), Pow10(y), Pow10(sc + y));
  }

  lemma FurtherReal(u: int, a: nat, b: nat, c: nat)
    requires a >= 1 && b >= 1 && c == a * b
    ensures u as real / c as real == u as real / a as real / b as real
  {
    RealProduct(a, b, c);
    ShiftFurther(u as real, a as real, b as real, c as real);
  }

  lemma ScaledUp(m: Dec, x: int)
    requires x > m.scale
    ensures Scaled(m, x).Value() == m.Value() * Pow10(x) as real
  {
    UpValue(m, x, Scaled(m, x));
  }

  lemma UpValue(m: Dec, x: nat, d: Dec)
    requires x > m.scale && d == Dec(m.unscaled * Pow10(x - m.scale), 0)
    ensures d.Value() == m.Value() * Pow10(x) as real
  {
    UpCore(m.unscaled, m.scale, x, m.Value());
  }

  lemma UpCore(u: int, sc: nat, x: nat, v: real)
    requires x > sc && v == u as real / Pow10(sc) as real
    ensures (u * Pow10(x - sc)) as real / 1.0 == v * Pow10(x) as real
  {
    Pow10Add(x - sc, sc);
    UpReal(u, Pow10(x - sc), Pow10(sc), Pow10(x), v);
  }

  lemma UpReal(u: int, q: nat, p: nat, c: nat, v: real)
    requires q >= 1 && p >= 1 && c == q * p && v == u as real / p as real
    ensures (u * q) as real / 1.0 == v * c as real
  {
    RealProduct(q, p, c);
    RealProduct(u, q, u * q);
    ShiftUp(u as real, q as real, p as real, c as real, v);
  }

  lemma RealProduct(a: int, b: int, ab: int)
    requires ab == a * b
    ensures ab as real == a as real * b as real
  {
  }

  lemma ShiftDown(u: real, a: real, b: real, ab: real, v: real)
    requires a > 0.0 && b > 0.0 && ab == a * b && v == u / ab
    ensures u / a == v * b
  {
    assert v * ab == u;
    assert (v * b) * a == u;
  }

  lemma ShiftFurther(u: real, a: real, b: real, ab: real)
    requires a > 0.0 && b > 0.0 && ab == a * b
    ensures u / ab == u / a / b
  {
  }

  lemma ShiftUp(u: real, q: real, p: real, qp: real, v: real)
    requires q > 0.0 && p > 0.0 && qp == q * p && v == u / p
    ensures (u * q) / 1.0 == v * qp
  {
    assert v * p == u;
    assert v * qp == (v * p) * q;
  }

  /** A literal with an exponent denotes its significand times ten to the
      exponent. */
  lemma ParseExponentValue(s: string, e: nat, m: Dec, x: int)
    requires ExponentAt(s) == Some(e) && ParseSigned(s[..e]) == Some(m) && ParseExponent(s[e + 1..]) == Some(x)
    requires IntMin <= m.scale - x <= IntMax
    ensures ParseDecimal(s) == Some(Scaled(m, x))
    ensures x >= 0 ==> ParseDecimal(s).value.Value() == m.Value() * Pow10(x) as real
    ensures x < 0 ==> ParseDecimal(s).value.Value() == m.Value() / Pow10(-x) as real
  {
    ScaledValue(m, x);
  }

  /** "1E2" is one hundred. */
  lemma HundredLiteral()
    ensures ParseDecimal("1E2") == Some(Dec(100, 0))
  {
    var s := "1E2";
    assert s[1..] == "E2";
    assert ExponentAt(s) == Some(1);
    assert s[..1] == "1" && s[2..] == "2";
    assert "1"[..0] == "" && "2"[..0] == "";
    ParseUnsignedInteger("1");
    assert ParseSigned("1") == Some(Dec(1, 0));
    assert ParseExponent("2") == Some(2);
    assert Pow10(2) == 100;
    ParseExponentValue(s, 1, Dec(1, 0), 2);
  }

  /** "2.5e-1" is a quarter, with two fraction digits. */
  lemma QuarterLiteral()
    ensures ParseDecimal("2.5e-1") == Some(Dec(25, 2))
  {
    var s := "2.5e-1";
    assert s[1..] == ".5e-1" && s[1..][1..] == "5e-1" && s[1..][1..][1..] == "e-1";
    assert ExponentAt(s) == Some(3);
    assert s[..3] == "2.5" && s[4..] == "-1";
    TwoAndAHalf();
    MinusOne();
    ParseExponentValue(s, 3, Dec(25, 1), -1);
  }

  lemma TwoAndAHalf()
    ensures ParseSigned("2.5") == Some(Dec(25, 1))
  {
    assert "2.5" == "2" + "." + "5";
    ParseUnsignedPoint("2", "5");
    TwentyFive();
  }

  lemma TwentyFive()
    ensures AllDigits("2" + "5") && DigitsValue("2" + "5") == 25
  {
    var t := "2" + "5";
    assert t[..1] == "2" && "2"[..0] == "";
  }

  lemma MinusOne()
    ensures ParseExponent("-1") == Some(-1)
  {
    assert "-1"[1..] == "1" && "1"[..0] == "";
  }

  /** An exponent needs a significand and at least one digit, and ends the
      literal. */
  lemma RefusedExponents()
    ensures ParseDecimal("1e") == None && ParseDecimal("e5") == None && ParseDecimal("1e2.5") == None
  {
    assert "1e"[1..] == "e" && "1e2.5"[1..] == "e2.5";
    assert ExponentAt("1e") == Some(1) && "1e"[2..] == "";
    assert ExponentAt("e5") == Some(0) && "e5"[..0] == "";
    assert ExponentAt("1e2.5") == Some(1) && "1e2.5"[2..] == "2.5";
    assert "2.5"[1] == '.';
  }

  // ---------------------------------------------------------------------
  // Round trips between the printed forms and their values
  // ---------------------------------------------------------------------

  /** Printing a natural number and reading the digits back gives it again. */
  lemma {:induction false} NatToStringValue(n: nat)
    ensures DigitsValue(NatToString(n)) == n
  {
    if n >= 10 {
      var s := NatToString(n);
      assert s[..|s| - 1] == NatToString(n / 10);
      NatToStringValue(n / 10);
    }
  }

  /** Reading digits is positional: the value of a ++ b is a shifted by |b| plus b. */
  lemma {:induction false} DigitsValueAppend(a: string, b: string)
    requires AllDigits(a) && AllDigits(b)
    ensures AllDigits(a + b)
    ensures DigitsValue(a + b) == DigitsValue(a) * Pow10(|b|) + DigitsValue(b)
    decreases |b|
  {
    AllDigitsConcat(a, b);
    if b == [] {
      assert a + b == a;
    } else {
      var ab := a + b;
      var b', c := b[..|b| - 1], b[|b| - 1];
      assert ab[..|ab| - 1] == a + b';
      assert ab[|ab| - 1] == c;
      DigitsValueAppend(a, b');
      var A, P, B := DigitsValue(a), Pow10(|b'|), DigitsValue(b');
      assert DigitsValue(ab) == 10 * (A * P + B) + DigitValue(c);
      assert DigitsValue(b) == 10 * B + DigitValue(c);
      assert Pow10(|b|) == 10 * P;
      ShiftByTen(A, P);
    }
  }

  lemma ZeroTimes(p: int)
    ensures 0 * p == 0
  {
  }

  lemma ShiftByTen(a: int, p: int)
    ensures 10 * (a * p) == a * (10 * p)
  {
  }

  lemma AllDigitsConcat(a: string, b: string)
    requires AllDigits(a) && AllDigits(b)
    ensures AllDigits(a + b)
  {
    forall i | 0 <= i < |a + b|
      ensures IsDigit((a + b)[i])
    {
      if i < |a| { assert (a + b)[i] == a[i]; } else { assert (a + b)[i] == b[i - |a|]; }
    }
  }

  lemma {:induction false} ZerosValue(k: nat)
    ensures DigitsValue(Zeros(k)) == 0
  {
    if k > 0 {
      DigitsValueAppend("0", Zeros(k - 1));
      ZerosValue(k - 1);
      assert DigitsValue("0") == 0 by {
        assert "0"[..0] == [];
      }
    }
  }

  /** Digits with no point parse as an integer of scale 0. */
  lemma ParseUnsignedInteger(digits: string)
    requires |digits| >= 1 && AllDigits(digits)
    ensures ParseUnsigned(digits) == Some(Dec(DigitsValue(digits), 0))
  {
    assert '.' !in digits;
    assert digits + "" == digits;
  }

  /** A run of digits has no sign and no exponent: it parses as that
      integer. */
  lemma ParseDigitsOnly(digits: string)
    requires |digits| >= 1 && AllDigits(digits)
    ensures ParseDecimal(digits) == Some(Dec(DigitsValue(digits), 0))
  {
    ParseUnsignedInteger(digits);
    forall k | 0 <= k < |digits|
      ensures !IsExponentMarker(digits[k])
    {
      assert IsDigit(digits[k]);
    }
  }

  /** ip.fp parses as the digits ip ++ fp scaled by |fp|. */
  lemma ParseUnsignedPoint(ip: string, fp: string)
    requires AllDigits(ip) && AllDigits(fp) && |ip| + |fp| >= 1
    ensures AllDigits(ip + fp)
    ensures ParseUnsigned(ip + "." + fp) == Some(Dec(DigitsValue(ip + fp), |fp|))
  {
    AllDigitsConcat(ip, fp);
    var t := ip + "." + fp;
    assert '.' !in ip;
    assert t[..|ip|] == ip;
    IndexOfFirst(t, '.', |ip|);
    assert t[|ip| + 1..] == fp;
  }

  /** The body toPlainString prints parses back to the same unscaled value and scale. */
  lemma PlainBodyRoundTrip(u: nat, scale: nat)
    ensures ParseUnsigned(PlainBody(u, scale)) == Some(Dec(u, scale))
  {
    if scale == 0 {
      NatToStringValue(u);
      ParseUnsignedInteger(NatToString(u));
    } else if |NatToString(u)| > scale {
      PointInside(u, scale);
    } else {
      PointBefore(u, scale);
    }
  }

  /** More digits than the scale: the point goes between them. */
  lemma PointInside(u: nat, scale: nat)
    requires 0 < scale < |NatToString(u)|
    ensures ParseUnsigned(PlainBody(u, scale)) == Some(Dec(u, scale))
  {
    var digits := NatToString(u);
    NatToStringValue(u);
    SliceFacts(digits, |digits| - scale);
    PointInsideParse(u, scale, digits);
  }

  lemma PointInsideParse(u: nat, scale: nat, digits: string)
    requires digits == NatToString(u) && 0 < scale < |digits| && DigitsValue(digits) == u
    requires digits[..|digits| - scale] + digits[|digits| - scale..] == digits
    requires AllDigits(digits[..|digits| - scale]) && AllDigits(digits[|digits| - scale..])
    ensures ParseUnsigned(PlainBody(u, scale)) == Some(Dec(u, scale))
  {
    ParseUnsignedJoined(digits[..|digits| - scale], digits[|digits| - scale..], digits);
  }

  /** No more digits than the scale: "0." and zeros come first. */
  lemma PointBefore(u: nat, scale: nat)
    requires 0 < scale && |NatToString(u)| <= scale
    ensures ParseUnsigned(PlainBody(u, scale)) == Some(Dec(u, scale))
  {
    var digits := NatToString(u);
    var z := Zeros(scale - |digits|);
    NatToStringValue(u);
    ZerosPrefixValue(scale - |digits|, digits);
    LeadingZeroValue(z + digits);
    PaddedText(z, digits);
    assert PlainBody(u, scale) == "0" + "." + (z + digits);
    PointBeforeParse(u, scale, z + digits);
  }

  lemma PointBeforeParse(u: nat, scale: nat, fp: string)
    requires AllDigits(fp) && |fp| == scale
    requires AllDigits("0" + fp) && DigitsValue("0" + fp) == u
    requires PlainBody(u, scale) == "0" + "." + fp
    ensures ParseUnsigned(PlainBody(u, scale)) == Some(Dec(u, scale))
  {
    ParseUnsignedJoined("0", fp, "0" + fp);
  }

  /** A digit string cut in two: the halves are digits and join back. */
  lemma SliceFacts(digits: string, k: nat)
    requires AllDigits(digits) && k <= |digits|
    ensures digits[..k] + digits[k..] == digits
    ensures AllDigits(digits[..k]) && AllDigits(digits[k..])
  {
    AllDigitsSlice(digits, 0, k);
    AllDigitsSlice(digits, k, |digits|);
  }

  /** ip.fp parses as the digits `all` that ip and fp make up, scaled by |fp|. */
  lemma ParseUnsignedJoined(ip: string, fp: string, all: string)
    requires AllDigits(ip) && AllDigits(fp) && |ip| + |fp| >= 1 && ip + fp == all
    ensures AllDigits(all)
    ensures ParseUnsigned(ip + "." + fp) == Some(Dec(DigitsValue(all), |fp|))
  {
    ParseUnsignedPoint(ip, fp);
  }

  lemma PaddedText(z: string, digits: string)
    ensures "0." + z + digits == "0" + "." + (z + digits)
  {
  }

  /** Leading zeros add nothing to a digit string's value. */
  lemma ZerosPrefixValue(n: nat, digits: string)
    requires AllDigits(digits)
    ensures AllDigits(Zeros(n) + digits) && DigitsValue(Zeros(n) + digits) == DigitsValue(digits)
  {
    DigitsValueAppend(Zeros(n), digits);
    ZerosValue(n);
    ZeroTimes(Pow10(|digits|));
  }

  /** A leading zero adds nothing to a digit string's value. */
  lemma LeadingZeroValue(fp: string)
    requires AllDigits(fp)
    ensures AllDigits("0" + fp) && DigitsValue("0" + fp) == DigitsValue(fp)
  {
    DigitsValueAppend("0", fp);
    assert DigitsValue("0") == 0 by {
      assert "0"[..0] == [];
    }
    ZeroTimes(Pow10(|fp|));
  }

  lemma AllDigitsSlice(s: string, i: nat, j: nat)
    requires AllDigits(s) && i <= j <= |s|
    ensures AllDigits(s[i..j])
  {
    forall k | 0 <= k < j - i
      ensures IsDigit(s[i..j][k])
    {
      assert s[i..j][k] == s[i + k];
    }
  }

  /** toPlainString and new BigDecimal(String) are inverse: printing a
      decimal and parsing the text gives back the same unscaled value and
      scale. */
  lemma PlainStringRoundTrip(d: Dec)
    ensures ParseDecimal(PlainString(d)) == Some(d)
  {
    PlainStringNoExponent(d);
    var body := PlainBody(Abs(d.unscaled), d.scale);
    PlainBodyRoundTrip(Abs(d.unscaled), d.scale);
    if d.unscaled < 0 {
      assert PlainString(d)[1..] == body;
    } else {
      assert PlainString(d) == body;
    }
  }

  /** A two-place decimal printed and read back rounds to its own
      hundredths, whatever the mode. */
  lemma PrintedHundredths(h: int, mode: Mode)
    ensures ParseDecimal(PlainString(Dec(h, 2))) == Some(Dec(h, 2))
    ensures Hundredths(Dec(h, 2).Value(), mode) == h
  {
    PlainStringRoundTrip(Dec(h, 2));
    HundredthsValue(h);
    HundredthsOfHundredths(h, mode);
  }

  /** toPlainString never prints an exponent. */
  lemma PlainStringNoExponent(d: Dec)
    ensures ExponentAt(PlainString(d)).None?
  {
    var p := PlainString(d);
    PlainStringNumeral(d);
    forall k | 0 <= k < |p|
      ensures !IsExponentMarker(p[k])
    {
      assert IsNumeral(p[k]);
    }
  }

  /** The characters toPlainString can print. */
  predicate IsNumeral(c: char) { IsDigit(c) || c == '.' || c == '-' }

  /** toPlainString prints at least one character, and only digits, the
      point and the minus sign. */
  lemma PlainStringNumeral(d: Dec)
    ensures |PlainString(d)| >= 1
    ensures forall k :: 0 <= k < |PlainString(d)| ==> IsNumeral(PlainString(d)[k])
    ensures d.unscaled >= 0 ==> forall k :: 0 <= k < |PlainString(d)| ==> IsDigit(PlainString(d)[k]) || PlainString(d)[k] == '.'
  {
    var u := Abs(d.unscaled);
    var digits := NatToString(u);
    var body := PlainBody(u, d.scale);
    assert forall k :: 0 <= k < |body| ==> IsDigit(body[k]) || body[k] == '.' by {
      if d.scale == 0 {
      } else if |digits| > d.scale {
        AllDigitsSlice(digits, 0, |digits| - d.scale);
        AllDigitsSlice(digits, |digits| - d.scale, |digits|);
      } else {
        var z := Zeros(d.scale - |digits|);
        assert body == "0." + z + digits;
        forall k | 0 <= k < |body| ensures IsDigit(body[k]) || body[k] == '.' {
          if k >= 2 + |z| {
            assert body[k] == digits[k - 2 - |z|];
          } else if k >= 2 {
            assert body[k] == z[k - 2];
          }
        }
      }
    }
  }

  /** Integer.toString prints at least one character, and only digits
      and the minus sign. */
  lemma IntToStringNumeral(i: int)
    ensures |IntToString(i)| >= 1
    ensures forall k :: 0 <= k < |IntToString(i)| ==> IsDigit(IntToString(i)[k]) || IntToString(i)[k] == '-'
  {
    if i < 0 {
      var digits := NatToString(-i);
      assert forall k :: 1 <= k < |IntToString(i)| ==> IntToString(i)[k] == digits[k - 1];
    }
  }

  lemma IndexOfFirst(s: string, c: char, k: nat)
    requires k < |s| && s[k] == c && c !in s[..k]
    ensures IndexOf(s, c) == Some(k)
  {
    if k > 0 {
      assert s[1..][..k - 1] == s[..k][1..];
      IndexOfFirst(s[1..], c, k - 1);
    }
  }
}
