/** The decimal arithmetic of a rate: from the upstream's exact decimal, through
    the numeric(20,10) column, to the ten-place text on the wire. */
module Rates {
  import opened Domain

  /** shopspring/decimal: coef * 10^exp, exact. */
  datatype Decimal = Decimal(coef: int, exp: int)

  const PLACES: int := 10

  function Pow10(n: nat): (p: nat)
    ensures p >= 1
  {
    if n == 0 then 1 else 10 * Pow10(n - 1)
  }

  /** A decimal counted in units of the tenth place is Num / Den. */
  function Num(d: Decimal): int {
    d.coef * Pow10(if d.exp + PLACES > 0 then d.exp + PLACES else 0)
  }

  function Den(d: Decimal): (n: int)
    ensures n >= 1
  {
    Pow10(if d.exp + PLACES < 0 then -(d.exp + PLACES) else 0)
  }

  /** Rounding to the nearest unit, halves away from zero. */
  function RoundHalfAway(num: int, den: int): int
    requires den >= 1
  {
    if num >= 0 then (2 * num + den) / (2 * den) else -((2 * -num + den) / (2 * den))
  }

  /** The value as the column's scale keeps it. */
  function Quantise(d: Decimal): int { RoundHalfAway(Num(d), Den(d)) }

  /** One past the largest magnitude numeric(20,10) holds, in units. */
  const OVERFLOW: int := 100_000_000_000_000_000_000

  /** What an insert into quotes.rate stores; None when the column's precision
      or its positivity check refuses the value. */
  function StoredRate(d: Decimal): Option<int> {
    var units := Quantise(d);
    if units >= OVERFLOW || units <= -OVERFLOW then None
    else if units <= 0 then None
    else Some(units)
  }

  lemma DivBounds(a: int, b: int)
    requires b > 0
    ensures b * (a / b) <= a < b * (a / b) + b
  {
  }

  /** The rounded count is within half a unit of the exact one. */
  lemma RoundIsNearest(num: int, den: int)
    requires den >= 1 && num >= 0
    ensures var r := RoundHalfAway(num, den);
            r >= 0 && 2 * (r * den) - den <= 2 * num < 2 * (r * den) + den
  {
    var r := RoundHalfAway(num, den);
    DivBounds(2 * num + den, 2 * den);
    assert 2 * den * r == 2 * (r * den);
  }

  lemma Monotone(a: int, b: int, c: int)
    requires a <= b && c >= 0
    ensures a * c <= b * c
  {
    assert (b - a) * c >= 0;
  }

  /** Comparing a rounded count with a whole number of units is comparing the
      exact value with half a unit less. */
  lemma RoundReaches(num: int, den: int, units: int)
    requires den >= 1 && num >= 0 && units >= 0
    ensures RoundHalfAway(num, den) >= units <==> 2 * num >= 2 * (units * den) - den
  {
    RoundIsNearest(num, den);
    NearestReaches(RoundHalfAway(num, den), num, den, units);
  }

  lemma NearestReaches(r: int, num: int, den: int, units: int)
    requires den >= 1 && 2 * (r * den) - den <= 2 * num < 2 * (r * den) + den
    ensures r >= units <==> 2 * num >= 2 * (units * den) - den
  {
    if r >= units {
      Monotone(units, r, den);
    } else {
      Monotone(r + 1, units, den);
      assert (r + 1) * den == r * den + den;
    }
  }

  /** A positive decimal is stored as a ten-place value between 0 and 10^10 that
      is at most half a unit of the tenth place away; it is refused exactly when
      it is under half a unit or when it rounds up to 10^10 or more. */
  lemma StoredRateOfPositive(d: Decimal)
    requires d.coef > 0
    ensures StoredRate(d).Some? ==>
              var v := StoredRate(d).value;
              0 < v < OVERFLOW && -Den(d) <= 2 * (v * Den(d) - Num(d)) <= Den(d)
    ensures StoredRate(d).None? <==>
            2 * Num(d) < Den(d) || 2 * Num(d) >= 2 * (OVERFLOW * Den(d)) - Den(d)
  {
    PositiveNum(d);
    RoundIsNearest(Num(d), Den(d));
    RoundReaches(Num(d), Den(d), 1);
    RoundReaches(Num(d), Den(d), OVERFLOW);
  }

  lemma PositiveNum(d: Decimal)
    ensures d.coef > 0 ==> Num(d) > 0
    ensures d.coef <= 0 ==> Num(d) <= 0
  {
    var p := Pow10(if d.exp + PLACES > 0 then d.exp + PLACES else 0);
    if d.coef > 0 {
      Monotone(1, d.coef, p);
    } else {
      Monotone(d.coef, 0, p);
    }
  }

  /** A value that is not positive is never stored. */
  lemma StoredRateOfOthers(d: Decimal)
    requires d.coef <= 0
    ensures StoredRate(d) == None
  {
    PositiveNum(d);
    if Num(d) == 0 {
      assert Quantise(d) == Den(d) / (2 * Den(d));
    } else {
      DivBounds(2 * -Num(d) + Den(d), 2 * Den(d));
    }
  }

  // ----- The same in real numbers ---------------------------------------------

  function RealPow10(n: nat): (x: real)
    ensures x >= 1.0
  {
    if n == 0 then 1.0 else 10.0 * RealPow10(n - 1)
  }

  /** The number a decimal stands for. */
  function Exact(d: Decimal): real {
    if d.exp >= 0 then d.coef as real * RealPow10(d.exp) else d.coef as real / RealPow10(-d.exp)
  }

  lemma {:induction false} PowersAgree(n: nat)
    ensures Pow10(n) as real == RealPow10(n)
  {
    if n > 0 {
      PowersAgree(n - 1);
    }
  }

  lemma {:induction false} PowersAdd(m: nat, n: nat)
    ensures RealPow10(m + n) == RealPow10(m) * RealPow10(n)
  {
    if n > 0 {
      PowersAdd(m, n - 1);
      assert RealPow10(m + n) == 10.0 * RealPow10(m + (n - 1));
      TimesTen(RealPow10(m), RealPow10(n - 1));
    }
  }

  lemma TimesTen(x: real, y: real)
    ensures 10.0 * (x * y) == x * (10.0 * y)
  {
  }

  lemma TenPlaces()
    ensures RealPow10(10) == 10_000_000_000.0
  {
    assert RealPow10(5) == 100_000.0;
    PowersAdd(5, 5);
  }

  lemma TenIs(m: nat, n: nat)
    requires m + n == 10
    ensures RealPow10(m) * RealPow10(n) == 10_000_000_000.0
  {
    TenPlaces();
    PowersAdd(m, n);
  }

  lemma TenMore(n: nat)
    ensures RealPow10(n + 10) == RealPow10(n) * 10_000_000_000.0
  {
    TenPlaces();
    PowersAdd(n, 10);
  }

  lemma ProductAsReal(a: int, b: int)
    ensures (a * b) as real == a as real * b as real
  {
  }

  lemma UnitsOfWhole(c: real, p: real, q: real, pq: real)
    requires pq == p * q
    ensures c * pq == c * p * q
  {
  }

  lemma UnitsOfFraction(c: real, p: real, q: real, t: real)
    requires p > 0.0 && t == p * q
    ensures c * q == c / p * t
  {
    assert c / p * p == c;
    assert c / p * (p * q) == c / p * p * q;
  }

  lemma UnitsOfTiny(c: real, t: real, q: real, p: real)
    requires t > 0.0 && q > 0.0 && p == t * q
    ensures c == c / p * t * q
  {
    assert p > 0.0;
    assert c / p * t * q == c / p * (t * q);
  }

  /** Num / Den is the decimal's value in units of 10^-10. */
  lemma UnitsAreExact(d: Decimal)
    ensures Num(d) as real == Exact(d) * 10_000_000_000.0 * Den(d) as real
  {
    if d.exp >= 0 {
      ExactWhole(d);
    } else if d.exp >= -10 {
      ExactFraction(d);
    } else {
      ExactTiny(d);
    }
  }

  lemma ExactWhole(d: Decimal)
    requires d.exp >= 0
    ensures Num(d) as real == Exact(d) * 10_000_000_000.0 && Den(d) == 1
  {
    var n: nat := d.exp + 10;
    PowersAgree(n);
    TenMore(d.exp);
    assert Num(d) == d.coef * Pow10(n);
    ProductAsReal(d.coef, Pow10(n));
    UnitsOfWhole(d.coef as real, RealPow10(d.exp), 10_000_000_000.0, RealPow10(n));
  }

  lemma {:induction false} FractionParts(d: Decimal, n: nat, m: nat)
    requires -10 <= d.exp < 0 && n == d.exp + 10 && m == -d.exp
    ensures Num(d) == d.coef * Pow10(n) && Den(d) == 1
    ensures Exact(d) == d.coef as real / RealPow10(m)
  {
  }

  lemma {:induction false} ExactFraction(d: Decimal)
    requires -10 <= d.exp < 0
    ensures Num(d) as real == Exact(d) * 10_000_000_000.0 && Den(d) == 1
  {
    var n: nat, m: nat := d.exp + 10, -d.exp;
    FractionParts(d, n, m);
    FractionScaled(d.coef, n, m);
  }

  lemma {:induction false} FractionScaled(coef: int, n: nat, m: nat)
    requires m + n == 10
    ensures (coef * Pow10(n)) as real == coef as real / RealPow10(m) * 10_000_000_000.0
  {
    var q, r := TenParts(n, m);
    Scaled(coef, Pow10(n), q, r);
  }

  lemma {:induction false} TenParts(n: nat, m: nat) returns (q: real, r: real)
    requires m + n == 10
    ensures Pow10(n) as real == q && RealPow10(m) == r > 0.0 && 10_000_000_000.0 == r * q
  {
    q, r := RealPow10(n), RealPow10(m);
    PowersAgree(n);
    TenIs(m, n);
  }

  lemma Scaled(coef: int, p: int, q: real, r: real)
    requires p as real == q && r > 0.0 && 10_000_000_000.0 == r * q
    ensures (coef * p) as real == coef as real / r * 10_000_000_000.0
  {
    ProductAsReal(coef, p);
    UnitsOfFraction(coef as real, r, q, 10_000_000_000.0);
  }

  lemma ExactTiny(d: Decimal)
    requires d.exp < -10
    ensures Num(d) as real == Exact(d) * 10_000_000_000.0 * Den(d) as real
  {
    var n: nat, m: nat := -d.exp - 10, -d.exp;
    PowersAgree(n);
    TenMore(n);
    assert Num(d) == d.coef && Den(d) == Pow10(n) && Exact(d) == d.coef as real / RealPow10(m);
    UnitsOfTiny(d.coef as real, 10_000_000_000.0, RealPow10(n), RealPow10(m));
  }

  lemma Cancel(x: real, y: real, den: real)
    requires den > 0.0
    ensures x * den <= y * den <==> x <= y
  {
    if x <= y {
      assert (y - x) * den >= 0.0;
    } else {
      assert (x - y) * den > 0.0;
    }
  }

  lemma {:induction false} ReachesInReals(units: real, num: int, den: int, u: int)
    requires den >= 1 && num as real == units * den as real
    ensures 2 * num >= 2 * (u * den) - den <==> units >= u as real - 0.5
  {
    ProductAsReal(u, den);
    Cancel(u as real - 0.5, units, den as real);
  }

  lemma {:induction false} NearestOf(stored: Option<int>, num: int, den: int, units: real)
    requires den >= 1 && num as real == units * den as real
    requires stored.Some? ==>
               0 < stored.value < OVERFLOW && -den <= 2 * (stored.value * den - num) <= den
    requires stored.None? <==> 2 * num < den || 2 * num >= 2 * (OVERFLOW * den) - den
    ensures stored.Some? ==> -0.5 <= stored.value as real - units <= 0.5
    ensures stored.None? <==> units < 0.5 || units >= OVERFLOW as real - 0.5
  {
    ReachesInReals(units, num, den, 1);
    ReachesInReals(units, num, den, OVERFLOW);
    if stored.Some? {
      NearestInReals(units, stored.value, num, den);
    }
  }

  lemma {:induction false} NearestFor(d: Decimal, units: real)
    requires d.coef > 0 && Num(d) as real == units * Den(d) as real
    ensures StoredRate(d).Some? ==>
              0 < StoredRate(d).value < OVERFLOW && -0.5 <= StoredRate(d).value as real - units <= 0.5
    ensures StoredRate(d).None? <==> units < 0.5 || units >= OVERFLOW as real - 0.5
  {
    StoredRateOfPositive(d);
    NearestOf(StoredRate(d), Num(d), Den(d), units);
  }

  /** The stored rate is a ten-place value, positive and under 10^10, and no
      further than half a unit of the tenth place from the upstream's number; a
      positive number is refused exactly when it is under half a unit or within
      half a unit of 10^10 or beyond. */
  lemma {:induction false} StoredRateIsNearest(d: Decimal)
    requires d.coef > 0
    ensures StoredRate(d).Some? ==>
              && 0 < StoredRate(d).value < 100_000_000_000_000_000_000
              && -0.5 <= StoredRate(d).value as real - Exact(d) * 10_000_000_000.0 <= 0.5
    ensures StoredRate(d).None? <==>
            || Exact(d) * 10_000_000_000.0 < 0.5
            || Exact(d) * 10_000_000_000.0 >= 99_999_999_999_999_999_999.5
  {
    UnitsAreExact(d);
    NearestFor(d, Exact(d) * 10_000_000_000.0);
  }

  lemma Distribute(x: real, y: real, z: real)
    ensures (x - y) * z == x * z - y * z
  {
  }

  lemma HalfOf(w: real, den: real, wide: real)
    requires den >= 1.0 && wide == w * den && -den <= 2.0 * wide <= den
    ensures -0.5 <= w <= 0.5
  {
    Cancel(-0.5, w, den);
    Cancel(w, 0.5, den);
  }

  lemma WithinHalf(units: real, v: real, num: real, den: real, vden: real)
    requires den >= 1.0 && num == units * den && vden == v * den
    requires -den <= 2.0 * (vden - num) <= den
    ensures -0.5 <= v - units <= 0.5
  {
    Distribute(v, units, den);
    HalfOf(v - units, den, vden - num);
  }

  lemma {:induction false} NearestInReals(units: real, v: int, num: int, den: int)
    requires den >= 1 && num as real == units * den as real
    requires -den <= 2 * (v * den - num) <= den
    ensures -0.5 <= v as real - units <= 0.5
  {
    ProductAsReal(v, den);
    WithinHalf(units, v as real, num as real, den as real, (v * den) as real);
  }

  // ----- Text ---------------------------------------------------------------

  function Digit(n: nat): char
    requires n < 10
  {
    '0' + n as char
  }

  predicate IsDigit(c: char) { '0' <= c <= '9' }

  predicate AllDigits(s: string) { forall i | 0 <= i < |s| :: IsDigit(s[i]) }

  /** Decimal digits of a natural number, no leading zero except for zero itself. */
  function Digits(n: nat): (s: string)
    ensures |s| >= 1 && AllDigits(s)
    ensures |s| > 1 ==> s[0] != '0'
    ensures n > 0 ==> s[0] != '0'
  {
    if n < 10 then [Digit(n)] else Digits(n / 10) + [Digit(n % 10)]
  }

  function DigitsValue(s: string): nat
    requires AllDigits(s)
  {
    if s == [] then 0 else 10 * DigitsValue(s[..|s| - 1]) + (s[|s| - 1] - '0') as nat
  }

  function Zeros(n: nat): (s: string)
    ensures |s| == n && AllDigits(s)
    ensures forall i | 0 <= i < n :: s[i] == '0'
  {
    seq(n, i => '0')
  }

  /** decimal.String of units at exponent -10 with no zero trimmed. */
  function FixedText(units: int): string {
    if units < 0 then "-" + UnsignedText(-units) else UnsignedText(units)
  }

  function UnsignedText(units: nat): string {
    var s := Digits(units);
    if |s| > PLACES then s[..|s| - PLACES] + "." + s[|s| - PLACES..]
    else "0." + Zeros(PLACES - |s|) + s
  }

  /** StringFixed(10): round to ten places, then print every one of them. */
  function FormatRate(d: Decimal): string { FixedText(Quantise(d)) }

  function Point(s: string): (i: nat)
    ensures i <= |s|
    ensures forall k | 0 <= k < i :: s[k] != '.'
    ensures i < |s| ==> s[i] == '.'
  {
    if s == [] || s[0] == '.' then 0 else 1 + Point(s[1..])
  }

  /** decimal.NewFromString without exponents: an optional sign, digits, and at
      most one point, whose place becomes the exponent. */
  function ParseDecimal(s: string): Option<Decimal> {
    if s != [] && s[0] == '-' then
      match ParseUnsigned(s[1..])
      case None => None
      case Some(d) => Some(Decimal(-d.coef, d.exp))
    else ParseUnsigned(s)
  }

  function ParseUnsigned(s: string): Option<Decimal> {
    var i := Point(s);
    var whole, fraction := s[..i], if i < |s| then s[i + 1..] else [];
    if whole + fraction == [] || !AllDigits(whole + fraction) then None
    else Some(Decimal(DigitsValue(whole + fraction), -|fraction|))
  }

  lemma {:induction false} DigitsRoundTrip(n: nat)
    ensures DigitsValue(Digits(n)) == n
  {
    if n >= 10 {
      DigitsRoundTrip(n / 10);
      var s := Digits(n);
      assert s[..|s| - 1] == Digits(n / 10);
    } else {
      assert Digits(n)[..0] == [];
    }
  }

  lemma {:induction false} LeadingZeros(k: nat, s: string)
    requires AllDigits(s)
    ensures AllDigits(Zeros(k) + s) && DigitsValue(Zeros(k) + s) == DigitsValue(s)
  {
    var t := Zeros(k) + s;
    if s != [] {
      LeadingZeros(k, s[..|s| - 1]);
      assert t[..|t| - 1] == Zeros(k) + s[..|s| - 1];
    } else if k > 0 {
      LeadingZeros(k - 1, []);
      assert t[..|t| - 1] == Zeros(k - 1) + [];
    }
  }

  /** The text of a count: at least one digit and no zero before others, a point,
      and exactly ten digits. */
  lemma FixedTextShape(units: nat)
    ensures var s := FixedText(units);
            |s| > PLACES + 1 && s[|s| - PLACES - 1] == '.'
            && AllDigits(s[..|s| - PLACES - 1]) && AllDigits(s[|s| - PLACES..])
            && (|s| - PLACES - 1 > 1 ==> s[0] != '0')
  {
    var d, s := Digits(units), FixedText(units);
    if |d| > PLACES {
      assert s[|s| - PLACES..] == d[|d| - PLACES..];
      assert s[..|s| - PLACES - 1] == d[..|d| - PLACES];
    } else {
      assert s[|s| - PLACES..] == Zeros(PLACES - |d|) + d;
      assert s[..|s| - PLACES - 1] == "0";
    }
  }

  lemma PointOf(whole: string, fraction: string)
    requires AllDigits(whole)
    ensures Point(whole + "." + fraction) == |whole|
  {
    var s := whole + "." + fraction;
    assert s[|whole|] == '.';
    assert forall k | 0 <= k < |whole| :: s[k] == whole[k] && s[k] != '.';
  }

  lemma UnsignedHasNoSign(n: nat)
    ensures |UnsignedText(n)| > 0 && UnsignedText(n)[0] != '-'
  {
    FixedTextShape(n);
    var u := UnsignedText(n);
    assert u[..|u| - PLACES - 1][0] == u[0];
  }

  lemma {:induction false} SignedParse(u: string, d: Decimal)
    requires ParseUnsigned(u) == Some(d) && |u| > 0 && u[0] != '-'
    ensures ParseDecimal(u) == Some(d)
    ensures ParseDecimal("-" + u) == Some(Decimal(-d.coef, d.exp))
  {
    assert ("-" + u)[1..] == u;
  }

  /** Printing and parsing back is the identity on stored counts, at exponent -10. */
  lemma FixedTextRoundTrip(units: int)
    ensures ParseDecimal(FixedText(units)) == Some(Decimal(units, -PLACES))
  {
    var n: nat := if units < 0 then -units else units;
    UnsignedRoundTrip(n);
    UnsignedHasNoSign(n);
    SignedParse(UnsignedText(n), Decimal(n, -PLACES));
  }

  lemma ParseParts(whole: string, fraction: string)
    requires AllDigits(whole) && AllDigits(fraction) && whole != []
    ensures AllDigits(whole + fraction)
    ensures ParseUnsigned(whole + "." + fraction)
         == Some(Decimal(DigitsValue(whole + fraction), -|fraction|))
  {
    var s := whole + "." + fraction;
    PointOf(whole, fraction);
    assert s[..|whole|] == whole && s[|whole| + 1..] == fraction;
  }

  lemma PaddedText(zero: string, fraction: string, pad: nat, d: string)
    requires zero == Zeros(1) && fraction == Zeros(pad) + d
    ensures zero + "." + fraction == "0." + Zeros(pad) + d
    ensures zero + fraction == Zeros(pad + 1) + d
  {
    assert zero == "0";
  }

  lemma {:induction false} ParseText(text: string, whole: string, fraction: string, all: string)
    requires AllDigits(whole) && AllDigits(fraction) && whole != []
    requires text == whole + "." + fraction && all == whole + fraction && AllDigits(all)
    ensures ParseUnsigned(text) == Some(Decimal(DigitsValue(all), -|fraction|))
  {
    ParseParts(whole, fraction);
  }

  lemma {:induction false} ParsePadded(pad: nat, d: string)
    requires AllDigits(d)
    ensures ParseUnsigned("0." + Zeros(pad) + d) == Some(Decimal(DigitsValue(d), -(pad + |d|)))
  {
    var zero, fraction := Zeros(1), Zeros(pad) + d;
    LeadingZeros(pad, d);
    LeadingZeros(pad + 1, d);
    PaddedText(zero, fraction, pad, d);
    ParseText("0." + Zeros(pad) + d, zero, fraction, Zeros(pad + 1) + d);
  }

  lemma UnsignedRoundTrip(units: nat)
    ensures ParseUnsigned(UnsignedText(units)) == Some(Decimal(units, -PLACES))
  {
    var d := Digits(units);
    DigitsRoundTrip(units);
    if |d| > PLACES {
      var whole, fraction := d[..|d| - PLACES], d[|d| - PLACES..];
      ParseParts(whole, fraction);
      assert whole + fraction == d;
    } else {
      ParsePadded(PLACES - |d|, d);
    }
  }

  lemma QuantiseStored(units: int)
    ensures Quantise(Decimal(units, -PLACES)) == units
  {
    var d := Decimal(units, -PLACES);
    assert Pow10(0) == 1;
    assert Num(d) == units && Den(d) == 1;
    assert RoundHalfAway(units, 1) == units;
  }

  /** The whole path of a stored rate: the column's text is read back as a
      decimal and printed again as the same text, and reading that names the
      same ten-place value. */
  lemma StoredRatePrintsExactly(units: int)
    ensures ParseDecimal(FixedText(units)).Some?
    ensures FormatRate(ParseDecimal(FixedText(units)).value) == FixedText(units)
    ensures ParseDecimal(FormatRate(Decimal(units, -PLACES))) == Some(Decimal(units, -PLACES))
  {
    FixedTextRoundTrip(units);
    QuantiseStored(units);
  }

  /** Different stored rates never print alike. */
  lemma FixedTextInjective(a: int, b: int)
    requires FixedText(a) == FixedText(b)
    ensures a == b
  {
    FixedTextRoundTrip(a);
    FixedTextRoundTrip(b);
  }
}
