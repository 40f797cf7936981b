/** The liquidity-provider fee over a route: `computeTradePriceBreakdown` of pledge-fe/src/utils/prices.ts. */
module Prices {
  /** The fraction type of the swap library: exact, never reduced. */
  datatype Fraction = Fraction(numerator: int, denominator: int)

  predicate Proper(f: Fraction) {
    f.denominator > 0
  }

  function Multiply(a: Fraction, b: Fraction): Fraction {
    Fraction(a.numerator * b.numerator, a.denominator * b.denominator)
  }

  function Subtract(a: Fraction, b: Fraction): Fraction {
    if a.denominator == b.denominator then Fraction(a.numerator - b.numerator, a.denominator)
    else
      Fraction(a.numerator * b.denominator - b.numerator * a.denominator, a.denominator * b.denominator)
  }

  /** Big-integer division truncates. */
  function Quotient(f: Fraction): int
    requires Proper(f)
  {
    if f.numerator >= 0 then f.numerator / f.denominator else -(-f.numerator / f.denominator)
  }

  const BaseFee := Fraction(20, 10000)
  const OneHundredPercent := Fraction(10000, 10000)
  const InputFractionAfterFee := Subtract(OneHundredPercent, BaseFee)

  /** What the reduce over the route's pairs leaves of the input. */
  function Retained<P>(pairs: seq<P>): Fraction {
    if pairs == [] then OneHundredPercent
    else Multiply(Retained(pairs[..|pairs| - 1]), InputFractionAfterFee)
  }

  function RealizedLPFee<P>(pairs: seq<P>): Fraction {
    Subtract(OneHundredPercent, Retained(pairs))
  }

  /** The part of the input that accrues to liquidity providers, in whole units. */
  function RealizedLPFeeAmount<P>(pairs: seq<P>, raw: nat): int {
    RetainedProper(pairs);
    Quotient(Multiply(RealizedLPFee(pairs), Fraction(raw, 1)))
  }

  // ----- Values -----

  function Value(f: Fraction): real
    requires Proper(f)
  {
    f.numerator as real / f.denominator as real
  }

  lemma ValueUnique(f: Fraction, v: real)
    requires Proper(f) && v * f.denominator as real == f.numerator as real
    ensures Value(f) == v
  {
  }

  lemma ValueMultiply(a: Fraction, b: Fraction)
    requires Proper(a) && Proper(b)
    ensures Proper(Multiply(a, b)) && Value(Multiply(a, b)) == Value(a) * Value(b)
  {
    var x, y := Value(a), Value(b);
    var da, db := a.denominator as real, b.denominator as real;
    assert a.denominator * b.denominator > 0;
    assert x * da == a.numerator as real && y * db == b.numerator as real;
    assert (a.denominator * b.denominator) as real == da * db;
    assert (a.numerator * b.numerator) as real == (x * da) * (y * db);
    Regroup(x, da, y, db);
    ValueUnique(Multiply(a, b), x * y);
  }

  lemma Regroup(x: real, da: real, y: real, db: real)
    ensures (x * da) * (y * db) == (x * y) * (da * db)
  {
  }

  lemma ValueSubtract(a: Fraction, b: Fraction)
    requires Proper(a) && Proper(b)
    ensures Proper(Subtract(a, b)) && Value(Subtract(a, b)) == Value(a) - Value(b)
  {
    var x, y := Value(a), Value(b);
    var da, db := a.denominator as real, b.denominator as real;
    assert a.denominator * b.denominator > 0;
    assert x * da == a.numerator as real && y * db == b.numerator as real;
    if a.denominator == b.denominator {
      assert (x - y) * da == x * da - y * da;
      ValueUnique(Subtract(a, b), x - y);
    } else {
      CrossMultiply(x, da, y, db);
      assert (a.numerator * b.denominator) as real == (x * da) * db;
      assert (b.numerator * a.denominator) as real == (y * db) * da;
      assert (a.denominator * b.denominator) as real == da * db;
      ValueUnique(Subtract(a, b), x - y);
    }
  }

  lemma CrossMultiply(x: real, da: real, y: real, db: real)
    ensures (x - y) * (da * db) == (x * da) * db - (y * db) * da
  {
  }

  function Pow(x: real, k: nat): real {
    if k == 0 then 1.0 else Pow(x, k - 1) * x
  }

  const Keep := 9980.0 / 10000.0

  lemma {:induction false} RetainedProper<P>(pairs: seq<P>)
    ensures Proper(Retained(pairs)) && Proper(RealizedLPFee(pairs))
    ensures Value(Retained(pairs)) == Pow(Keep, |pairs|)
    ensures Value(RealizedLPFee(pairs)) == 1.0 - Pow(Keep, |pairs|)
  {
    if pairs != [] {
      RetainedProper(pairs[..|pairs| - 1]);
      ValueMultiply(Retained(pairs[..|pairs| - 1]), InputFractionAfterFee);
    }
    ValueSubtract(OneHundredPercent, Retained(pairs));
  }

  /** The fee of a route as a number. */
  function Fee<P>(pairs: seq<P>): real {
    RetainedProper(pairs);
    Value(RealizedLPFee(pairs))
  }

  lemma {:induction false} PowBounds(k: nat)
    ensures 0.0 < Pow(Keep, k) <= 1.0
    ensures 1.0 - k as real * 20.0 / 10000.0 <= Pow(Keep, k)
  {
    if k > 0 {
      PowBounds(k - 1);
      var p := Pow(Keep, k - 1);
      assert p * Keep == p - p * (20.0 / 10000.0);
      assert p * (20.0 / 10000.0) <= 20.0 / 10000.0;
    }
  }

  lemma {:induction false} PowConcat(j: nat, k: nat)
    ensures Pow(Keep, j + k) == Pow(Keep, j) * Pow(Keep, k)
  {
    if k > 0 {
      PowConcat(j, k - 1);
      var a, b := Pow(Keep, j), Pow(Keep, k - 1);
      assert Pow(Keep, j + k) == Pow(Keep, j + k - 1) * Keep;
      assert (a * b) * Keep == a * (b * Keep);
    }
  }

  /** Over k hops the fee is 1 - 0.998^k: in [0, 1) and at most 0.2% per hop. */
  lemma FeeOverRoute<P>(pairs: seq<P>)
    ensures var fee := Fee(pairs);
      && fee == 1.0 - Pow(0.998, |pairs|)
      && 0.0 <= fee < 1.0
      && (|pairs| == 1 ==> fee == 0.002)
      && fee <= |pairs| as real * 20.0 / 10000.0
  {
    RetainedProper(pairs);
    PowBounds(|pairs|);
  }

  /** Every further hop costs more. */
  lemma FeeGrows<P>(pairs: seq<P>, next: P)
    ensures Fee(pairs) < Fee(pairs + [next])
  {
    RetainedProper(pairs);
    RetainedProper(pairs + [next]);
    PowBounds(|pairs|);
    assert Pow(Keep, |pairs| + 1) == Pow(Keep, |pairs|) * Keep;
  }

  /** What two routes leave multiplies when one is put behind the other. */
  lemma RetainedMultiplies<P>(first: seq<P>, second: seq<P>)
    ensures 1.0 - Fee(first + second) == (1.0 - Fee(first)) * (1.0 - Fee(second))
  {
    RetainedProper(first);
    RetainedProper(second);
    RetainedProper(first + second);
    PowConcat(|first|, |second|);
  }

  lemma DivisionBounds(v: real, d: real, q: real, r: real)
    requires d > 0.0 && v * d == q * d + r && 0.0 <= r < d
    ensures q <= v < q + 1.0
  {
    assert (v - q) * d == r;
    assert (q + 1.0 - v) * d == d - r;
    Sign(v - q, d);
    Sign(q + 1.0 - v, d);
  }

  lemma Sign(x: real, d: real)
    requires d > 0.0
    ensures x * d >= 0.0 ==> x >= 0.0
    ensures x * d > 0.0 ==> x > 0.0
  {
  }

  lemma QuotientFloors(f: Fraction)
    requires Proper(f) && f.numerator >= 0
    ensures Quotient(f) as real <= Value(f) < Quotient(f) as real + 1.0
  {
    var q, d := Quotient(f), f.denominator;
    var r := f.numerator - q * d;
    assert 0 <= r < d;
    assert (q * d) as real == q as real * d as real;
    DivisionBounds(Value(f), d as real, q as real, r as real);
  }

  lemma ScaleLe(x: real, y: real, k: real)
    requires x <= y && k >= 0.0
    ensures x * k <= y * k
  {
  }

  lemma NumeratorSign(f: Fraction, v: real)
    requires Proper(f) && v >= 0.0 && v * f.denominator as real == f.numerator as real
    ensures f.numerator >= 0
  {
    ScaleLe(0.0, v, f.denominator as real);
  }

  lemma FeeNumerator<P>(pairs: seq<P>)
    ensures RealizedLPFee(pairs).numerator >= 0
  {
    RetainedProper(pairs);
    PowBounds(|pairs|);
    NumeratorSign(RealizedLPFee(pairs), Fee(pairs));
  }

  lemma TimesInput(fee: Fraction, raw: nat)
    requires Proper(fee) && fee.numerator >= 0
    ensures var f := Multiply(fee, Fraction(raw, 1));
      Proper(f) && f.numerator >= 0 && Value(f) == Value(fee) * raw as real
  {
    ValueMultiply(fee, Fraction(raw, 1));
  }

  lemma FeeFraction<P>(pairs: seq<P>, raw: nat)
    ensures var f := Multiply(RealizedLPFee(pairs), Fraction(raw, 1));
      Proper(f) && f.numerator >= 0 && Value(f) == Fee(pairs) * raw as real
  {
    RetainedProper(pairs);
    FeeNumerator(pairs);
    TimesInput(RealizedLPFee(pairs), raw);
  }

  lemma HopsBound(amount: int, hops: nat, raw: nat)
    requires amount as real <= (hops as real * 20.0 / 10000.0) * raw as real
    ensures 10000 * amount <= 20 * (hops * raw)
  {
    assert (hops * raw) as real == hops as real * raw as real;
    assert (hops as real * 20.0 / 10000.0) * raw as real == (hops as real * raw as real) * 20.0 / 10000.0;
    assert (10000 * amount) as real <= (20 * (hops * raw)) as real;
  }

  lemma BelowInput(fee: real, input: real)
    requires 0.0 <= fee < 1.0 && input >= 0.0
    ensures 0.0 <= fee * input <= input
    ensures input > 0.0 ==> fee * input < input
  {
    ScaleLe(0.0, fee, input);
    assert input - fee * input == (1.0 - fee) * input;
    ScaleLe(0.0, 1.0 - fee, input);
  }

  lemma RoundedDown(amount: int, exact: real, raw: nat)
    requires amount as real <= exact < amount as real + 1.0 && 0.0 <= exact <= raw as real
    ensures 0 <= amount <= raw
    ensures exact < raw as real ==> amount < raw
  {
    assert (amount + 1) as real > 0.0;
  }

  /** The fee amount is the exact fee rounded down to whole units. */
  lemma FeeAmountRoundsDown<P>(pairs: seq<P>, raw: nat)
    ensures RealizedLPFeeAmount(pairs, raw) as real <= Fee(pairs) * raw as real
    ensures Fee(pairs) * raw as real < RealizedLPFeeAmount(pairs, raw) as real + 1.0
  {
    FeeFraction(pairs, raw);
    QuotientFloors(Multiply(RealizedLPFee(pairs), Fraction(raw, 1)));
  }

  lemma AmountWithinInput(fee: real, input: real, raw: nat, amount: int)
    requires input == raw as real && 0.0 <= fee < 1.0
    requires amount as real <= fee * input < amount as real + 1.0
    ensures 0 <= amount <= raw && (raw > 0 ==> amount < raw)
  {
    BelowInput(fee, input);
    RoundedDown(amount, fee * input, raw);
  }

  lemma AmountWithinHops(fee: real, input: real, hops: nat, raw: nat, amount: int)
    requires input == raw as real && amount as real <= fee * input
    requires fee <= hops as real * 20.0 / 10000.0
    ensures 10000 * amount <= 20 * (hops * raw)
  {
    var rate := hops as real * 20.0 / 10000.0;
    ScaleLe(fee, rate, input);
    HopsBound(amount, hops, raw);
  }

  /** It is never negative, and less than any positive input. */
  lemma FeeAmountWithinInput<P>(pairs: seq<P>, raw: nat)
    ensures 0 <= RealizedLPFeeAmount(pairs, raw) <= raw
    ensures raw > 0 ==> RealizedLPFeeAmount(pairs, raw) < raw
  {
    FeeAmountRoundsDown(pairs, raw);
    FeeOverRoute(pairs);
    AmountWithinInput(Fee(pairs), raw as real, raw, RealizedLPFeeAmount(pairs, raw));
  }

  /** It is at most 0.2% of the input per hop. */
  lemma FeeAmountWithinHops<P>(pairs: seq<P>, raw: nat)
    ensures 10000 * RealizedLPFeeAmount(pairs, raw) <= 20 * (|pairs| * raw)
  {
    FeeAmountRoundsDown(pairs, raw);
    FeeOverRoute(pairs);
    AmountWithinHops(Fee(pairs), raw as real, |pairs|, raw, RealizedLPFeeAmount(pairs, raw));
  }
}
