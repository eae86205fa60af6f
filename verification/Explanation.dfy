/** The explanation service's variance, confidence and fallback impact score. */
module Explanation {
  import opened Reals

  function SumOf(f: real -> real, values: seq<real>): real {
    if values == [] then 0.0 else SumOf(f, values[..|values| - 1]) + f(values[|values| - 1])
  }

  function SquareFrom(m: real): real -> real {
    (v: real) => (v - m) * (v - m)
  }

  /** _calculate_variance */
  function VarianceOf(values: seq<real>): real {
    if values == [] then 0.0 else SumOf(SquareFrom(Mean(values)), values) / |values| as real
  }

  /** _calculate_confidence */
  function ConfidenceOf(values: seq<real>, impact: real): real {
    if values == [] then 0.5 else
    var base := if 1.0 - VarianceOf(values) > 0.5 then 1.0 - VarianceOf(values) else 0.5;
    if impact >= 0.9 || impact <= 0.1 then (if base + 0.1 < 1.0 then base + 0.1 else 1.0) else base
  }

  ghost predicate InUnit(values: seq<real>) {
    forall i :: 0 <= i < |values| ==> 0.0 <= values[i] <= 1.0
  }

  ghost predicate AllEqual(values: seq<real>) {
    forall i, j :: 0 <= i < |values| && 0 <= j < |values| ==> values[i] == values[j]
  }

  // ----- sums and quotients -----

  lemma Distribute(k: real, a: real, b: real)
    ensures k * (a + b) == k * a + k * b
  {
  }

  ghost predicate BelowLine(f: real -> real, values: seq<real>, k: real, c: real) {
    forall i :: 0 <= i < |values| ==> 0.0 <= f(values[i]) <= k * values[i] + c
  }

  /** Where f lies below a line at every value, its sum lies below the line's. */
  lemma {:induction false} SumBelowLine(f: real -> real, values: seq<real>, k: real, c: real)
    requires BelowLine(f, values, k, c)
    ensures 0.0 <= SumOf(f, values) <= k * Sum(values) + c * |values| as real
  {
    if values != [] {
      var front, last := values[..|values| - 1], values[|values| - 1];
      assert forall i :: 0 <= i < |front| ==> front[i] == values[i];
      SumBelowLine(f, front, k, c);
      Distribute(k, Sum(front), last);
      Distribute(c, |front| as real, 1.0);
    }
  }

  lemma {:induction false} SumOfNonnegatives(f: real -> real, values: seq<real>)
    requires forall i :: 0 <= i < |values| ==> f(values[i]) >= 0.0
    ensures SumOf(f, values) >= 0.0
    ensures SumOf(f, values) == 0.0 <==> forall i :: 0 <= i < |values| ==> f(values[i]) == 0.0
  {
    if values != [] {
      SumOfNonnegatives(f, values[..|values| - 1]);
      assert forall i :: 0 <= i < |values| - 1 ==> values[i] == values[..|values| - 1][i];
    }
  }

  lemma Quotient(a: real, n: real)
    requires n > 0.0
    ensures a / n * n == a
  {
  }

  lemma QuotientOf(a: real, n: real, q: real)
    requires n > 0.0 && a == q * n
    ensures a / n == q
  {
    Quotient(a, n);
    assert (a / n - q) * n == 0.0;
  }

  lemma SignOfProduct(a: real, b: real, product: real)
    requires product == a * b
    ensures a < 0.0 && b < 0.0 ==> product > 0.0
    ensures a > 0.0 && b > 0.0 ==> product > 0.0
  {
  }

  lemma QuotientBetween(a: real, n: real, high: real)
    requires n > 0.0 && 0.0 <= a <= high * n
    ensures 0.0 <= a / n <= high
    ensures a / n == 0.0 <==> a == 0.0
  {
    var q := a / n;
    Quotient(a, n);
    SignOfProduct(-q, n, -q * n);
    SignOfProduct(q - high, n, (q - high) * n);
  }

  // ----- the variance -----

  /** Below the unit interval's chord: (v - m)^2 <= (1 - 2m) v + m^2 since v^2 <= v. */
  lemma SquareBelowChord(v: real, m: real)
    requires 0.0 <= v <= 1.0
    ensures SquareFrom(m)(v) <= (1.0 - 2.0 * m) * v + m * m
  {
    SignOfProduct(v, 1.0 - v, v * (1.0 - v));
    assert (1.0 - 2.0 * m) * v + m * m - (v - m) * (v - m) == v * (1.0 - v);
  }

  /** The chord's sum at the mean, per value: m - m^2, at most a quarter. */
  lemma ChordAtMean(sum: real, n: real, m: real, k: real, c: real)
    requires sum == m * n && n > 0.0 && k == 1.0 - 2.0 * m && c == m * m
    ensures k * sum + c * n <= 0.25 * n
  {
    var d := m - 0.5;
    SquareSign(d, 0.0);
    assert d * d == m * m - m + 0.25;
    TimesMonotone(0.0, d * d, n);
    assert (1.0 - 2.0 * m) * (m * n) + m * m * n == 0.25 * n - d * d * n;
  }

  lemma SquareSign(v: real, m: real)
    ensures SquareFrom(m)(v) >= 0.0
    ensures SquareFrom(m)(v) == 0.0 <==> v == m
  {
    SignOfProduct(v - m, v - m, SquareFrom(m)(v));
  }

  lemma MeanTimes(values: seq<real>)
    requires values != []
    ensures Sum(values) == Mean(values) * |values| as real
  {
    Quotient(Sum(values), |values| as real);
  }

  lemma SquaresBelowChord(values: seq<real>, m: real)
    requires InUnit(values)
    ensures BelowLine(SquareFrom(m), values, 1.0 - 2.0 * m, m * m)
  {
    forall i | 0 <= i < |values|
      ensures 0.0 <= SquareFrom(m)(values[i]) <= (1.0 - 2.0 * m) * values[i] + m * m
    {
      SquareSign(values[i], m);
      SquareBelowChord(values[i], m);
    }
  }

  /** Some line lies above f at every value, and its sum is at most a quarter per value. */
  ghost predicate UnderALine(f: real -> real, values: seq<real>, sum: real, n: real) {
    exists k, c :: BelowLine(f, values, k, c) && k * sum + c * n <= 0.25 * n
  }

  lemma SquaresAreUnderALine(values: seq<real>, m: real, sum: real, n: real)
    requires InUnit(values) && n > 0.0 && sum == m * n
    ensures UnderALine(SquareFrom(m), values, sum, n)
  {
    SquaresBelowChord(values, m);
    ChordAtMean(sum, n, m, 1.0 - 2.0 * m, m * m);
  }

  lemma SumUnderALine(f: real -> real, values: seq<real>, n: real)
    requires n == |values| as real && UnderALine(f, values, Sum(values), n)
    ensures 0.0 <= SumOf(f, values) <= 0.25 * n
  {
    var k, c :| BelowLine(f, values, k, c) && k * Sum(values) + c * n <= 0.25 * n;
    SumBelowLine(f, values, k, c);
  }

  /** Values in the unit interval have a variance of at most a quarter. */
  lemma VarianceAtMostAQuarter(values: seq<real>)
    requires InUnit(values)
    ensures 0.0 <= VarianceOf(values) <= 0.25
  {
    if values != [] {
      MeanTimes(values);
      SquaresAreUnderALine(values, Mean(values), Sum(values), |values| as real);
      SumUnderALine(SquareFrom(Mean(values)), values, |values| as real);
      QuotientBetween(SumOf(SquareFrom(Mean(values)), values), |values| as real, 0.25);
    }
  }

  lemma {:induction false} SumOfEquals(values: seq<real>, x: real)
    requires forall i :: 0 <= i < |values| ==> values[i] == x
    ensures Sum(values) == x * |values| as real
  {
    if values != [] {
      SumOfEquals(values[..|values| - 1], x);
      Distribute(x, (|values| - 1) as real, 1.0);
    }
  }

  lemma SquaresVanish(values: seq<real>, m: real)
    ensures SumOf(SquareFrom(m), values) >= 0.0
    ensures SumOf(SquareFrom(m), values) == 0.0 <==> forall i :: 0 <= i < |values| ==> values[i] == m
  {
    forall i | 0 <= i < |values|
      ensures SquareFrom(m)(values[i]) >= 0.0
      ensures SquareFrom(m)(values[i]) == 0.0 <==> values[i] == m
    {
      SquareSign(values[i], m);
    }
    SumOfNonnegatives(SquareFrom(m), values);
  }

  lemma MeanOfEquals(values: seq<real>)
    requires AllEqual(values) && values != []
    ensures Mean(values) == values[0]
  {
    SumOfEquals(values, values[0]);
    QuotientOf(Sum(values), |values| as real, values[0]);
  }

  lemma ZeroQuotient(a: real, n: real)
    requires n > 0.0
    ensures a / n == 0.0 <==> a == 0.0
  {
    Quotient(a, n);
    if a == 0.0 {
      QuotientOf(a, n, 0.0);
    }
  }

  /** The variance is zero exactly when all the factors agree. */
  lemma NoVarianceIffAgreement(values: seq<real>)
    ensures VarianceOf(values) == 0.0 <==> AllEqual(values)
  {
    if values != [] {
      SquaresVanish(values, Mean(values));
      ZeroQuotient(SumOf(SquareFrom(Mean(values)), values), |values| as real);
      if AllEqual(values) {
        MeanOfEquals(values);
      }
    }
  }

  function Square(v: real): real {
    v * v
  }

  /** The sum of the squared distances from m, from the sums of squares and values. */
  ghost predicate Spread(deviations: real, squares: real, sum: real, n: real, m: real) {
    deviations == squares - 2.0 * m * sum + m * m * n
  }

  lemma OneMoreSquare(deviations: real, squares: real, sum: real, n: real, last: real, m: real)
    requires Spread(deviations, squares, sum, n, m)
    ensures Spread(deviations + SquareFrom(m)(last), squares + Square(last), sum + last, n + 1.0, m)
  {
    assert (last - m) * (last - m) == last * last - 2.0 * m * last + m * m;
    assert 2.0 * m * (sum + last) == 2.0 * m * sum + 2.0 * m * last;
    assert m * m * (n + 1.0) == m * m * n + m * m;
  }

  lemma {:induction false} SumOfSquaresFrom(values: seq<real>, m: real, n: real)
    requires n == |values| as real
    ensures Spread(SumOf(SquareFrom(m), values), SumOf(Square, values), Sum(values), n, m)
  {
    if values != [] {
      var front, last := values[..|values| - 1], values[|values| - 1];
      SumOfSquaresFrom(front, m, n - 1.0);
      OneMoreSquare(SumOf(SquareFrom(m), front), SumOf(Square, front), Sum(front), n - 1.0, last, m);
    }
  }

  ghost predicate IsQuotient(q: real, a: real, n: real) {
    q * n == a
  }

  lemma MeanIsQuotient(values: seq<real>)
    requires values != []
    ensures IsQuotient(Mean(values), Sum(values), |values| as real)
  {
    MeanTimes(values);
  }

  lemma VarianceIsQuotient(values: seq<real>)
    requires values != []
    ensures IsQuotient(VarianceOf(values), SumOf(SquareFrom(Mean(values)), values), |values| as real)
  {
    QuotientIs(SumOf(SquareFrom(Mean(values)), values), |values| as real);
  }

  lemma QuotientIs(a: real, n: real)
    requires n > 0.0
    ensures IsQuotient(a / n, a, n)
  {
    Quotient(a, n);
  }

  /** The mean of the squares less the square of the mean, with every division cleared. */
  ghost predicate IsVariance(variance: real, n: real, sum: real, squares: real) {
    variance * n * n == squares * n - sum * sum
  }

  lemma VarianceLaw(values: seq<real>)
    requires values != []
    ensures IsVariance(VarianceOf(values), |values| as real, Sum(values), SumOf(Square, values))
  {
    MeanIsQuotient(values);
    VarianceIsQuotient(values);
    SumOfSquaresFrom(values, Mean(values), |values| as real);
    Cleared(VarianceOf(values), |values| as real, Mean(values), Sum(values), SumOf(Square, values),
            SumOf(SquareFrom(Mean(values)), values));
  }

  lemma Cleared(variance: real, n: real, m: real, sum: real, squares: real, deviations: real)
    requires IsQuotient(variance, deviations, n) && IsQuotient(m, sum, n)
    requires Spread(deviations, squares, sum, n, m)
    ensures IsVariance(variance, n, sum, squares)
  {
    assert m * sum == m * m * n;
    assert deviations * n == squares * n - m * m * n * n;
    assert sum * sum == m * m * n * n;
  }

  /** For any factors at all: 1 less the variance but at least a half, and a tenth more, up to 1,
      for an extreme score; without factors one half. */
  lemma ConfidenceByVariance(values: seq<real>, impact: real)
    ensures var c, v := ConfidenceOf(values, impact), VarianceOf(values);
            if values == [] then c == 0.5
            else if 0.1 < impact < 0.9 then c == if v <= 0.5 then 1.0 - v else 0.5
            else c == if v > 0.5 then 0.6 else if v >= 0.1 then 1.1 - v else 1.0
  {
  }

  /** Confidence lies in [0.75, 1] whenever there are factors, so its floor of one half
      never acts; without an extreme score it is exactly 1 less the variance, and it is 1
      just when the factors agree; an extreme score raises it by a tenth, up to 1. */
  lemma ConfidenceRange(values: seq<real>, impact: real)
    requires InUnit(values) && values != []
    ensures 0.75 <= ConfidenceOf(values, impact) <= 1.0
    ensures 0.1 < impact < 0.9 ==> ConfidenceOf(values, impact) == 1.0 - VarianceOf(values)
    ensures 0.1 < impact < 0.9 ==> (ConfidenceOf(values, impact) == 1.0 <==> AllEqual(values))
    ensures !(0.1 < impact < 0.9) ==>
              var raised := 1.0 - VarianceOf(values) + 0.1;
              ConfidenceOf(values, impact) == if raised < 1.0 then raised else 1.0
    ensures !(0.1 < impact < 0.9) ==> (ConfidenceOf(values, impact) == 1.0 <==> VarianceOf(values) <= 0.1)
  {
    VarianceAtMostAQuarter(values);
    NoVarianceIffAgreement(values);
  }

  /** Both ends of the range are reached. */
  lemma ConfidenceEndsAreReached()
    ensures ConfidenceOf([0.0, 1.0], 0.5) == 0.75
    ensures ConfidenceOf([1.0, 1.0], 0.5) == 1.0
  {
    assert [0.0, 1.0][..1] == [0.0];
    assert Sum([0.0]) == 0.0;
    assert Mean([0.0, 1.0]) == 0.5;
    assert SumOf(SquareFrom(0.5), [0.0]) == 0.25;
    assert SumOf(SquareFrom(0.5), [0.0, 1.0]) == 0.5;
    NoVarianceIffAgreement([1.0, 1.0]);
  }

  // ----- the fallback impact score -----

  datatype Scores = Scores(semantic: real, permission: real, volume: real, context: real, drift: real)

  function Values(s: Scores): seq<real> {
    [s.semantic, s.permission, s.volume, s.context, s.drift]
  }

  const WEIGHTS: seq<real> := [0.6, 0.1, 0.05, 0.2, 0.05]

  function Weighted(values: seq<real>, weights: seq<real>): real
    requires |values| == |weights|
  {
    if values == [] then 0.0
    else Weighted(values[..|values| - 1], weights[..|weights| - 1]) + values[|values| - 1] * weights[|weights| - 1]
  }

  lemma FiveTerms(s: Scores)
    ensures Weighted(Values(s), WEIGHTS)
         == 0.6 * s.semantic + 0.1 * s.permission + 0.05 * s.volume + 0.2 * s.context + 0.05 * s.drift
  {
    assert Values(s)[..4] == [s.semantic, s.permission, s.volume, s.context] && WEIGHTS[..4] == [0.6, 0.1, 0.05, 0.2];
    assert Values(s)[..4][..3] == [s.semantic, s.permission, s.volume] && WEIGHTS[..4][..3] == [0.6, 0.1, 0.05];
    assert Values(s)[..4][..3][..2] == [s.semantic, s.permission] && WEIGHTS[..4][..3][..2] == [0.6, 0.1];
    assert Values(s)[..4][..3][..2][..1] == [s.semantic] && WEIGHTS[..4][..3][..2][..1] == [0.6];
    assert Weighted([s.semantic], [0.6]) == 0.6 * s.semantic;
    assert Weighted([s.semantic, s.permission], [0.6, 0.1]) == 0.6 * s.semantic + 0.1 * s.permission;
    assert Weighted([s.semantic, s.permission, s.volume], [0.6, 0.1, 0.05])
        == 0.6 * s.semantic + 0.1 * s.permission + 0.05 * s.volume;
    assert Weighted([s.semantic, s.permission, s.volume, s.context], [0.6, 0.1, 0.05, 0.2])
        == 0.6 * s.semantic + 0.1 * s.permission + 0.05 * s.volume + 0.2 * s.context;
  }

  /** The fallback impact score lies between the least and the greatest of its inputs,
      and reaches an end only where every input does. */
  lemma FallbackIsAConvexCombination(s: Scores, low: real, high: real)
    requires forall i :: 0 <= i < 5 ==> low <= Values(s)[i] <= high
    ensures low <= Weighted(Values(s), WEIGHTS) <= high
    ensures Weighted(Values(s), WEIGHTS) == high <==> s == Scores(high, high, high, high, high)
    ensures Weighted(Values(s), WEIGHTS) == low <==> s == Scores(low, low, low, low, low)
  {
    assert forall v :: v in Values(s) ==> low <= v <= high;
    assert s.semantic in Values(s) && s.permission in Values(s) && s.volume in Values(s)
        && s.context in Values(s) && s.drift in Values(s);
    FiveTerms(s);
  }

  // ----- the loops -----

  method AddUp(f: real -> real, values: seq<real>) returns (total: real)
    ensures total == SumOf(f, values)
  {
    total := 0.0;
    for i := 0 to |values|
      invariant total == SumOf(f, values[..i])
    {
      assert values[..i + 1][..i] == values[..i];
      total := total + f(values[i]);
    }
    assert values[..|values|] == values;
  }

  lemma {:induction false} SumIsSumOf(values: seq<real>)
    ensures SumOf(v => v, values) == Sum(values)
  {
    if values != [] {
      SumIsSumOf(values[..|values| - 1]);
    }
  }

  method CalculateVariance(values: seq<real>) returns (variance: real)
    ensures variance == VarianceOf(values)
  {
    if values == [] {
      return 0.0;
    }
    var total := AddUp(v => v, values);
    SumIsSumOf(values);
    var mean := total / |values| as real;
    var squares := AddUp(SquareFrom(mean), values);
    variance := squares / |values| as real;
  }

  method CalculateConfidence(values: seq<real>, impact: real) returns (confidence: real)
    ensures confidence == ConfidenceOf(values, impact)
    ensures InUnit(values) && values != [] ==> 0.75 <= confidence <= 1.0
  {
    if values == [] {
      return 0.5;
    }
    var variance := CalculateVariance(values);
    confidence := if 1.0 - variance > 0.5 then 1.0 - variance else 0.5;
    if impact >= 0.9 || impact <= 0.1 {
      confidence := if confidence + 0.1 < 1.0 then confidence + 0.1 else 1.0;
    }
    if InUnit(values) {
      ConfidenceRange(values, impact);
    }
  }

  /** The branch taken when the scorer raises. */
  method FallbackImpact(s: Scores) returns (impact: real)
    ensures impact == Weighted(Values(s), WEIGHTS)
  {
    impact := 0.0;
    var values := Values(s);
    for i := 0 to |values|
      invariant impact == Weighted(values[..i], WEIGHTS[..i])
    {
      assert values[..i + 1][..i] == values[..i];
      assert WEIGHTS[..i + 1][..i] == WEIGHTS[..i];
      impact := impact + values[i] * WEIGHTS[i];
    }
    assert values[..|values|] == values && WEIGHTS[..|values|] == WEIGHTS;
  }
}
