/** Volatility and Sharpe ratio of a series of period returns (app/analytics/engine.py). */
module Volatility {
  import opened Wrappers
  import opened Sums

  /** The square root is taken by the caller's decimal arithmetic. */
  ghost predicate IsRoot(root: real -> real) {
    forall x | x >= 0.0 :: root(x) >= 0.0 && Square(root(x)) == x
  }

  function Square(x: real): real {
    x * x
  }

  function Mean(values: seq<real>): real
    requires values != []
  {
    Sum(values) / |values| as real
  }

  function SquaredFrom(average: real): real -> real {
    (x: real) => Square(x - average)
  }

  function Variance(values: seq<real>): real
    requires |values| >= 2
  {
    SumBy(values, SquaredFrom(Mean(values))) / (|values| - 1) as real
  }

  /** Sample standard deviation; none for fewer than two returns. */
  function Deviation(values: seq<real>, root: real -> real): Option<real> {
    if |values| < 2 then None else Some(root(Variance(values)))
  }

  datatype Figures = Undefined | Figures(volatility: Option<real>, sharpe: Option<real>)

  /** Mean return above the risk-free rate, both per period. */
  function Excess(values: seq<real>, periods: int, riskFree: real): real
    requires values != [] && periods != 0
  {
    Mean(values) - riskFree / periods as real
  }

  function SharpeRatio(excess: real, annual: real, deviation: real): real
    requires deviation != 0.0
  {
    excess * annual / deviation
  }

  /** Both figures annualized; a negative number of periods has no root, and none has no risk-free rate per period. */
  function AnnualFigures(values: seq<real>, periods: int, riskFree: real, root: real -> real): Figures {
    var deviation := Deviation(values, root);
    if deviation.None? then Figures(None, None)
    else if periods < 0 then Undefined
    else
      var annual := root(periods as real);
      if deviation.value == 0.0 then Figures(Some(deviation.value * annual), None)
      else if periods == 0 then Undefined
      else Figures(Some(deviation.value * annual),
                   Some(SharpeRatio(Excess(values, periods, riskFree), annual, deviation.value)))
  }

  // ---------------------------------------------------------------- when a series varies

  predicate Steady(values: seq<real>) {
    forall i, j | 0 <= i < j < |values| :: values[i] == values[j]
  }

  lemma SameSigns(x: real, y: real, product: real)
    requires product == x * y
    requires (x < 0.0 && y < 0.0) || (x > 0.0 && y > 0.0)
    ensures product > 0.0
  {
  }

  lemma SquareSign(x: real)
    ensures Square(x) >= 0.0
    ensures Square(x) == 0.0 <==> x == 0.0
  {
    if x != 0.0 {
      SameSigns(x, x, Square(x));
    }
  }

  lemma {:induction false} SquaresVanish(values: seq<real>, average: real)
    ensures SumBy(values, SquaredFrom(average)) >= 0.0
    ensures SumBy(values, SquaredFrom(average)) == 0.0 <==> forall i | 0 <= i < |values| :: values[i] == average
  {
    if values == [] {
    } else {
      var front, last := values[..|values| - 1], values[|values| - 1];
      assert values == front + [last];
      SquaresVanish(front, average);
      SquareSign(last - average);
      assert SquaredFrom(average)(last) == Square(last - average);
      assert forall i | 0 <= i < |front| :: values[i] == front[i];
    }
  }

  lemma {:induction false} SumOfSteady(values: seq<real>, x: real)
    requires forall i | 0 <= i < |values| :: values[i] == x
    ensures Sum(values) == |values| as real * x
  {
    if values == [] {
    } else {
      SumOfSteady(values[..|values| - 1], x);
    }
  }

  lemma MeanOfSteady(values: seq<real>, x: real)
    requires values != [] && forall i | 0 <= i < |values| :: values[i] == x
    ensures Mean(values) == x
  {
    SumOfSteady(values, x);
  }

  /** The variance is never negative, and zero exactly when all returns are the same. */
  lemma VarianceZeroExactly(values: seq<real>)
    requires |values| >= 2
    ensures Variance(values) >= 0.0
    ensures Variance(values) == 0.0 <==> Steady(values)
  {
    SquaresVanish(values, Mean(values));
    if Steady(values) {
      assert forall i | 0 <= i < |values| :: values[i] == values[0];
      MeanOfSteady(values, values[0]);
    }
  }

  lemma DeviationZeroExactly(values: seq<real>, root: real -> real)
    requires |values| >= 2 && IsRoot(root)
    ensures Deviation(values, root).value >= 0.0
    ensures Square(Deviation(values, root).value) == Variance(values)
    ensures Deviation(values, root).value == 0.0 <==> Steady(values)
  {
    VarianceZeroExactly(values);
    SquareSign(root(Variance(values)));
  }

  // ---------------------------------------------------------------- the variance from sums

  function Squared(): real -> real {
    (x: real) => Square(x)
  }

  /** A sum of squared distances from `m`, in terms of the squares, the sum and the count. */
  predicate Spreads(spread: real, squares: real, sum: real, count: real, m: real) {
    spread == squares - 2.0 * m * sum + count * (m * m)
  }

  lemma SpreadStep(spread: real, squares: real, sum: real, count: real, m: real, x: real)
    requires Spreads(spread, squares, sum, count, m)
    ensures Spreads(spread + Square(x - m), squares + Square(x), sum + x, count + 1.0, m)
  {
    assert Square(x - m) == Square(x) - 2.0 * m * x + m * m;
    assert 2.0 * m * (sum + x) == 2.0 * m * sum + 2.0 * m * x;
    assert (count + 1.0) * (m * m) == count * (m * m) + m * m;
  }

  lemma {:induction false} SpreadFromSums(values: seq<real>, m: real)
    ensures Spreads(SumBy(values, SquaredFrom(m)), SumBy(values, Squared()), Sum(values), |values| as real, m)
  {
    if values == [] {
    } else {
      var front, x := values[..|values| - 1], values[|values| - 1];
      SpreadFromSums(front, m);
      SpreadStep(SumBy(front, SquaredFrom(m)), SumBy(front, Squared()), Sum(front), |front| as real, m, x);
      assert |values| as real == |front| as real + 1.0;
    }
  }

  lemma SpreadAroundMean(spread: real, squares: real, sum: real, n: real, m: real)
    requires m * n == sum && Spreads(spread, squares, sum, n, m)
    ensures n * spread == n * squares - Square(sum)
  {
    assert n * (2.0 * m * sum) == 2.0 * (m * n) * sum;
    assert n * (n * (m * m)) == (m * n) * (m * n);
    assert n * spread == n * squares - n * (2.0 * m * sum) + n * (n * (m * m));
  }

  lemma DividedBack(x: real, y: real)
    requires y != 0.0
    ensures x / y * y == x
  {
  }

  /** `variance` is the sample variance of `n` numbers with that sum and sum of squares. */
  predicate IsSampleVariance(variance: real, n: real, squares: real, sum: real) {
    (n - 1.0) * n * variance == n * squares - sum * sum
  }

  lemma VarianceOfSpread(variance: real, spread: real, squares: real, sum: real, n: real, m: real)
    requires n > 1.0 && variance == spread / (n - 1.0) && m == sum / n && Spreads(spread, squares, sum, n, m)
    ensures IsSampleVariance(variance, n, squares, sum)
  {
    DividedBack(sum, n);
    SpreadAroundMean(spread, squares, sum, n, m);
    DividedBack(spread, n - 1.0);
    assert (n - 1.0) * n * variance == n * (variance * (n - 1.0));
  }

  /** The sample variance from the returns and their squares: its divisor is one less than their number. */
  lemma VarianceFromSums(values: seq<real>)
    requires |values| >= 2
    ensures IsSampleVariance(Variance(values), |values| as real, SumBy(values, Squared()), Sum(values))
  {
    SpreadFromSums(values, Mean(values));
    VarianceOfSpread(Variance(values), SumBy(values, SquaredFrom(Mean(values))), SumBy(values, Squared()),
                     Sum(values), |values| as real, Mean(values));
  }

  // ---------------------------------------------------------------- what the figures mean

  /** Where the figures are undefined, and which of them exist. */
  lemma FiguresDefinedExactly(values: seq<real>, periods: int, riskFree: real, root: real -> real)
    requires IsRoot(root)
    ensures var f := AnnualFigures(values, periods, riskFree, root);
            && (f.Undefined? <==> |values| >= 2 && (periods < 0 || (periods == 0 && !Steady(values))))
            && (f.Figures? ==>
                  && (f.volatility.Some? <==> |values| >= 2)
                  && (f.sharpe.Some? <==> |values| >= 2 && !Steady(values)))
  {
    if |values| >= 2 {
      DeviationZeroExactly(values, root);
    }
  }

  lemma SquareOfProduct(x: real, y: real)
    ensures Square(x * y) == Square(x) * Square(y)
  {
  }

  lemma ProductSign(x: real, y: real)
    requires x >= 0.0 && y >= 0.0
    ensures x * y >= 0.0
    ensures x * y == 0.0 <==> x == 0.0 || y == 0.0
  {
  }

  /** Squared volatility is the variance per year, so it is zero exactly for a steady series or an empty year. */
  lemma VolatilityIsAnnualVariance(values: seq<real>, periods: int, riskFree: real, root: real -> real)
    requires IsRoot(root) && AnnualFigures(values, periods, riskFree, root).Figures? && |values| >= 2
    ensures var v := AnnualFigures(values, periods, riskFree, root).volatility;
            && v.Some? && v.value >= 0.0
            && Square(v.value) == Variance(values) * periods as real
            && (v.value == 0.0 <==> Steady(values) || periods == 0)
  {
    var deviation, annual := root(Variance(values)), root(periods as real);
    DeviationZeroExactly(values, root);
    SquareSign(annual);
    SquareOfProduct(deviation, annual);
    ProductSign(deviation, annual);
  }

  lemma RatioTimesRisk(excess: real, annual: real, deviation: real)
    requires deviation > 0.0 && annual > 0.0
    ensures SharpeRatio(excess, annual, deviation) * (deviation * annual) == excess * Square(annual)
    ensures SharpeRatio(excess, annual, deviation) > 0.0 <==> excess > 0.0
  {
    var ratio := SharpeRatio(excess, annual, deviation);
    assert ratio * deviation == excess * annual;
    assert ratio * (deviation * annual) == (ratio * deviation) * annual;
    assert excess > 0.0 <==> excess * annual > 0.0;
    assert ratio > 0.0 <==> ratio * deviation > 0.0;
  }

  /** The Sharpe ratio times the volatility is the yearly excess return, and it is positive when that is. */
  lemma SharpeIsExcessPerRisk(values: seq<real>, periods: int, riskFree: real, root: real -> real)
    requires IsRoot(root) && AnnualFigures(values, periods, riskFree, root).Figures?
    requires AnnualFigures(values, periods, riskFree, root).sharpe.Some?
    ensures var f := AnnualFigures(values, periods, riskFree, root);
            && periods > 0 && values != [] && f.volatility.Some?
            && f.sharpe.value * f.volatility.value ==
               (Mean(values) - riskFree / periods as real) * periods as real
            && (f.sharpe.value > 0.0 <==> Mean(values) > riskFree / periods as real)
  {
    var deviation, annual := root(Variance(values)), root(periods as real);
    DeviationZeroExactly(values, root);
    SquareSign(annual);
    RatioTimesRisk(Excess(values, periods, riskFree), annual, deviation);
  }
}
