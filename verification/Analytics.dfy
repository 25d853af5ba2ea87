/** Time-weighted returns and drawdowns of a series of valuations (app/analytics/engine.py). */
module Analytics {
  import opened Wrappers
  import opened Sorting
  import opened LedgerTypes
  import Volatility

  datatype Observation = Observation(at: Instant, value: real, flow: real)

  datatype ReturnObservation = ReturnObservation(at: Instant, periodReturn: real, cumulativeReturn: real)

  datatype DrawdownObservation = DrawdownObservation(at: Instant, drawdown: real)

  datatype AnalyticsResult = AnalyticsResult(
    periods: seq<ReturnObservation>,
    drawdowns: seq<DrawdownObservation>,
    totalReturn: real,
    volatility: Option<real>,
    sharpe: Option<real>,
    maximumDrawdown: real)

  datatype AnalyticsError = NoObservations | RepeatedTimestamp | ValueNotPositive | FiguresUndefined

  predicate AtLe(a: Observation, b: Observation) {
    a.at <= b.at
  }

  predicate DistinctTimes(s: seq<Observation>) {
    forall i, j | 0 <= i < j < |s| :: s[i].at != s[j].at
  }

  predicate PositiveValues(s: seq<Observation>) {
    forall i | 0 <= i < |s| :: s[i].value > 0.0
  }

  /** The observations in time order, or why they cannot be analysed. */
  function OrderedValues(observations: seq<Observation>): (r: Result<seq<Observation>, AnalyticsError>)
    ensures r.Success? ==> r.value != [] && DistinctTimes(r.value) && PositiveValues(r.value)
  {
    var ordered := SortBy(AtLe, observations);
    if ordered == [] then Failure(NoObservations)
    else if !DistinctTimes(ordered) then Failure(RepeatedTimestamp)
    else if !PositiveValues(ordered) then Failure(ValueNotPositive)
    else Success(ordered)
  }

  /** Observations are refused when there are none, then for equal times, then for values that are not positive. */
  lemma RefusedExactly(observations: seq<Observation>)
    ensures var r := OrderedValues(observations);
            if observations == [] then r == Failure(NoObservations)
            else if exists i, j :: 0 <= i < j < |observations| && observations[i].at == observations[j].at then
              r == Failure(RepeatedTimestamp)
            else if exists o :: o in observations && o.value <= 0.0 then r == Failure(ValueNotPositive)
            else r.Success?
  {
    var ordered := SortBy(AtLe, observations);
    SortByPermutes(AtLe, observations);
    SameElements(ordered, observations);
    if DistinctTimes(ordered) {
      DistinctTimesPermute(ordered, observations);
    } else if DistinctTimes(observations) {
      DistinctTimesPermute(observations, ordered);
    }
    if o :| o in observations && o.value <= 0.0 {
      assert o in ordered;
    }
  }

  lemma DistinctTimesPermute(a: seq<Observation>, b: seq<Observation>)
    requires multiset(a) == multiset(b) && DistinctTimes(a)
    ensures DistinctTimes(b)
  {
    SameElements(a, b);
    forall i, j | 0 <= i < j < |b|
      ensures b[i].at != b[j].at
    {
      assert b[i] in a && b[j] in a;
      var x :| 0 <= x < |a| && a[x] == b[i];
      var y :| 0 <= y < |a| && a[y] == b[j];
      if x == y {
        TwoOccurrences(b, i, j);
        ObservedOnce(a, x);
      }
    }
  }

  lemma ObservedOnce(s: seq<Observation>, x: nat)
    requires x < |s| && DistinctTimes(s)
    ensures multiset(s)[s[x]] == 1
  {
    assert s == s[..x] + [s[x]] + s[x + 1..];
    assert forall k | 0 <= k < x :: s[..x][k] == s[k] && s[k].at != s[x].at;
    assert s[x] !in s[..x] && s[x] !in s[x + 1..];
  }

  /** What is analysed: the very observations, earliest first. */
  lemma OrderedInTime(observations: seq<Observation>)
    requires OrderedValues(observations).Success?
    ensures var s := OrderedValues(observations).value;
            && multiset(s) == multiset(observations)
            && forall i, j | 0 <= i < j < |s| :: s[i].at < s[j].at
  {
    var s := OrderedValues(observations).value;
    assert TotalPreorder(AtLe);
    SortBySorts(AtLe, observations);
    forall i, j | 0 <= i < j < |s|
      ensures s[i].at < s[j].at
    {
      assert AtLe(s[i], s[j]);
    }
  }

  // ---------------------------------------------------------------- the wealth index

  /** What a period multiplies wealth by: its end value without the period's external flow, over its start value. */
  function Factor(s: seq<Observation>, i: nat): real
    requires 0 < i < |s| && PositiveValues(s)
  {
    (s[i].value - s[i].flow) / s[i - 1].value
  }

  /** The cash-flow-adjusted wealth index: the product of the factors so far. */
  function Growth(s: seq<Observation>, i: nat): real
    requires i < |s| && PositiveValues(s)
  {
    if i == 0 then 1.0 else Growth(s, i - 1) * Factor(s, i)
  }

  function Wealth(s: seq<Observation>): (g: seq<real>)
    requires s != [] && PositiveValues(s)
    ensures Path(g) && |g| == |s|
  {
    seq(|s|, i requires 0 <= i < |s| => Growth(s, i))
  }

  // ---------------------------------------------------------------- drawdowns of a wealth path

  predicate Path(g: seq<real>) {
    g != [] && g[0] == 1.0
  }

  /** The running peak of a wealth path. */
  function Peak(g: seq<real>, i: nat): (peak: real)
    requires Path(g) && i < |g|
    ensures peak >= 1.0
  {
    if i == 0 then 1.0
    else
      var before := Peak(g, i - 1);
      if g[i] > before then g[i] else before
  }

  function BelowPeak(wealth: real, peak: real): real
    requires peak > 0.0
  {
    wealth / peak - 1.0
  }

  function Drawdown(g: seq<real>, i: nat): real
    requires Path(g) && i < |g|
  {
    BelowPeak(g[i], Peak(g, i))
  }

  /** The running peak is the highest wealth so far. */
  lemma {:induction false} PeakIsHighest(g: seq<real>, i: nat)
    requires Path(g) && i < |g|
    ensures exists k :: 0 <= k <= i && g[k] == Peak(g, i)
    ensures forall k | 0 <= k <= i :: g[k] <= Peak(g, i)
  {
    if i == 0 {
      assert g[0] == Peak(g, 0);
    } else {
      PeakIsHighest(g, i - 1);
      var k :| 0 <= k <= i - 1 && g[k] == Peak(g, i - 1);
      assert g[if g[i] > Peak(g, i - 1) then i else k] == Peak(g, i);
    }
  }

  ghost predicate IsLeast(s: seq<DrawdownObservation>, least: real) {
    && (exists i :: 0 <= i < |s| && s[i].drawdown == least)
    && (forall i | 0 <= i < |s| :: least <= s[i].drawdown)
  }

  method LeastDrawdown(s: seq<DrawdownObservation>) returns (least: real)
    requires s != []
    ensures IsLeast(s, least)
  {
    least := s[0].drawdown;
    var at := 0;
    for i := 1 to |s|
      invariant 0 <= at < i && s[at].drawdown == least
      invariant forall j | 0 <= j < i :: least <= s[j].drawdown
    {
      if s[i].drawdown < least {
        least, at := s[i].drawdown, i;
      }
    }
  }

  ghost predicate ReturnsOf(s: seq<Observation>, g: seq<real>, n: nat, periods: seq<ReturnObservation>)
    requires 0 < n <= |s| == |g| && PositiveValues(s)
  {
    && |periods| == n - 1
    && forall i | 0 <= i < n - 1 :: ReturnAt(s, g, i + 1, periods[i])
  }

  predicate ReturnAt(s: seq<Observation>, g: seq<real>, i: nat, r: ReturnObservation)
    requires 0 < i < |s| == |g| && PositiveValues(s)
  {
    r.at == s[i].at && r.periodReturn == Factor(s, i) - 1.0 && r.cumulativeReturn == g[i] - 1.0
  }

  lemma ReturnsExtend(s: seq<Observation>, g: seq<real>, n: nat, periods: seq<ReturnObservation>, r: ReturnObservation)
    requires 0 < n < |s| == |g| && PositiveValues(s) && ReturnsOf(s, g, n, periods) && ReturnAt(s, g, n, r)
    ensures ReturnsOf(s, g, n + 1, periods + [r])
  {
  }

  ghost predicate DrawdownsOf(s: seq<Observation>, g: seq<real>, n: nat, drawdowns: seq<DrawdownObservation>)
    requires n <= |s| == |g| && Path(g)
  {
    && |drawdowns| == n
    && forall i | 0 <= i < n :: drawdowns[i] == DrawdownObservation(s[i].at, Drawdown(g, i))
  }

  lemma DrawdownsExtend(s: seq<Observation>, g: seq<real>, n: nat, drawdowns: seq<DrawdownObservation>,
      d: DrawdownObservation)
    requires n < |s| == |g| && Path(g) && DrawdownsOf(s, g, n, drawdowns)
    requires d == DrawdownObservation(s[n].at, Drawdown(g, n))
    ensures DrawdownsOf(s, g, n + 1, drawdowns + [d])
  {
  }

  function Compounded(growth: real, periodReturn: real): real {
    growth * (1.0 + periodReturn)
  }

  lemma NextWealth(s: seq<Observation>, i: nat, growth: real, periodReturn: real)
    requires 0 < i < |s| && PositiveValues(s) && growth == Wealth(s)[i - 1]
    requires periodReturn == (s[i].value - s[i].flow) / s[i - 1].value - 1.0
    ensures periodReturn == Factor(s, i) - 1.0
    ensures Compounded(growth, periodReturn) == Wealth(s)[i]
  {
    assert 1.0 + periodReturn == Factor(s, i);
  }

  /** One period: its return, the wealth index after it, and the peak after it. */
  method RunPeriod(s: seq<Observation>, i: nat, growth: real, peak: real)
    returns (periodReturn: real, growth': real, peak': real)
    requires 0 < i < |s| && PositiveValues(s)
    requires growth == Wealth(s)[i - 1] && peak == Peak(Wealth(s), i - 1)
    ensures periodReturn == Factor(s, i) - 1.0 && growth' == Wealth(s)[i] && peak' == Peak(Wealth(s), i)
  {
    periodReturn := (s[i].value - s[i].flow) / s[i - 1].value - 1.0;
    NextWealth(s, i, growth, periodReturn);
    growth' := Compounded(growth, periodReturn);
    peak' := peak;
    if growth' > peak {
      peak' := growth';
    }
  }

  /** The period returns of a series. */
  function Returns(s: seq<Observation>): seq<real>
    requires PositiveValues(s)
  {
    seq(if s == [] then 0 else |s| - 1, i requires 0 <= i < |s| - 1 => Factor(s, i + 1) - 1.0)
  }

  function Series(periods: seq<ReturnObservation>): seq<real> {
    seq(|periods|, i requires 0 <= i < |periods| => periods[i].periodReturn)
  }

  lemma SeriesIsReturns(s: seq<Observation>, g: seq<real>, periods: seq<ReturnObservation>)
    requires 0 < |s| == |g| && PositiveValues(s) && ReturnsOf(s, g, |s|, periods)
    ensures Series(periods) == Returns(s)
  {
    assert forall i | 0 <= i < |periods| :: ReturnAt(s, g, i + 1, periods[i]);
  }

  /** How the caller annualizes: periods per year, annual risk-free rate, and the square root it takes. */
  datatype Annualizing = Annualizing(periods: int, riskFree: real, root: real -> real)

  function FiguresOf(s: seq<Observation>, a: Annualizing): Volatility.Figures
    requires PositiveValues(s)
  {
    Volatility.AnnualFigures(Returns(s), a.periods, a.riskFree, a.root)
  }

  /** What an analysis of a series says: every return, every drawdown, the total, the worst, and the risk figures. */
  ghost predicate IsAnalysis(s: seq<Observation>, a: Annualizing, r: AnalyticsResult)
    requires s != [] && PositiveValues(s)
  {
    && FiguresOf(s, a) == Volatility.Figures(r.volatility, r.sharpe)
    && ReturnsOf(s, Wealth(s), |s|, r.periods)
    && DrawdownsOf(s, Wealth(s), |s|, r.drawdowns)
    && r.totalReturn == Wealth(s)[|s| - 1] - 1.0
    && IsLeast(r.drawdowns, r.maximumDrawdown)
  }

  /** One pass over the ordered observations, carrying the wealth index and its running peak. */
  method RunSeries(s: seq<Observation>, a: Annualizing) returns (r: Result<AnalyticsResult, AnalyticsError>)
    requires s != [] && PositiveValues(s)
    ensures FiguresOf(s, a).Undefined? ==> r == Failure(FiguresUndefined)
    ensures FiguresOf(s, a).Figures? ==> r.Success? && IsAnalysis(s, a, r.value)
  {
    ghost var g := Wealth(s);
    var periods: seq<ReturnObservation> := [];
    var growth, peak := 1.0, 1.0;
    var drawdowns := [DrawdownObservation(s[0].at, 0.0)];
    for i := 1 to |s|
      invariant growth == g[i - 1]
      invariant peak == Peak(g, i - 1)
      invariant ReturnsOf(s, g, i, periods)
      invariant DrawdownsOf(s, g, i, drawdowns)
    {
      var periodReturn;
      periodReturn, growth, peak := RunPeriod(s, i, growth, peak);
      ReturnsExtend(s, g, i, periods, ReturnObservation(s[i].at, periodReturn, growth - 1.0));
      periods := periods + [ReturnObservation(s[i].at, periodReturn, growth - 1.0)];
      DrawdownsExtend(s, g, i, drawdowns, DrawdownObservation(s[i].at, BelowPeak(growth, peak)));
      drawdowns := drawdowns + [DrawdownObservation(s[i].at, BelowPeak(growth, peak))];
    }
    SeriesIsReturns(s, g, periods);
    var figures := Volatility.AnnualFigures(Series(periods), a.periods, a.riskFree, a.root);
    if figures.Undefined? {
      return Failure(FiguresUndefined);
    }
    var least := LeastDrawdown(drawdowns);
    return Success(AnalyticsResult(periods, drawdowns, growth - 1.0, figures.volatility, figures.sharpe, least));
  }

  /** `AnalyticsEngine.analyze`. */
  method RunAnalyze(observations: seq<Observation>, a: Annualizing)
    returns (r: Result<AnalyticsResult, AnalyticsError>)
    ensures OrderedValues(observations).Failure? ==> r == Failure(OrderedValues(observations).error)
    ensures OrderedValues(observations).Success? ==>
              var s := OrderedValues(observations).value;
              && (FiguresOf(s, a).Undefined? ==> r == Failure(FiguresUndefined))
              && (FiguresOf(s, a).Figures? ==> r.Success? && IsAnalysis(s, a, r.value))
  {
    var s :- OrderedValues(observations);
    r := RunSeries(s, a);
  }

  // ---------------------------------------------------------------- the all-pairs definition

  lemma {:induction false} GrowthIsPositive(s: seq<Observation>, i: nat)
    requires i < |s| && PositiveValues(s)
    requires forall k | 0 < k <= i :: s[k].value - s[k].flow > 0.0
    ensures Growth(s, i) > 0.0
  {
    if i == 0 {
    } else {
      GrowthIsPositive(s, i - 1);
      PositiveProduct(Growth(s, i - 1), s[i].value - s[i].flow, s[i - 1].value);
    }
  }

  lemma PositiveProduct(a: real, b: real, c: real)
    requires a > 0.0 && b > 0.0 && c > 0.0
    ensures a * (b / c) > 0.0
  {
    assert b / c > 0.0;
  }

  lemma LargerPeakDeeperFall(w: real, a: real, peak: real)
    requires w > 0.0 && 0.0 < a <= peak
    ensures w / peak <= w / a
  {
    var x := w / peak;
    assert x * a <= x * peak;
    DivideMonotone(x * a, w, a);
  }

  lemma DivideMonotone(x: real, y: real, a: real)
    requires x <= y && a > 0.0
    ensures x / a <= y / a
  {
  }

  /** From observation `i` to a later `j`, wealth changed by this fraction. */
  function Fall(g: seq<real>, i: nat, j: nat): real
    requires i <= j < |g| && g[i] > 0.0
  {
    g[j] / g[i] - 1.0
  }

  /** `least` is the worst fall between any two observations. */
  ghost predicate IsWorstFall(g: seq<real>, least: real)
    requires forall i | 0 <= i < |g| :: g[i] > 0.0
  {
    && (exists i, j :: 0 <= i <= j < |g| && Fall(g, i, j) == least)
    && (forall i, j | 0 <= i <= j < |g| :: least <= Fall(g, i, j))
  }

  lemma NoFallIsWorse(g: seq<real>, i: nat, j: nat)
    requires Path(g) && i <= j < |g| && g[i] > 0.0 && g[j] > 0.0
    ensures Drawdown(g, j) <= Fall(g, i, j)
  {
    PeakIsHighest(g, j);
    LargerPeakDeeperFall(g[j], g[i], Peak(g, j));
  }

  lemma DrawdownIsAFall(g: seq<real>, j: nat) returns (i: nat)
    requires Path(g) && j < |g|
    ensures i <= j && g[i] > 0.0 && Fall(g, i, j) == Drawdown(g, j)
  {
    PeakIsHighest(g, j);
    i :| 0 <= i <= j && g[i] == Peak(g, j);
  }

  /** On a positive wealth path the least running-peak drawdown is the worst fall over all pairs. */
  lemma LeastDrawdownIsWorstFall(s: seq<Observation>, g: seq<real>, drawdowns: seq<DrawdownObservation>, least: real)
    requires |s| == |g| && Path(g) && forall i | 0 <= i < |g| :: g[i] > 0.0
    requires DrawdownsOf(s, g, |s|, drawdowns) && IsLeast(drawdowns, least)
    ensures IsWorstFall(g, least)
  {
    var j :| 0 <= j < |drawdowns| && drawdowns[j].drawdown == least;
    var i := DrawdownIsAFall(g, j);
    assert Fall(g, i, j) == least;
    forall a, b | 0 <= a <= b < |g|
      ensures least <= Fall(g, a, b)
    {
      NoFallIsWorse(g, a, b);
      assert drawdowns[b].drawdown == Drawdown(g, b);
    }
  }

  /** So it is for every series in which no period's external flow is as large as its end value. */
  lemma MaximumDrawdownIsWorstFall(s: seq<Observation>, drawdowns: seq<DrawdownObservation>, least: real)
    requires s != [] && PositiveValues(s) && forall k | 0 < k < |s| :: s[k].value - s[k].flow > 0.0
    requires DrawdownsOf(s, Wealth(s), |s|, drawdowns) && IsLeast(drawdowns, least)
    ensures forall i | 0 <= i < |s| :: Wealth(s)[i] > 0.0
    ensures IsWorstFall(Wealth(s), least)
  {
    forall i | 0 <= i < |s|
      ensures Wealth(s)[i] > 0.0
    {
      GrowthIsPositive(s, i);
    }
    LeastDrawdownIsWorstFall(s, Wealth(s), drawdowns, least);
  }

  // Values 100, 50 and 25, with a contribution of 50 in the last period.
  const LOSING := [Observation(1, 100.0, 0.0), Observation(2, 50.0, 0.0), Observation(3, 25.0, 50.0)]

  lemma LosingWealth()
    ensures PositiveValues(LOSING) && Wealth(LOSING) == [1.0, 0.5, -0.25]
  {
    assert Growth(LOSING, 0) == 1.0;
    assert Factor(LOSING, 1) == 0.5 && Growth(LOSING, 1) == 0.5;
    assert Factor(LOSING, 2) == -0.5 && Growth(LOSING, 2) == -0.25;
  }

  lemma LosingDrawdowns(g: seq<real>)
    requires g == [1.0, 0.5, -0.25]
    ensures Drawdown(g, 0) == 0.0 && Drawdown(g, 1) == -0.5 && Drawdown(g, 2) == -1.25
    ensures Fall(g, 1, 2) == -1.5
  {
    assert Peak(g, 0) == 1.0 && Peak(g, 1) == 1.0 && Peak(g, 2) == 1.0;
  }

  /**
   * Where a flow exceeds its period's end value the two can differ: these accepted observations have a maximum
   * drawdown of -1.25, measured from the peak, while from the second to the third wealth falls by -1.5.
   */
  lemma WorstFallNeedsPositiveWealth(drawdowns: seq<DrawdownObservation>, least: real)
    requires PositiveValues(LOSING) && DrawdownsOf(LOSING, Wealth(LOSING), 3, drawdowns) && IsLeast(drawdowns, least)
    ensures DistinctTimes(LOSING) && SortBy(AtLe, LOSING) == LOSING
    ensures least == -1.25
    ensures Wealth(LOSING)[1] > 0.0 && Fall(Wealth(LOSING), 1, 2) == -1.5
  {
    LosingWealth();
    LosingDrawdowns(Wealth(LOSING));
    SortOfSorted(AtLe, LOSING);
    assert drawdowns[2].drawdown == -1.25;
  }

  // ---------------------------------------------------------------- total return

  /** The share of a period's end value that its flow did not bring. */
  function Kept(s: seq<Observation>, i: nat): real
    requires i < |s| && PositiveValues(s)
  {
    (s[i].value - s[i].flow) / s[i].value
  }

  function Retained(s: seq<Observation>, i: nat): real
    requires i < |s| && PositiveValues(s)
  {
    if i == 0 then 1.0 else Retained(s, i - 1) * Kept(s, i)
  }

  lemma TelescopeStep(g: real, r: real, first: real, before: real, now: real, net: real, factor: real, kept: real)
    requires before > 0.0 && now > 0.0 && g * first == before * r
    requires factor == net / before && kept == net / now
    ensures g * factor * first == now * (r * kept)
  {
    assert factor * before == net && kept * now == net;
    assert g * factor * first == factor * (before * r);
    assert factor * (before * r) == r * net;
  }

  predicate Balances(growth: real, first: real, now: real, retained: real) {
    growth * first == now * retained
  }

  /** Wealth times the first value is the present value less what external flows brought. */
  predicate TelescopesAt(s: seq<Observation>, i: nat)
    requires i < |s| && PositiveValues(s)
  {
    Balances(Growth(s, i), s[0].value, s[i].value, Retained(s, i))
  }

  lemma TelescopeNext(s: seq<Observation>, i: nat)
    requires 0 < i < |s| && PositiveValues(s) && TelescopesAt(s, i - 1)
    ensures TelescopesAt(s, i)
  {
    TelescopeStep(Growth(s, i - 1), Retained(s, i - 1), s[0].value, s[i - 1].value, s[i].value, s[i].value - s[i].flow,
                  Factor(s, i), Kept(s, i));
  }

  lemma {:induction false} Telescopes(s: seq<Observation>, i: nat)
    requires i < |s| && PositiveValues(s)
    ensures TelescopesAt(s, i)
  {
    if i == 0 {
    } else {
      Telescopes(s, i - 1);
      TelescopeNext(s, i);
    }
  }

  /** The ratio of end to start value times the share retained. */
  function Regrown(now: real, first: real, retained: real): real
    requires first > 0.0
  {
    now / first * retained
  }

  lemma DivideOut(growth: real, first: real, now: real, retained: real)
    requires first > 0.0 && Balances(growth, first, now, retained)
    ensures growth == Regrown(now, first, retained)
  {
    var b := now / first;
    assert b * first == now;
    assert (growth - b * retained) * first == 0.0;
  }

  /** Wealth grew by the ratio of end to start value, less what external flows brought. */
  lemma GrowthTelescopes(s: seq<Observation>, i: nat)
    requires i < |s| && PositiveValues(s)
    ensures Growth(s, i) == Regrown(s[i].value, s[0].value, Retained(s, i))
  {
    Telescopes(s, i);
    DivideOut(Growth(s, i), s[0].value, s[i].value, Retained(s, i));
  }

  lemma {:induction false} NothingBrought(s: seq<Observation>, i: nat)
    requires i < |s| && PositiveValues(s) && forall k | 0 < k <= i :: s[k].flow == 0.0
    ensures Retained(s, i) == 1.0
  {
    if i == 0 {
    } else {
      NothingBrought(s, i - 1);
      assert Kept(s, i) == 1.0;
    }
  }

  /** Without external flows, total return is the last value over the first, minus one. */
  lemma TotalReturnWithoutFlows(s: seq<Observation>)
    requires s != [] && PositiveValues(s) && forall k | 0 < k < |s| :: s[k].flow == 0.0
    ensures Wealth(s)[|s| - 1] - 1.0 == s[|s| - 1].value / s[0].value - 1.0
  {
    GrowthTelescopes(s, |s| - 1);
    NothingBrought(s, |s| - 1);
  }

  /**
   * `t` is `s` with a contribution (or withdrawal) at observation `k` that is invested like the rest:
   * every later value and flow is scaled, and the flow at `k` accounts for the jump.
   */
  ghost predicate Scaled(s: seq<Observation>, t: seq<Observation>, k: nat, scale: real) {
    && |s| == |t| && scale > 0.0
    && (forall i | 0 <= i < |s| :: t[i].at == s[i].at)
    && (forall i | 0 <= i < |s| :: t[i].value == if i < k then s[i].value else scale * s[i].value)
    && (forall i | 0 <= i < |s| ::
          t[i].value - t[i].flow ==
          if i <= k then s[i].value - s[i].flow else scale * (s[i].value - s[i].flow))
  }

  lemma ScaledRatio(scale: real, a: real, b: real)
    requires scale > 0.0 && b > 0.0
    ensures scale * b > 0.0 && scale * a / (scale * b) == a / b
  {
    var x := a / b;
    assert x * b == a;
    assert x * (scale * b) == scale * a;
  }

  lemma SameFactor(s: seq<Observation>, t: seq<Observation>, k: nat, scale: real, i: nat)
    requires PositiveValues(s) && PositiveValues(t) && Scaled(s, t, k, scale) && 0 < i < |s|
    ensures Factor(t, i) == Factor(s, i)
  {
    if i > k {
      ScaledRatio(scale, s[i].value - s[i].flow, s[i - 1].value);
    }
  }

  /** An external flow moves neither the wealth index nor, with it, any peak or drawdown. */
  lemma {:induction false} FlowsDoNotMoveWealth(s: seq<Observation>, t: seq<Observation>, k: nat, scale: real, i: nat)
    requires PositiveValues(s) && PositiveValues(t) && Scaled(s, t, k, scale) && i < |s|
    ensures Growth(t, i) == Growth(s, i)
  {
    if i == 0 {
    } else {
      FlowsDoNotMoveWealth(s, t, k, scale, i - 1);
      SameFactor(s, t, k, scale, i);
    }
  }

  lemma FlowsDoNotMoveDrawdowns(s: seq<Observation>, t: seq<Observation>, k: nat, scale: real)
    requires s != [] && PositiveValues(s) && PositiveValues(t) && Scaled(s, t, k, scale)
    ensures Wealth(t) == Wealth(s)
  {
    forall i | 0 <= i < |s|
      ensures Wealth(t)[i] == Wealth(s)[i]
    {
      FlowsDoNotMoveWealth(s, t, k, scale, i);
    }
  }

  /** The order in which observations arrive does not matter. */
  lemma ArrivalDoesNotMatter(a: seq<Observation>, b: seq<Observation>)
    requires multiset(a) == multiset(b) && OrderedValues(a).Success?
    ensures OrderedValues(b) == OrderedValues(a)
  {
    assert TotalPreorder(AtLe);
    SortBySorts(AtLe, a);
    SortBySorts(AtLe, b);
    var ordered := SortBy(AtLe, a);
    assert DistinctKeys(AtLe, ordered);
    SortedUnique(AtLe, ordered, SortBy(AtLe, b));
  }

  // ---------------------------------------------------------------- compounding

  function Product(periods: seq<real>): real {
    if periods == [] then 1.0 else Compounded(Product(periods[..|periods| - 1]), periods[|periods| - 1])
  }

  method RunCompound(periods: seq<real>) returns (total: real)
    ensures total == Product(periods) - 1.0
  {
    var growth := 1.0;
    for i := 0 to |periods|
      invariant growth == Product(periods[..i])
    {
      growth := Compounded(growth, periods[i]);
      assert periods[..i + 1][..i] == periods[..i];
    }
    assert periods[..|periods|] == periods;
    return growth - 1.0;
  }

  function PeriodReturns(periods: seq<ReturnObservation>): seq<real> {
    seq(|periods|, i requires 0 <= i < |periods| => periods[i].periodReturn)
  }

  /** Compounding the period returns of an analysis gives back its cumulative returns. */
  lemma {:induction false} CompoundingIsCumulative(s: seq<Observation>, n: nat, periods: seq<ReturnObservation>)
    requires 0 < n <= |s| && PositiveValues(s) && ReturnsOf(s, Wealth(s), n, periods)
    ensures Product(PeriodReturns(periods)) == Growth(s, n - 1)
    decreases n
  {
    if n > 1 {
      var front := periods[..|periods| - 1];
      assert ReturnAt(s, Wealth(s), n - 1, periods[n - 2]);
      CompoundingIsCumulative(s, n - 1, front);
      assert PeriodReturns(periods)[..|periods| - 1] == PeriodReturns(front);
    }
  }
}
