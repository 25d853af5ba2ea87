/** Historical value at risk and expected shortfall (app/risk/engine.py). */
module Risk {
  import opened Wrappers
  import opened Sorting
  import opened Sums
  import opened Determinism

  datatype RiskError =
    | NoReturns
    | ValueNotPositive
    | ConfidenceOutOfRange
    | BenchmarkNotAligned
    | DivisionUndefined

  datatype RiskResult = RiskResult(
    observations: nat,
    confidence: real,
    valueAtRisk: real,
    shortfall: real,
    valueAtRiskAmount: real,
    shortfallAmount: real)

  predicate RealLe(a: real, b: real) {
    a <= b
  }

  function Losses(returned: seq<real>): (l: seq<real>)
    ensures |l| == |returned|
  {
    if returned == [] then [] else Losses(returned[..|returned| - 1]) + [-returned[|returned| - 1]]
  }

  /** Rounding up to a whole number. */
  function Ceiling(x: real): int {
    -((-x).Floor)
  }

  function RankOf(confidence: real, n: nat): int {
    Ceiling(confidence * n as real)
  }

  function Max(a: real, b: real): real {
    if a >= b then a else b
  }

  function AtLeast(v: real): real -> bool {
    (x: real) => x >= v
  }

  function AtMost(v: real): real -> bool {
    (x: real) => x <= v
  }

  lemma RankInBounds(confidence: real, n: nat)
    requires 0.0 < confidence < 1.0 && n > 0
    ensures 1 <= RankOf(confidence, n) <= n
    ensures confidence * n as real <= RankOf(confidence, n) as real < confidence * n as real + 1.0
  {
    var x := confidence * n as real;
    assert x > 0.0;
    assert x < n as real;
  }

  /** The nearest-rank loss, clamped at zero. */
  function ValueAtRisk(losses: seq<real>, confidence: real): real
    requires 0.0 < confidence < 1.0 && losses != []
  {
    var rank := RankOf(confidence, |losses|);
    RankInBounds(confidence, |losses|);
    Max(0.0, losses[if rank - 1 > 0 then rank - 1 else 0])
  }

  function Tail(losses: seq<real>, v: real): seq<real> {
    Filter(AtLeast(v), losses)
  }

  function Shortfall(losses: seq<real>, v: real): real
    requires Tail(losses, v) != []
  {
    Max(0.0, Sum(Tail(losses, v)) / |Tail(losses, v)| as real)
  }

  /** Value at risk with its expected shortfall; none when no loss reaches the threshold. */
  function Figures(losses: seq<real>, confidence: real): Option<(real, real)>
    requires 0.0 < confidence < 1.0 && losses != []
  {
    var v := ValueAtRisk(losses, confidence);
    if Tail(losses, v) == [] then None else Some((v, Shortfall(losses, v)))
  }

  predicate InputAccepted(returned: seq<real>, benchmark: seq<real>, value: real, confidence: real) {
    && returned != []
    && value > 0.0
    && 0.0 < confidence < 1.0
    && (benchmark == [] || |benchmark| == |returned|)
  }

  function InputError(returned: seq<real>, value: real, confidence: real): RiskError {
    if returned == [] then NoReturns
    else if value <= 0.0 then ValueNotPositive
    else if !(0.0 < confidence < 1.0) then ConfidenceOutOfRange
    else BenchmarkNotAligned
  }

  function Calculate(returned: seq<real>, benchmark: seq<real>, value: real, confidence: real)
    : Result<RiskResult, RiskError>
  {
    if !InputAccepted(returned, benchmark, value, confidence) then Failure(InputError(returned, value, confidence))
    else Report(|returned|, Figures(SortedLosses(returned), confidence), value, confidence)
  }

  /** Scale the figures to amounts; without figures the source's division has no defined result. */
  function Report(n: nat, f: Option<(real, real)>, value: real, confidence: real): Result<RiskResult, RiskError> {
    if f.None? then Failure(DivisionUndefined)
    else Success(RiskResult(n, confidence, f.value.0, f.value.1, value * f.value.0, value * f.value.1))
  }

  function SortedLosses(returned: seq<real>): (l: seq<real>)
    ensures |l| == |returned| && Sorted(RealLe, l) && multiset(l) == multiset(Losses(returned))
  {
    SortBySorts(RealLe, Losses(returned));
    SameElements(SortBy(RealLe, Losses(returned)), Losses(returned));
    SortBy(RealLe, Losses(returned))
  }

  // ---------------------------------------------------------------- when the shortfall is defined

  lemma {:induction false} LossesMembers(returned: seq<real>)
    ensures forall x :: x in Losses(returned) <==> -x in returned
  {
    if returned == [] {
    } else {
      LossesMembers(returned[..|returned| - 1]);
      assert returned == returned[..|returned| - 1] + [returned[|returned| - 1]];
    }
  }

  lemma SomeLossReachesTail(losses: seq<real>, confidence: real, loss: real)
    requires 0.0 < confidence < 1.0 && loss in losses && loss >= 0.0
    ensures Tail(losses, ValueAtRisk(losses, confidence)) != []
  {
    var v := ValueAtRisk(losses, confidence);
    RankInBounds(confidence, |losses|);
    var y := if v > 0.0 then losses[RankOf(confidence, |losses|) - 1] else loss;
    FilterMember(AtLeast(v), losses, y);
    assert y in Tail(losses, v);
  }

  lemma NoLossReachesTail(losses: seq<real>, confidence: real)
    requires 0.0 < confidence < 1.0 && losses != [] && forall y | y in losses :: y < 0.0
    ensures Tail(losses, ValueAtRisk(losses, confidence)) == []
  {
    var v := ValueAtRisk(losses, confidence);
    assert v >= 0.0;
    FilterNone(AtLeast(v), losses);
  }

  lemma TailIsEmptyWhenAllGain(returned: seq<real>, confidence: real)
    requires 0.0 < confidence < 1.0 && returned != []
    ensures var losses := SortedLosses(returned);
            Tail(losses, ValueAtRisk(losses, confidence)) == [] <==> forall x | x in returned :: x > 0.0
  {
    var losses := SortedLosses(returned);
    LossesMembers(returned);
    SameElements(losses, Losses(returned));
    if x :| x in returned && x <= 0.0 {
      assert -x in losses;
      SomeLossReachesTail(losses, confidence, -x);
    } else {
      forall y | y in losses
        ensures y < 0.0
      {
        assert -y in returned;
      }
      NoLossReachesTail(losses, confidence);
    }
  }

  /** Among accepted inputs, the shortfall divides by zero exactly when every return is a gain. */
  lemma ShortfallUndefinedExactlyWhenAllGain(returned: seq<real>, benchmark: seq<real>, value: real, confidence: real)
    ensures Calculate(returned, benchmark, value, confidence) == Failure(DivisionUndefined) <==>
            && InputAccepted(returned, benchmark, value, confidence)
            && forall x | x in returned :: x > 0.0
  {
    if returned != [] && 0.0 < confidence < 1.0 {
      TailIsEmptyWhenAllGain(returned, confidence);
    }
  }

  // ---------------------------------------------------------------- what the figures mean

  function CountAtMost(losses: seq<real>, v: real): nat {
    |Filter(AtMost(v), losses)|
  }

  lemma {:induction false} FilterNoLonger<T>(p: T -> bool, s: seq<T>)
    ensures |Filter(p, s)| <= |s|
  {
    if s == [] {
    } else {
      FilterNoLonger(p, s[..|s| - 1]);
    }
  }

  lemma CountBelowRank(losses: seq<real>, rank: nat, v: real)
    requires Sorted(RealLe, losses) && 1 <= rank <= |losses|
    ensures v < losses[rank - 1] ==> CountAtMost(losses, v) < rank
    ensures v >= losses[rank - 1] ==> CountAtMost(losses, v) >= rank
  {
    if v < losses[rank - 1] {
      var low, high := losses[..rank - 1], losses[rank - 1..];
      assert losses == low + high;
      FilterConcat(AtMost(v), low, high);
      forall x | x in high
        ensures !AtMost(v)(x)
      {
        var i :| 0 <= i < |high| && high[i] == x;
        assert i > 0 ==> RealLe(losses[rank - 1], losses[rank - 1 + i]);
      }
      FilterNone(AtMost(v), high);
      FilterNoLonger(AtMost(v), low);
    } else {
      var low, high := losses[..rank], losses[rank..];
      assert losses == low + high;
      FilterConcat(AtMost(v), low, high);
      forall x | x in low
        ensures AtMost(v)(x)
      {
        var i :| 0 <= i < |low| && low[i] == x;
        assert i < rank - 1 ==> RealLe(losses[i], losses[rank - 1]);
      }
      FilterAll(AtMost(v), low);
    }
  }

  /** The least non-negative threshold that at least the given share of losses does not exceed. */
  ghost predicate IsQuantile(losses: seq<real>, confidence: real, v: real) {
    && v >= 0.0
    && CountAtMost(losses, v) as real >= confidence * |losses| as real
    && forall u | 0.0 <= u < v :: (CountAtMost(losses, u) as real) < confidence * |losses| as real
  }

  lemma CountOfPermutation(a: seq<real>, b: seq<real>, v: real)
    requires multiset(a) == multiset(b)
    ensures CountAtMost(a, v) == CountAtMost(b, v)
  {
    FilterPermutation(AtMost(v), a, b);
    SameElements(Filter(AtMost(v), a), Filter(AtMost(v), b));
  }

  lemma BelowRankIsTooFew(count: nat, confidence: real, n: nat)
    requires 0.0 < confidence < 1.0 && n > 0
    ensures (count as real) < confidence * n as real <==> count < RankOf(confidence, n)
  {
    RankInBounds(confidence, n);
  }

  /** On sorted losses the nearest rank is the quantile. */
  lemma NearestRankIsQuantile(losses: seq<real>, confidence: real)
    requires Sorted(RealLe, losses) && losses != [] && 0.0 < confidence < 1.0
    ensures IsQuantile(losses, confidence, ValueAtRisk(losses, confidence))
  {
    var n := |losses|;
    var v := ValueAtRisk(losses, confidence);
    var rank := RankOf(confidence, n);
    RankInBounds(confidence, n);
    CountBelowRank(losses, rank, v);
    BelowRankIsTooFew(CountAtMost(losses, v), confidence, n);
    forall u | 0.0 <= u < v
      ensures (CountAtMost(losses, u) as real) < confidence * n as real
    {
      CountBelowRank(losses, rank, u);
      BelowRankIsTooFew(CountAtMost(losses, u), confidence, n);
    }
  }

  lemma QuantileOfPermutation(a: seq<real>, b: seq<real>, confidence: real, v: real)
    requires multiset(a) == multiset(b) && IsQuantile(a, confidence, v)
    ensures IsQuantile(b, confidence, v)
  {
    SameElements(a, b);
    CountOfPermutation(a, b, v);
    forall u | 0.0 <= u < v
      ensures (CountAtMost(b, u) as real) < confidence * |b| as real
    {
      CountOfPermutation(a, b, u);
    }
  }

  /** Value at risk is the quantile of the losses, whichever order the returns came in. */
  lemma ValueAtRiskIsQuantile(returned: seq<real>, benchmark: seq<real>, value: real, confidence: real)
    ensures var r := Calculate(returned, benchmark, value, confidence);
            r.Success? ==> IsQuantile(Losses(returned), confidence, r.value.valueAtRisk)
  {
    if InputAccepted(returned, benchmark, value, confidence) {
      var losses := SortedLosses(returned);
      NearestRankIsQuantile(losses, confidence);
      QuantileOfPermutation(losses, Losses(returned), confidence, ValueAtRisk(losses, confidence));
    }
  }

  /** `n` copies of `v` added up. */
  function Copies(v: real, n: nat): real {
    if n == 0 then 0.0 else Copies(v, n - 1) + v
  }

  lemma Distribute(v: real, a: real, b: real, total: real)
    requires total == a + b
    ensures v * total == v * a + v * b
  {
  }

  lemma {:induction false} CopiesIsProduct(v: real, n: nat)
    ensures Copies(v, n) == v * n as real
  {
    if n == 0 {
    } else {
      CopiesIsProduct(v, n - 1);
      Distribute(v, (n - 1) as real, 1.0, n as real);
    }
  }

  lemma TailStep(s: seq<real>, v: real)
    requires s != []
    ensures var front, x := s[..|s| - 1], s[|s| - 1];
            if x >= v then |Tail(s, v)| == |Tail(front, v)| + 1 && Sum(Tail(s, v)) == Sum(Tail(front, v)) + x
            else Tail(s, v) == Tail(front, v)
  {
    var front, x := s[..|s| - 1], s[|s| - 1];
    if x >= v {
      assert Tail(s, v)[..|Tail(s, v)| - 1] == Tail(front, v);
    }
  }

  lemma {:induction false} TailOutweighs(s: seq<real>, v: real)
    ensures Sum(Tail(s, v)) >= Copies(v, |Tail(s, v)|)
  {
    if s == [] {
    } else {
      TailStep(s, v);
      TailOutweighs(s[..|s| - 1], v);
    }
  }

  lemma MeanAtLeast(total: real, n: nat, v: real)
    requires n > 0 && total >= Copies(v, n)
    ensures total / n as real >= v
  {
    CopiesIsProduct(v, n);
    var m := total / n as real;
    assert m * n as real == total;
  }

  lemma FiguresAreOrdered(losses: seq<real>, confidence: real)
    requires 0.0 < confidence < 1.0 && losses != []
    ensures var f := Figures(losses, confidence);
            f.Some? ==> f.value.1 >= f.value.0 >= 0.0
  {
    var v := ValueAtRisk(losses, confidence);
    if Tail(losses, v) != [] {
      TailOutweighs(losses, v);
      MeanAtLeast(Sum(Tail(losses, v)), |Tail(losses, v)|, v);
    }
  }

  lemma ScaleOrder(value: real, v: real, e: real)
    requires value > 0.0 && 0.0 <= v <= e
    ensures 0.0 <= value * v <= value * e
  {
  }

  lemma ReportIsOrdered(n: nat, f: Option<(real, real)>, value: real, confidence: real)
    requires value > 0.0 && (f.Some? ==> f.value.1 >= f.value.0 >= 0.0)
    ensures var r := Report(n, f, value, confidence);
            r.Success? ==>
              && r.value.shortfall >= r.value.valueAtRisk >= 0.0
              && r.value.shortfallAmount >= r.value.valueAtRiskAmount >= 0.0
  {
    if f.Some? {
      ScaleOrder(value, f.value.0, f.value.1);
    }
  }

  /** Expected shortfall is at least value at risk, and neither is negative. */
  lemma ShortfallIsAtLeastValueAtRisk(returned: seq<real>, benchmark: seq<real>, value: real, confidence: real)
    ensures var r := Calculate(returned, benchmark, value, confidence);
            r.Success? ==>
              && r.value.shortfall >= r.value.valueAtRisk >= 0.0
              && r.value.shortfallAmount >= r.value.valueAtRiskAmount >= 0.0
  {
    if InputAccepted(returned, benchmark, value, confidence) {
      FiguresAreOrdered(SortedLosses(returned), confidence);
      ReportIsOrdered(|returned|, Figures(SortedLosses(returned), confidence), value, confidence);
    }
  }

  // ---------------------------------------------------------------- the shortfall in the returns' own terms

  /** One for each return whose loss reaches the threshold. */
  function Reaches(v: real): real -> real {
    (x: real) => if -x >= v then 1.0 else 0.0
  }

  /** The losses that reach the threshold. */
  function LossReaching(v: real): real -> real {
    (x: real) => if -x >= v then -x else 0.0
  }

  function InTail(v: real): real -> real {
    (l: real) => if l >= v then 1.0 else 0.0
  }

  function TailLoss(v: real): real -> real {
    (l: real) => if l >= v then l else 0.0
  }

  lemma {:induction false} TailIsWeighed(losses: seq<real>, v: real)
    ensures |Tail(losses, v)| as real == SumBy(losses, InTail(v))
    ensures Sum(Tail(losses, v)) == SumBy(losses, TailLoss(v))
  {
    if losses == [] {
    } else {
      TailStep(losses, v);
      TailIsWeighed(losses[..|losses| - 1], v);
    }
  }

  lemma {:induction false} LossesAreWeighed(returned: seq<real>, v: real)
    ensures SumBy(Losses(returned), InTail(v)) == SumBy(returned, Reaches(v))
    ensures SumBy(Losses(returned), TailLoss(v)) == SumBy(returned, LossReaching(v))
  {
    if returned == [] {
    } else {
      var front := returned[..|returned| - 1];
      LossesAreWeighed(front, v);
      assert Losses(returned)[..|returned| - 1] == Losses(front);
    }
  }

  lemma TailOfReturns(returned: seq<real>, v: real)
    ensures |Tail(SortedLosses(returned), v)| as real == SumBy(returned, Reaches(v))
    ensures Sum(Tail(SortedLosses(returned), v)) == SumBy(returned, LossReaching(v))
  {
    TailIsWeighed(SortedLosses(returned), v);
    SumByPermutation(SortedLosses(returned), Losses(returned), InTail(v));
    SumByPermutation(SortedLosses(returned), Losses(returned), TailLoss(v));
    LossesAreWeighed(returned, v);
  }

  /** `mean`, taken `count` times, is `total`. */
  predicate AddsUpTo(mean: real, count: real, total: real) {
    mean * count == total
  }

  lemma MeanTimesCount(total: real, n: nat, count: real)
    requires n > 0 && count == n as real
    ensures AddsUpTo(total / n as real, count, total)
  {
  }

  lemma ShortfallIsMean(losses: seq<real>, v: real, count: real)
    requires Tail(losses, v) != [] && v >= 0.0 && count == |Tail(losses, v)| as real
    ensures AddsUpTo(Shortfall(losses, v), count, Sum(Tail(losses, v)))
  {
    TailOutweighs(losses, v);
    MeanAtLeast(Sum(Tail(losses, v)), |Tail(losses, v)|, v);
    MeanTimesCount(Sum(Tail(losses, v)), |Tail(losses, v)|, count);
  }

  lemma FiguresInReturns(returned: seq<real>, confidence: real)
    requires 0.0 < confidence < 1.0 && returned != []
    ensures var f := Figures(SortedLosses(returned), confidence);
            f.Some? ==>
              && SumBy(returned, Reaches(f.value.0)) > 0.0
              && AddsUpTo(f.value.1, SumBy(returned, Reaches(f.value.0)), SumBy(returned, LossReaching(f.value.0)))
  {
    var losses := SortedLosses(returned);
    var v := ValueAtRisk(losses, confidence);
    if Tail(losses, v) != [] {
      FiguresAreOrdered(losses, confidence);
      TailOfReturns(returned, v);
      ShortfallIsMean(losses, v, SumBy(returned, Reaches(v)));
    }
  }

  predicate InAmounts(r: RiskResult, value: real) {
    r.valueAtRiskAmount == value * r.valueAtRisk && r.shortfallAmount == value * r.shortfall
  }

  lemma ReportInFields(n: nat, f: Option<(real, real)>, value: real, confidence: real)
    requires f.Some?
    ensures var r := Report(n, f, value, confidence);
            && r.Success? && r.value.observations == n && r.value.confidence == confidence
            && r.value.valueAtRisk == f.value.0 && r.value.shortfall == f.value.1 && InAmounts(r.value, value)
  {
  }

  /**
   * Expected shortfall times the number of returns whose loss reaches value at risk is the sum of those losses, of
   * which there is one at least; the amounts are the portfolio value times the figures.
   */
  lemma ShortfallIsTailMean(returned: seq<real>, benchmark: seq<real>, value: real, confidence: real)
    ensures var r := Calculate(returned, benchmark, value, confidence);
            r.Success? ==>
              && r.value.observations == |returned| && r.value.confidence == confidence
              && SumBy(returned, Reaches(r.value.valueAtRisk)) > 0.0
              && AddsUpTo(r.value.shortfall, SumBy(returned, Reaches(r.value.valueAtRisk)),
                          SumBy(returned, LossReaching(r.value.valueAtRisk)))
              && InAmounts(r.value, value)
  {
    if Calculate(returned, benchmark, value, confidence).Success? {
      FiguresInReturns(returned, confidence);
      ReportInFields(|returned|, Figures(SortedLosses(returned), confidence), value, confidence);
    }
  }

  /** What is refused, and why, in the order the arguments are checked. */
  lemma RefusedExactly(returned: seq<real>, benchmark: seq<real>, value: real, confidence: real)
    ensures var r := Calculate(returned, benchmark, value, confidence);
            if returned == [] then r == Failure(NoReturns)
            else if value <= 0.0 then r == Failure(ValueNotPositive)
            else if confidence <= 0.0 || confidence >= 1.0 then r == Failure(ConfidenceOutOfRange)
            else if benchmark != [] && |benchmark| != |returned| then r == Failure(BenchmarkNotAligned)
            else if forall x | x in returned :: x > 0.0 then r == Failure(DivisionUndefined)
            else r.Success?
  {
    if InputAccepted(returned, benchmark, value, confidence) {
      TailIsEmptyWhenAllGain(returned, confidence);
    }
  }

  // ---------------------------------------------------------------- monotone in the confidence level

  lemma RankMonotone(c: real, d: real, n: nat)
    requires c <= d
    ensures RankOf(c, n) <= RankOf(d, n)
  {
    assert c * n as real <= d * n as real;
  }

  lemma ValueAtRiskMonotone(losses: seq<real>, c: real, d: real)
    requires Sorted(RealLe, losses) && losses != [] && 0.0 < c <= d < 1.0
    ensures ValueAtRisk(losses, c) <= ValueAtRisk(losses, d)
  {
    RankInBounds(c, |losses|);
    RankInBounds(d, |losses|);
    RankMonotone(c, d, |losses|);
    var i, j := RankOf(c, |losses|) - 1, RankOf(d, |losses|) - 1;
    assert i < j ==> RealLe(losses[i], losses[j]);
  }

  /** Raising the threshold drops only losses below it. */
  lemma {:induction false} TailShrinks(s: seq<real>, v: real, w: real)
    requires v <= w
    ensures |Tail(s, w)| <= |Tail(s, v)|
    ensures Sum(Tail(s, v)) <= Sum(Tail(s, w)) + Copies(w, |Tail(s, v)| - |Tail(s, w)|)
  {
    if s == [] {
    } else {
      TailStep(s, v);
      TailStep(s, w);
      TailShrinks(s[..|s| - 1], v, w);
    }
  }

  lemma MeanOfUpperPart(a: real, n: nat, b: real, m: nat, w: real)
    requires 0 < m <= n && a <= b + Copies(w, n - m) && b >= Copies(w, m)
    ensures a / n as real <= b / m as real
  {
    var p := b / m as real;
    MeanAtLeast(b, m, w);
    CopiesIsProduct(w, n - m);
    var extra := (n - m) as real;
    assert w * extra <= p * extra;
    assert p * m as real == b;
    Distribute(p, m as real, extra, n as real);
    assert a <= p * n as real;
    DivideByCount(a, p, n);
  }

  lemma DivideByCount(a: real, p: real, n: nat)
    requires n > 0 && a <= p * n as real
    ensures a / n as real <= p
  {
    var q := a / n as real;
    assert q * n as real == a;
  }

  lemma ShortfallMonotone(losses: seq<real>, v: real, w: real)
    requires v <= w && Tail(losses, w) != [] && Tail(losses, v) != []
    ensures Shortfall(losses, v) <= Shortfall(losses, w)
  {
    TailShrinks(losses, v, w);
    TailOutweighs(losses, w);
    MeanOfUpperPart(Sum(Tail(losses, v)), |Tail(losses, v)|, Sum(Tail(losses, w)), |Tail(losses, w)|, w);
  }

  lemma FiguresMonotone(losses: seq<real>, c: real, d: real)
    requires Sorted(RealLe, losses) && losses != [] && 0.0 < c <= d < 1.0
    ensures var low, high := Figures(losses, c), Figures(losses, d);
            low.Some? && high.Some? ==> low.value.0 <= high.value.0 && low.value.1 <= high.value.1
  {
    ValueAtRiskMonotone(losses, c, d);
    var v, w := ValueAtRisk(losses, c), ValueAtRisk(losses, d);
    if Tail(losses, v) != [] && Tail(losses, w) != [] {
      ShortfallMonotone(losses, v, w);
    }
  }

  /** Both figures are nondecreasing in the confidence level. */
  lemma FiguresGrowWithConfidence(returned: seq<real>, benchmark: seq<real>, value: real, c: real, d: real)
    requires 0.0 < c <= d < 1.0
    ensures var low, high := Calculate(returned, benchmark, value, c), Calculate(returned, benchmark, value, d);
            && (low.Success? <==> high.Success?)
            && (low.Success? ==>
                  low.value.valueAtRisk <= high.value.valueAtRisk && low.value.shortfall <= high.value.shortfall)
  {
    if returned != [] {
      TailIsEmptyWhenAllGain(returned, c);
      TailIsEmptyWhenAllGain(returned, d);
      FiguresMonotone(SortedLosses(returned), c, d);
    }
  }

  // ---------------------------------------------------------------- independent of order

  lemma {:induction false} LossesCount(returned: seq<real>, x: real, y: real)
    requires y == -x
    ensures multiset(Losses(returned))[x] == multiset(returned)[y]
  {
    if returned == [] {
    } else {
      var front, last := returned[..|returned| - 1], returned[|returned| - 1];
      assert returned == front + [last];
      LossesNext(front, last);
      LossesCount(front, x, y);
      OneMoreLoss(Losses(front), front, last, x, y);
    }
  }

  lemma LossesNext(front: seq<real>, last: real)
    ensures Losses(front + [last]) == Losses(front) + [-last]
  {
    assert (front + [last])[..|front|] == front;
  }

  lemma OneMoreLoss(losses: seq<real>, front: seq<real>, last: real, x: real, y: real)
    requires y == -x && multiset(losses)[x] == multiset(front)[y]
    ensures multiset(losses + [-last])[x] == multiset(front + [last])[y]
  {
    CountLast(front, last, y);
    CountLast(losses, -last, x);
  }

  lemma CountLast(front: seq<real>, last: real, x: real)
    ensures multiset(front + [last])[x] == multiset(front)[x] + (if last == x then 1 else 0)
  {
  }

  lemma SortedLossesPermute(a: seq<real>, b: seq<real>)
    requires multiset(a) == multiset(b)
    ensures SortedLosses(a) == SortedLosses(b)
  {
    forall x
      ensures multiset(Losses(a))[x] == multiset(Losses(b))[x]
    {
      LossesCount(a, x, -x);
      LossesCount(b, x, -x);
    }
    assert multiset(Losses(a)) == multiset(Losses(b));
    assert DistinctKeys(RealLe, SortedLosses(a));
    SortedUnique(RealLe, SortedLosses(a), SortedLosses(b));
  }

  /** Permuting the returns changes nothing. */
  lemma ReturnOrderIsIrrelevant(a: seq<real>, b: seq<real>, benchmark: seq<real>, value: real, confidence: real)
    requires multiset(a) == multiset(b)
    ensures Calculate(a, benchmark, value, confidence) == Calculate(b, benchmark, value, confidence)
  {
    SameElements(a, b);
    SortedLossesPermute(a, b);
    SameReport(a, b, value, confidence);
  }

  lemma SameReport(a: seq<real>, b: seq<real>, value: real, confidence: real)
    requires |a| == |b| && SortedLosses(a) == SortedLosses(b)
    ensures a != [] && 0.0 < confidence < 1.0 ==>
              Report(|a|, Figures(SortedLosses(a), confidence), value, confidence) ==
              Report(|b|, Figures(SortedLosses(b), confidence), value, confidence)
  {
  }
}
