/** Weights, category breakdowns and concentration of a long-only portfolio (app/exposures/engine.py). */
module Exposures {
  import opened Wrappers
  import opened Sorting
  import opened Sums
  import opened Text
  import opened LedgerTypes

  datatype Classification = Classification(sector: string, assetClass: string, geography: string)

  datatype Holding = Holding(instrumentId: Id, marketValue: real)

  datatype PositionWeight = PositionWeight(instrumentId: Id, marketValue: real, weight: real)

  datatype CategoryExposure = CategoryExposure(category: string, marketValue: real, weight: real)

  datatype Dimension = Sector | AssetClass | Geography

  datatype ExposureResult = ExposureResult(
    portfolioValue: real,
    cashValue: real,
    weights: seq<PositionWeight>,
    sectors: seq<CategoryExposure>,
    assetClasses: seq<CategoryExposure>,
    geographies: seq<CategoryExposure>,
    topHoldings: seq<PositionWeight>,
    largestWeight: real,
    herfindahl: real)

  datatype ExposureError = NegativeValue | TopNotPositive | ValueNotPositive

  const CASH := "CASH"
  const UNCLASSIFIED := "UNCLASSIFIED"

  function LabelOf(classifications: map<Id, Classification>, d: Dimension, id: Id): string {
    if id !in classifications then UNCLASSIFIED
    else
      match d
      case Sector => classifications[id].sector
      case AssetClass => classifications[id].assetClass
      case Geography => classifications[id].geography
  }

  function Value(): Holding -> real {
    (h: Holding) => h.marketValue
  }

  function AddTo(m: map<string, real>, category: string, amount: real): map<string, real> {
    m[category := (if category in m then m[category] else 0.0) + amount]
  }

  /** The market value held in each category of a dimension. */
  function Breakdown(rows: seq<Holding>, classifications: map<Id, Classification>, d: Dimension): map<string, real> {
    if rows == [] then map[]
    else
      var last := rows[|rows| - 1];
      AddTo(Breakdown(rows[..|rows| - 1], classifications, d), LabelOf(classifications, d, last.instrumentId),
            last.marketValue)
  }

  function WithCash(m: map<string, real>, cash: real): map<string, real> {
    if cash == 0.0 then m else AddTo(m, CASH, cash)
  }

  /** Heavier first, then by id. */
  predicate WeightLe(a: PositionWeight, b: PositionWeight) {
    a.weight > b.weight || (a.weight == b.weight && a.instrumentId <= b.instrumentId)
  }

  /** Larger first, then by name. */
  predicate CategoryLe(a: CategoryExposure, b: CategoryExposure) {
    a.marketValue > b.marketValue || (a.marketValue == b.marketValue && TextLe(a.category, b.category))
  }

  function WeightsOf(rows: seq<Holding>, total: real): (r: seq<PositionWeight>)
    requires total > 0.0
    ensures |r| == |rows|
  {
    if rows == [] then []
    else
      var last := rows[|rows| - 1];
      WeightsOf(rows[..|rows| - 1], total) +
          [PositionWeight(last.instrumentId, last.marketValue, last.marketValue / total)]
  }

  function ListCategories(names: seq<string>, m: map<string, real>, total: real): seq<CategoryExposure>
    requires total > 0.0 && forall c | c in names :: c in m
  {
    if names == [] then []
    else
      var c := names[|names| - 1];
      ListCategories(names[..|names| - 1], m, total) + [CategoryExposure(c, m[c], m[c] / total)]
  }

  function SortedNames(names: set<string>): (r: seq<string>)
    ensures Listing(TextLe, r, names)
  {
    TextOrderIsTotal();
    Enumerate(TextLe, names)
  }

  function Categories(m: map<string, real>, total: real): seq<CategoryExposure>
    requires total > 0.0
  {
    SortBy(CategoryLe, ListCategories(SortedNames(m.Keys), m, total))
  }

  function Squared(): PositionWeight -> real {
    (w: PositionWeight) => w.weight * w.weight
  }

  /** The value held per category, in each of the three dimensions, cash included. */
  datatype Breakdowns = Breakdowns(sector: map<string, real>, asset: map<string, real>, geography: map<string, real>)

  function InDimension(rows: seq<Holding>, cash: real, classifications: map<Id, Classification>, d: Dimension)
    : map<string, real>
  {
    WithCash(Breakdown(rows, classifications, d), cash)
  }

  function AllDimensions(rows: seq<Holding>, cash: real, classifications: map<Id, Classification>): Breakdowns {
    Breakdowns(InDimension(rows, cash, classifications, Sector), InDimension(rows, cash, classifications, AssetClass),
               InDimension(rows, cash, classifications, Geography))
  }

  function SortedWeights(rows: seq<Holding>, total: real): seq<PositionWeight>
    requires total > 0.0
  {
    SortBy(WeightLe, WeightsOf(rows, total))
  }

  function Herfindahl(weights: seq<PositionWeight>): real {
    SumBy(weights, Squared())
  }

  function ResultOf(total: real, cash: real, weights: seq<PositionWeight>, b: Breakdowns, topN: nat): ExposureResult
    requires total > 0.0
  {
    ExposureResult(
      total, cash, weights,
      Categories(b.sector, total), Categories(b.asset, total), Categories(b.geography, total),
      if topN <= |weights| then weights[..topN] else weights,
      if weights == [] then 0.0 else weights[0].weight,
      Herfindahl(weights))
  }

  function TotalValue(rows: seq<Holding>, cash: real): real {
    cash + SumBy(rows, Value())
  }

  function InputError(rows: seq<Holding>, cash: real, topN: int): (e: Option<ExposureError>)
    ensures e.None? ==>
              && cash >= 0.0 && (forall h | h in rows :: h.marketValue >= 0.0)
              && topN > 0 && TotalValue(rows, cash) > 0.0
  {
    if cash < 0.0 || exists h :: h in rows && h.marketValue < 0.0 then Some(NegativeValue)
    else if topN <= 0 then Some(TopNotPositive)
    else if TotalValue(rows, cash) <= 0.0 then Some(ValueNotPositive)
    else None
  }

  function Calculate(rows: seq<Holding>, cash: real, classifications: map<Id, Classification>, topN: int)
    : Result<ExposureResult, ExposureError>
  {
    var problem := InputError(rows, cash, topN);
    if problem.Some? then Failure(problem.value)
    else
      var total := TotalValue(rows, cash);
      Success(ResultOf(total, cash, SortedWeights(rows, total), AllDimensions(rows, cash, classifications), topN))
  }

  lemma BreakdownNext(rows: seq<Holding>, classifications: map<Id, Classification>, d: Dimension, i: nat)
    requires i < |rows|
    ensures Breakdown(rows[..i + 1], classifications, d) ==
            AddTo(Breakdown(rows[..i], classifications, d), LabelOf(classifications, d, rows[i].instrumentId),
                  rows[i].marketValue)
  {
    assert rows[..i + 1][..i] == rows[..i];
  }

  /** Accumulate the holdings, and then the cash, into three dictionaries. */
  method RunBreakdowns(rows: seq<Holding>, cash: real, classifications: map<Id, Classification>) returns (b: Breakdowns)
    ensures b == AllDimensions(rows, cash, classifications)
  {
    var sector: map<string, real>, asset: map<string, real>, geography: map<string, real> := map[], map[], map[];
    for i := 0 to |rows|
      invariant sector == Breakdown(rows[..i], classifications, Sector)
      invariant asset == Breakdown(rows[..i], classifications, AssetClass)
      invariant geography == Breakdown(rows[..i], classifications, Geography)
    {
      var h := rows[i];
      var labels := (UNCLASSIFIED, UNCLASSIFIED, UNCLASSIFIED);
      if h.instrumentId in classifications {
        var c := classifications[h.instrumentId];
        labels := (c.sector, c.assetClass, c.geography);
      }
      sector := AddTo(sector, labels.0, h.marketValue);
      asset := AddTo(asset, labels.1, h.marketValue);
      geography := AddTo(geography, labels.2, h.marketValue);
      BreakdownNext(rows, classifications, Sector, i);
      BreakdownNext(rows, classifications, AssetClass, i);
      BreakdownNext(rows, classifications, Geography, i);
    }
    assert rows[..|rows|] == rows;
    if cash != 0.0 {
      sector := AddTo(sector, CASH, cash);
      asset := AddTo(asset, CASH, cash);
      geography := AddTo(geography, CASH, cash);
    }
    return Breakdowns(sector, asset, geography);
  }

  /** `ExposureEngine.calculate`. */
  method RunCalculate(rows: seq<Holding>, cash: real, classifications: map<Id, Classification>, topN: int)
    returns (r: Result<ExposureResult, ExposureError>)
    ensures r == Calculate(rows, cash, classifications, topN)
  {
    var problem := InputError(rows, cash, topN);
    if problem.Some? {
      return Failure(problem.value);
    }
    var total := TotalValue(rows, cash);
    var b := RunBreakdowns(rows, cash, classifications);
    return Success(ResultOf(total, cash, SortedWeights(rows, total), b, topN));
  }

  // ---------------------------------------------------------------- what a breakdown says

  /** A holding's value if it has the given label, and nothing otherwise. */
  function Labelled(classifications: map<Id, Classification>, d: Dimension, category: string): Holding -> real {
    (h: Holding) => if LabelOf(classifications, d, h.instrumentId) == category then h.marketValue else 0.0
  }

  /** Each category holds the value of the holdings so labelled, and only labels in use appear. */
  lemma {:induction false} BreakdownIsByLabel(rows: seq<Holding>, classifications: map<Id, Classification>,
                                              d: Dimension, c: string)
    ensures c in Breakdown(rows, classifications, d) <==>
            exists h :: h in rows && LabelOf(classifications, d, h.instrumentId) == c
    ensures (if c in Breakdown(rows, classifications, d) then Breakdown(rows, classifications, d)[c] else 0.0) ==
            SumBy(rows, Labelled(classifications, d, c))
  {
    if rows == [] {
    } else {
      var front, last := rows[..|rows| - 1], rows[|rows| - 1];
      BreakdownIsByLabel(front, classifications, d, c);
      assert rows == front + [last];
      assert forall h :: h in rows <==> h in front || h == last;
    }
  }

  lemma AddedTotal(m: map<string, real>, category: string, amount: real)
    ensures SumMap(AddTo(m, category, amount)) == SumMap(m) + amount
  {
    SumMapUpdate(m, category, (if category in m then m[category] else 0.0) + amount);
  }

  lemma {:induction false} BreakdownTotal(rows: seq<Holding>, classifications: map<Id, Classification>, d: Dimension)
    ensures SumMap(Breakdown(rows, classifications, d)) == SumBy(rows, Value())
  {
    if rows != [] {
      var last := rows[|rows| - 1];
      BreakdownTotal(rows[..|rows| - 1], classifications, d);
      AddedTotal(Breakdown(rows[..|rows| - 1], classifications, d), LabelOf(classifications, d, last.instrumentId),
                 last.marketValue);
    } else {
      SumMapZero<string>(map[]);
    }
  }

  // ---------------------------------------------------------------- weights add up

  function Weight(): CategoryExposure -> real {
    (c: CategoryExposure) => c.weight
  }

  function CategoryValue(): CategoryExposure -> real {
    (c: CategoryExposure) => c.marketValue
  }

  function ValueIn(m: map<string, real>): string -> real {
    (c: string) => if c in m then m[c] else 0.0
  }

  lemma {:induction false} ListedValues(names: seq<string>, m: map<string, real>, total: real)
    requires total > 0.0 && forall c | c in names :: c in m
    ensures SumBy(ListCategories(names, m, total), CategoryValue()) == SumBy(names, ValueIn(m))
    ensures forall c | c in ListCategories(names, m, total) :: c.weight == c.marketValue / total
  {
    if names == [] {
    } else {
      var c := names[|names| - 1];
      var front := ListCategories(names[..|names| - 1], m, total);
      ListedValues(names[..|names| - 1], m, total);
      assert ListCategories(names, m, total)[..|front|] == front;
    }
  }

  lemma CategoryOrderIsTotal()
    ensures TotalPreorder(CategoryLe)
  {
    TextOrderIsTotal();
  }

  lemma WholeQuotient(weights: real, total: real, product: real)
    requires total > 0.0 && weights * total == product && product == total
    ensures weights == 1.0
  {
  }

  lemma DividedBack(x: real, total: real)
    requires total > 0.0
    ensures x / total * total == x
  {
  }

  lemma WeightsScale(listed: seq<CategoryExposure>, total: real)
    requires total > 0.0 && forall c | c in listed :: c.weight == c.marketValue / total
    ensures SumBy(listed, Weight()) * total == SumBy(listed, CategoryValue())
  {
    forall c | c in listed
      ensures Weight()(c) * total == CategoryValue()(c)
    {
      DividedBack(c.marketValue, total);
    }
    SumByScale(listed, CategoryValue(), Weight(), total);
  }

  lemma ListedWeights(listed: seq<CategoryExposure>, total: real)
    requires total > 0.0 && forall c | c in listed :: c.weight == c.marketValue / total
    requires SumBy(listed, CategoryValue()) == total
    ensures SumBy(listed, Weight()) == 1.0
  {
    WeightsScale(listed, total);
    WholeQuotient(SumBy(listed, Weight()), total, SumBy(listed, CategoryValue()));
  }

  lemma SortedCategories(m: map<string, real>, total: real)
    requires total > 0.0
    ensures SumBy(Categories(m, total), Weight()) == SumBy(ListCategories(SortedNames(m.Keys), m, total), Weight())
  {
    var listed := ListCategories(SortedNames(m.Keys), m, total);
    CategoryOrderIsTotal();
    SortBySorts(CategoryLe, listed);
    SumByPermutation(Categories(m, total), listed, Weight());
  }

  /** If the categories' values add up to the total, their weights add up to one. */
  lemma CategoryWeightsAddUp(m: map<string, real>, total: real)
    requires total > 0.0 && SumMap(m) == total
    ensures SumBy(Categories(m, total), Weight()) == 1.0
  {
    var names := SortedNames(m.Keys);
    var listed := ListCategories(names, m, total);
    SortedCategories(m, total);
    ListedValues(names, m, total);
    SumMapListing(m, names, ValueIn(m));
    ListedWeights(listed, total);
  }

  lemma DimensionAddsUp(rows: seq<Holding>, cash: real, classifications: map<Id, Classification>, d: Dimension,
                        total: real)
    requires total == TotalValue(rows, cash) > 0.0
    ensures SumBy(Categories(InDimension(rows, cash, classifications, d), total), Weight()) == 1.0
  {
    BreakdownTotal(rows, classifications, d);
    AddedTotal(Breakdown(rows, classifications, d), CASH, cash);
    CategoryWeightsAddUp(InDimension(rows, cash, classifications, d), total);
  }

  /** Whatever the classification, each of the three breakdowns accounts for exactly the whole portfolio. */
  lemma BreakdownsAddUp(rows: seq<Holding>, cash: real, classifications: map<Id, Classification>, topN: int)
    ensures var r := Calculate(rows, cash, classifications, topN);
            r.Success? ==>
              && SumBy(r.value.sectors, Weight()) == 1.0
              && SumBy(r.value.assetClasses, Weight()) == 1.0
              && SumBy(r.value.geographies, Weight()) == 1.0
  {
    var total := TotalValue(rows, cash);
    if InputError(rows, cash, topN).None? {
      DimensionAddsUp(rows, cash, classifications, Sector, total);
      DimensionAddsUp(rows, cash, classifications, AssetClass, total);
      DimensionAddsUp(rows, cash, classifications, Geography, total);
    }
  }

  // ---------------------------------------------------------------- concentration

  function Share(): PositionWeight -> real {
    (w: PositionWeight) => w.weight
  }

  function WeightValue(): PositionWeight -> real {
    (w: PositionWeight) => w.marketValue
  }

  lemma {:induction false} WeightsKeepValue(rows: seq<Holding>, total: real)
    requires total > 0.0
    ensures SumBy(WeightsOf(rows, total), WeightValue()) == SumBy(rows, Value())
  {
    if rows == [] {
    } else {
      var front := rows[..|rows| - 1];
      WeightsKeepValue(front, total);
      assert WeightsOf(rows, total)[..|front|] == WeightsOf(front, total);
    }
  }

  lemma {:induction false} WeightsAreQuotients(rows: seq<Holding>, total: real)
    requires total > 0.0
    ensures forall w | w in WeightsOf(rows, total) :: w.weight == w.marketValue / total
    ensures forall w | w in WeightsOf(rows, total) :: exists h :: h in rows && h.marketValue == w.marketValue
  {
    if rows == [] {
    } else {
      var front, last := rows[..|rows| - 1], rows[|rows| - 1];
      WeightsAreQuotients(front, total);
      assert rows == front + [last];
      assert last in rows;
    }
  }

  lemma ShareOfTotal(shares: real, cash: real, rows: real, total: real)
    requires total > 0.0 && shares * total == rows && total == cash + rows
    ensures shares == 1.0 - cash / total
  {
    var c := cash / total;
    DividedBack(cash, total);
    Distribute(shares, c, total);
    WholeQuotient(shares + c, total, rows + cash);
  }

  lemma SharesScale(w: seq<PositionWeight>, total: real)
    requires total > 0.0 && forall x | x in w :: x.weight == x.marketValue / total
    ensures SumBy(w, Share()) * total == SumBy(w, WeightValue())
  {
    forall x | x in w
      ensures Share()(x) * total == WeightValue()(x)
    {
      DividedBack(x.marketValue, total);
    }
    SumByScale(w, WeightValue(), Share(), total);
  }

  lemma ListedShares(w: seq<PositionWeight>, cash: real, total: real)
    requires total > 0.0 && forall x | x in w :: x.weight == x.marketValue / total
    requires total == cash + SumBy(w, WeightValue())
    ensures SumBy(w, Share()) == 1.0 - cash / total
  {
    SharesScale(w, total);
    ShareOfTotal(SumBy(w, Share()), cash, SumBy(w, WeightValue()), total);
  }

  lemma SortedShares(w: seq<PositionWeight>)
    ensures SumBy(SortBy(WeightLe, w), Share()) == SumBy(w, Share())
  {
    assert TotalPreorder(WeightLe);
    SortBySorts(WeightLe, w);
    SumByPermutation(SortBy(WeightLe, w), w, Share());
  }

  /** Position weights and the cash weight add up to one. */
  lemma SharesAddUp(rows: seq<Holding>, cash: real, total: real)
    requires total > 0.0 && total == TotalValue(rows, cash)
    ensures SumBy(SortedWeights(rows, total), Share()) == 1.0 - cash / total
  {
    var w := WeightsOf(rows, total);
    SortedShares(w);
    WeightsKeepValue(rows, total);
    WeightsAreQuotients(rows, total);
    ListedShares(w, cash, total);
  }

  lemma SquareStep(squares: real, total: real, count: real, x: real, m: real)
    requires squares - 2.0 * m * total + m * m * count >= 0.0
    ensures squares + x * x - 2.0 * m * (total + x) + m * m * (count + 1.0) >= 0.0
  {
    var d := x - m;
    assert d * d >= 0.0;
    assert d * d == x * x - 2.0 * m * x + m * m;
    assert 2.0 * m * (total + x) == 2.0 * m * total + 2.0 * m * x;
    assert m * m * (count + 1.0) == m * m * count + m * m;
  }

  /** The squared distances of the weights from any one value add up to no less than zero. */
  lemma {:induction false} SpreadIsNonnegative(s: seq<PositionWeight>, m: real)
    ensures SumBy(s, Squared()) - 2.0 * m * SumBy(s, Share()) + m * m * |s| as real >= 0.0
  {
    if s == [] {
    } else {
      var front, x := s[..|s| - 1], s[|s| - 1];
      SpreadIsNonnegative(front, m);
      SquareStep(SumBy(front, Squared()), SumBy(front, Share()), |front| as real, x.weight, m);
      assert |s| as real == |front| as real + 1.0;
    }
  }

  lemma ProductStep(a: real, b: real, x: real, largest: real, total: real)
    requires a <= largest * b && 0.0 <= x <= largest && total == b + x
    ensures a + x * x <= largest * total
  {
    assert x * x <= largest * x;
    assert largest * total == largest * b + largest * x;
  }

  lemma {:induction false} SquaresBelowLargest(s: seq<PositionWeight>, largest: real, shares: real)
    requires forall w | w in s :: 0.0 <= w.weight <= largest
    requires shares == SumBy(s, Share())
    ensures Herfindahl(s) <= largest * shares
  {
    if s == [] {
    } else {
      var front, x := s[..|s| - 1], s[|s| - 1];
      SquaresBelowLargest(front, largest, SumBy(front, Share()));
      assert x in s;
      ProductStep(Herfindahl(front), SumBy(front, Share()), x.weight, largest, shares);
    }
  }

  lemma MeanSquareBound(squares: real, total: real, n: nat)
    requires n > 0
    requires var m := total / n as real; squares - 2.0 * m * total + m * m * n as real >= 0.0
    ensures total * total / n as real <= squares
  {
    var m := total / n as real;
    assert m * n as real == total;
    assert m * m * n as real == m * total;
    assert m * total == total * total / n as real by {
      assert m * total * n as real == total * total;
    }
  }

  /** The weights come largest first, none negative. */
  lemma FirstIsLargest(rows: seq<Holding>, total: real)
    requires total > 0.0 && forall h | h in rows :: h.marketValue >= 0.0
    ensures var w := SortedWeights(rows, total);
            && |w| == |rows|
            && forall x | x in w :: 0.0 <= x.weight <= w[0].weight
  {
    var listed := WeightsOf(rows, total);
    var w := SortBy(WeightLe, listed);
    assert TotalPreorder(WeightLe);
    SortBySorts(WeightLe, listed);
    SameElements(w, listed);
    WeightsAreQuotients(rows, total);
    forall x | x in w
      ensures 0.0 <= x.weight <= w[0].weight
    {
      var i :| 0 <= i < |w| && w[i] == x;
      assert i > 0 ==> WeightLe(w[0], w[i]);
      QuotientNonnegative(x.marketValue, total);
    }
  }

  lemma QuotientNonnegative(x: real, total: real)
    requires x >= 0.0 && total > 0.0
    ensures x / total >= 0.0
  {
  }

  lemma HerfindahlFloor(w: seq<PositionWeight>, shares: real)
    requires w != [] && shares == SumBy(w, Share())
    ensures shares * shares / |w| as real <= Herfindahl(w)
  {
    SpreadIsNonnegative(w, shares / |w| as real);
    MeanSquareBound(SumBy(w, Squared()), shares, |w|);
  }

  /**
   * Concentration lies between an even spread of what is not cash over the positions and all of it at the
   * largest position's weight.
   */
  lemma ConcentrationBounds(rows: seq<Holding>, cash: real, total: real, invested: real, largest: real)
    requires rows != [] && total == TotalValue(rows, cash) > 0.0
    requires forall h | h in rows :: h.marketValue >= 0.0
    requires invested == 1.0 - cash / total
    requires SortedWeights(rows, total) != [] ==> largest == SortedWeights(rows, total)[0].weight
    ensures var w := SortedWeights(rows, total);
            && |w| == |rows|
            && SumBy(w, Share()) == invested
            && invested * invested / |rows| as real <= Herfindahl(w) <= largest * invested
  {
    var w := SortedWeights(rows, total);
    FirstIsLargest(rows, total);
    SharesAddUp(rows, cash, total);
    HerfindahlFloor(w, invested);
    SquaresBelowLargest(w, largest, invested);
  }

  lemma HerfindahlBounds(rows: seq<Holding>, cash: real, classifications: map<Id, Classification>, topN: int,
                         r: ExposureResult, invested: real)
    requires rows != [] && Calculate(rows, cash, classifications, topN) == Success(r)
    requires r.portfolioValue > 0.0 && invested == 1.0 - cash / r.portfolioValue
    ensures SumBy(r.weights, Share()) == invested
    ensures invested * invested / |rows| as real <= r.herfindahl <= r.largestWeight * invested
  {
    ConcentrationBounds(rows, cash, r.portfolioValue, invested, r.largestWeight);
  }
}
