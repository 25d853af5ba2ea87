/** Exposure before and after a scenario, category by category (app/scenarios/comparison.py). */
module Comparison {
  import opened Wrappers
  import opened Sorting
  import opened Sums
  import opened LedgerTypes
  import opened Exposures

  datatype ExposureChange = ExposureChange(dimension: Dimension, category: string, before: real, after: real,
                                           change: real)

  function WeightsByCategory(rows: seq<CategoryExposure>): map<string, real> {
    if rows == [] then map[]
    else WeightsByCategory(rows[..|rows| - 1])[rows[|rows| - 1].category := rows[|rows| - 1].weight]
  }

  function ChangeOf(d: Dimension, first: map<string, real>, second: map<string, real>, category: string): ExposureChange
  {
    var before := if category in first then first[category] else 0.0;
    var after := if category in second then second[category] else 0.0;
    ExposureChange(d, category, before, after, after - before)
  }

  function ChangesOver(d: Dimension, first: map<string, real>, second: map<string, real>, names: seq<string>)
    : seq<ExposureChange>
  {
    if names == [] then []
    else ChangesOver(d, first, second, names[..|names| - 1]) + [ChangeOf(d, first, second, names[|names| - 1])]
  }

  /** One change per category that appears on either side, in name order. */
  function DimensionChanges(d: Dimension, before: seq<CategoryExposure>, after: seq<CategoryExposure>)
    : seq<ExposureChange>
  {
    var first, second := WeightsByCategory(before), WeightsByCategory(after);
    ChangesOver(d, first, second, SortedNames(first.Keys + second.Keys))
  }

  function RowsOf(r: ExposureResult, d: Dimension): seq<CategoryExposure> {
    match d
    case Sector => r.sectors
    case AssetClass => r.assetClasses
    case Geography => r.geographies
  }

  const DIMENSIONS := [Sector, AssetClass, Geography]

  function ChangesUpTo(before: ExposureResult, after: ExposureResult, dimensions: seq<Dimension>): seq<ExposureChange> {
    if dimensions == [] then []
    else
      var d := dimensions[|dimensions| - 1];
      ChangesUpTo(before, after, dimensions[..|dimensions| - 1]) +
          DimensionChanges(d, RowsOf(before, d), RowsOf(after, d))
  }

  method RunWeightsByCategory(rows: seq<CategoryExposure>) returns (m: map<string, real>)
    ensures m == WeightsByCategory(rows)
  {
    m := map[];
    for i := 0 to |rows|
      invariant m == WeightsByCategory(rows[..i])
    {
      m := m[rows[i].category := rows[i].weight];
      assert rows[..i + 1][..i] == rows[..i];
    }
    assert rows[..|rows|] == rows;
  }

  lemma ChangesNext(d: Dimension, first: map<string, real>, second: map<string, real>, names: seq<string>, j: nat)
    requires j < |names|
    ensures ChangesOver(d, first, second, names[..j + 1]) ==
            ChangesOver(d, first, second, names[..j]) + [ChangeOf(d, first, second, names[j])]
  {
    assert names[..j + 1][..j] == names[..j];
  }

  method RunDimension(d: Dimension, before: seq<CategoryExposure>, after: seq<CategoryExposure>)
    returns (output: seq<ExposureChange>)
    ensures output == DimensionChanges(d, before, after)
  {
    var first := RunWeightsByCategory(before);
    var second := RunWeightsByCategory(after);
    var names := SortedNames(first.Keys + second.Keys);
    output := [];
    for j := 0 to |names|
      invariant output == ChangesOver(d, first, second, names[..j])
    {
      ChangesNext(d, first, second, names, j);
      output := output + [ChangeOf(d, first, second, names[j])];
    }
    assert names[..|names|] == names;
  }

  /** `_exposure_changes`: every category of every dimension. */
  method RunExposureChanges(before: ExposureResult, after: ExposureResult) returns (output: seq<ExposureChange>)
    ensures output == ChangesUpTo(before, after, DIMENSIONS)
  {
    output := [];
    for i := 0 to |DIMENSIONS|
      invariant output == ChangesUpTo(before, after, DIMENSIONS[..i])
    {
      var changes := RunDimension(DIMENSIONS[i], RowsOf(before, DIMENSIONS[i]), RowsOf(after, DIMENSIONS[i]));
      output := output + changes;
      assert DIMENSIONS[..i + 1][..i] == DIMENSIONS[..i];
    }
    assert DIMENSIONS[..|DIMENSIONS|] == DIMENSIONS;
  }

  // ---------------------------------------------------------------- changes cancel out

  function Delta(): ExposureChange -> real {
    (c: ExposureChange) => c.change
  }

  lemma {:induction false} ChangesAreDifferences(d: Dimension, first: map<string, real>, second: map<string, real>,
                                                 names: seq<string>)
    ensures SumBy(ChangesOver(d, first, second, names), Delta()) ==
              SumBy(names, ValueIn(second)) - SumBy(names, ValueIn(first))
  {
    if names == [] {
    } else {
      var front := ChangesOver(d, first, second, names[..|names| - 1]);
      ChangesAreDifferences(d, first, second, names[..|names| - 1]);
      assert ChangesOver(d, first, second, names)[..|front|] == front;
    }
  }

  /** The changes of a dimension add up to the difference of the two totals. */
  lemma ChangesTotal(d: Dimension, before: seq<CategoryExposure>, after: seq<CategoryExposure>)
    ensures SumBy(DimensionChanges(d, before, after), Delta()) ==
            SumMap(WeightsByCategory(after)) - SumMap(WeightsByCategory(before))
  {
    var first, second := WeightsByCategory(before), WeightsByCategory(after);
    var names := SortedNames(first.Keys + second.Keys);
    ChangesAreDifferences(d, first, second, names);
    SumMapListing(first, names, ValueIn(first));
    SumMapListing(second, names, ValueIn(second));
  }

  /** Rows whose weights are given by their category. */
  ghost predicate WeighedBy(rows: seq<CategoryExposure>, weights: map<string, real>) {
    forall r | r in rows :: r.category in weights && r.weight == weights[r.category]
  }

  lemma {:induction false} WeightsAreKept(rows: seq<CategoryExposure>, weights: map<string, real>)
    requires WeighedBy(rows, weights)
    ensures forall c :: c in WeightsByCategory(rows) <==> exists r :: r in rows && r.category == c
    ensures forall c | c in WeightsByCategory(rows) :: c in weights && WeightsByCategory(rows)[c] == weights[c]
  {
    if rows == [] {
    } else {
      var front, last := rows[..|rows| - 1], rows[|rows| - 1];
      assert rows == front + [last];
      assert forall r :: r in rows <==> r in front || r == last;
      WeightsAreKept(front, weights);
      forall c
        ensures c in WeightsByCategory(rows) <==> exists r :: r in rows && r.category == c
      {
        assert c == last.category ==> last in rows;
      }
    }
  }

  lemma {:induction false} ListedCategories(names: seq<string>, m: map<string, real>, total: real,
                                            weights: map<string, real>)
    requires total > 0.0 && (forall c | c in names :: c in m)
    requires forall c | c in m :: c in weights && weights[c] == m[c] / total
    ensures WeighedBy(ListCategories(names, m, total), weights)
    ensures forall c | c in names :: exists r :: r in ListCategories(names, m, total) && r.category == c
    ensures SumBy(ListCategories(names, m, total), Weight()) == SumBy(names, ValueIn(weights))
  {
    if names == [] {
    } else {
      var front, last := names[..|names| - 1], names[|names| - 1];
      var listed := ListCategories(front, m, total);
      ListedCategories(front, m, total, weights);
      assert names == front + [last];
      assert ListCategories(names, m, total) == listed + [CategoryExposure(last, m[last], m[last] / total)];
      assert ListCategories(names, m, total)[..|listed|] == listed;
    }
  }

  function Weights(m: map<string, real>, total: real): map<string, real>
    requires total > 0.0
  {
    map c | c in m :: m[c] / total
  }

  lemma SortedRows(m: map<string, real>, total: real)
    requires total > 0.0
    ensures forall r :: r in Categories(m, total) <==> r in ListCategories(SortedNames(m.Keys), m, total)
  {
    var listed := ListCategories(SortedNames(m.Keys), m, total);
    SortByPermutes(CategoryLe, listed);
    SameElements(Categories(m, total), listed);
  }

  /** Reading the category rows back gives the weight of every category. */
  lemma CategoriesReadBack(m: map<string, real>, total: real)
    requires total > 0.0
    ensures WeightsByCategory(Categories(m, total)) == Weights(m, total)
  {
    var names := SortedNames(m.Keys);
    var rows := Categories(m, total);
    ListedCategories(names, m, total, Weights(m, total));
    SortedRows(m, total);
    WeightsAreKept(rows, Weights(m, total));
    forall c | c in m
      ensures c in WeightsByCategory(rows)
    {
      assert c in names;
      var r :| r in ListCategories(names, m, total) && r.category == c;
      assert r in rows;
    }
    SameEntries(WeightsByCategory(rows), Weights(m, total));
  }

  lemma SameEntries(a: map<string, real>, b: map<string, real>)
    requires (forall c | c in a :: c in b && a[c] == b[c]) && forall c | c in b :: c in a
    ensures a == b
  {
  }

  lemma WeightsAddUp(m: map<string, real>, total: real)
    requires total > 0.0 && SumMap(m) == total
    ensures SumMap(WeightsByCategory(Categories(m, total))) == 1.0
  {
    var names := SortedNames(m.Keys);
    CategoriesReadBack(m, total);
    CategoryWeightsAddUp(m, total);
    SortedCategories(m, total);
    ListedCategories(names, m, total, Weights(m, total));
    SumMapListing(Weights(m, total), names, ValueIn(Weights(m, total)));
  }

  lemma DimensionWeightsAddUp(rows: seq<Holding>, cash: real, classifications: map<Id, Classification>, d: Dimension,
                              total: real)
    requires total == TotalValue(rows, cash) > 0.0
    ensures SumMap(WeightsByCategory(Categories(InDimension(rows, cash, classifications, d), total))) == 1.0
  {
    BreakdownTotal(rows, classifications, d);
    AddedTotal(Breakdown(rows, classifications, d), CASH, cash);
    WeightsAddUp(InDimension(rows, cash, classifications, d), total);
  }

  lemma ReadBackAddsUp(rows: seq<Holding>, cash: real, classifications: map<Id, Classification>, topN: int,
                       d: Dimension, r: ExposureResult)
    requires Calculate(rows, cash, classifications, topN) == Success(r)
    ensures SumMap(WeightsByCategory(RowsOf(r, d))) == 1.0
  {
    DimensionWeightsAddUp(rows, cash, classifications, d, r.portfolioValue);
  }

  /** Between any two calculated exposures the changes of each dimension cancel out. */
  lemma ChangesCancel(rows: seq<Holding>, cash: real, classifications: map<Id, Classification>, topN: int,
                      before: ExposureResult, laterRows: seq<Holding>, laterCash: real,
                      laterClassifications: map<Id, Classification>, laterTopN: int, after: ExposureResult,
                      d: Dimension)
    requires Calculate(rows, cash, classifications, topN) == Success(before)
    requires Calculate(laterRows, laterCash, laterClassifications, laterTopN) == Success(after)
    ensures SumBy(DimensionChanges(d, RowsOf(before, d), RowsOf(after, d)), Delta()) == 0.0
  {
    ReadBackAddsUp(rows, cash, classifications, topN, d, before);
    ReadBackAddsUp(laterRows, laterCash, laterClassifications, laterTopN, d, after);
    ChangesTotal(d, RowsOf(before, d), RowsOf(after, d));
  }
}
