/** What exposures and their comparison report, in the fields of the holdings, the classifications and the rows. */
module ExposureFields {
  import opened Wrappers
  import opened Sorting
  import opened Sums
  import opened Text
  import opened LedgerTypes
  import opened Exposures
  import opened Comparison

  // ---------------------------------------------------------------- what is accepted

  /** What is refused, and why, in the order the arguments are checked. */
  lemma RefusedExactly(rows: seq<Holding>, cash: real, classifications: map<Id, Classification>, topN: int)
    ensures var r := Calculate(rows, cash, classifications, topN);
            if cash < 0.0 || exists h :: h in rows && h.marketValue < 0.0 then r == Failure(NegativeValue)
            else if topN <= 0 then r == Failure(TopNotPositive)
            else if cash + SumBy(rows, Value()) <= 0.0 then r == Failure(ValueNotPositive)
            else r.Success?
  {
  }

  // ---------------------------------------------------------------- weights

  function Holdings(weights: seq<PositionWeight>): (r: seq<Holding>) {
    seq(|weights|, i requires 0 <= i < |weights| => Holding(weights[i].instrumentId, weights[i].marketValue))
  }

  lemma {:induction false} WeightsList(rows: seq<Holding>, total: real)
    requires total > 0.0
    ensures Holdings(WeightsOf(rows, total)) == rows
  {
    if rows == [] {
    } else {
      WeightsList(rows[..|rows| - 1], total);
    }
  }

  function HoldingOf(w: PositionWeight): Holding {
    Holding(w.instrumentId, w.marketValue)
  }

  lemma {:induction false} HoldingsCount(weights: seq<PositionWeight>, others: seq<PositionWeight>)
    requires multiset(weights) == multiset(others)
    ensures multiset(Holdings(weights)) == multiset(Holdings(others))
    decreases |weights|
  {
    SameElements(weights, others);
    if weights == [] {
    } else {
      var front, w := weights[..|weights| - 1], weights[|weights| - 1];
      assert w in others;
      var i :| 0 <= i < |others| && others[i] == w;
      var rest := others[..i] + others[i + 1..];
      assert weights == front + [w];
      WithoutOne(others, i);
      SameRest(multiset(front), multiset(rest), w);
      HoldingsCount(front, rest);
      HoldingsWithout(others, i);
      assert Holdings(weights) == Holdings(front) + [HoldingOf(w)];
    }
  }

  lemma HoldingsWithout(weights: seq<PositionWeight>, i: nat)
    requires i < |weights|
    ensures multiset(Holdings(weights)) ==
            multiset(Holdings(weights[..i] + weights[i + 1..])) + multiset{HoldingOf(weights[i])}
  {
    WithoutOne(Holdings(weights), i);
    assert Holdings(weights)[..i] + Holdings(weights)[i + 1..] == Holdings(weights[..i] + weights[i + 1..]);
  }

  /** `w` is a weight of `total`, exactly. */
  predicate IsShare(weight: real, value: real, total: real) {
    weight * total == value
  }

  lemma QuotientIsShare(value: real, total: real)
    requires total > 0.0
    ensures IsShare(value / total, value, total)
  {
  }

  /** The holdings, heaviest first and then by id, each with its share of the total. */
  ghost predicate WeighsHoldings(weights: seq<PositionWeight>, rows: seq<Holding>, total: real) {
    && multiset(Holdings(weights)) == multiset(rows)
    && (forall w | w in weights :: IsShare(w.weight, w.marketValue, total))
    && forall i, j | 0 <= i < j < |weights| ::
         || weights[i].weight > weights[j].weight
         || (weights[i].weight == weights[j].weight && weights[i].instrumentId <= weights[j].instrumentId)
  }

  lemma SortedWeightsInFields(rows: seq<Holding>, total: real)
    requires total > 0.0
    ensures WeighsHoldings(SortedWeights(rows, total), rows, total)
  {
    var listed := WeightsOf(rows, total);
    var weights := SortedWeights(rows, total);
    assert TotalPreorder(WeightLe);
    SortBySorts(WeightLe, listed);
    SameElements(weights, listed);
    HoldingsCount(weights, listed);
    WeightsList(rows, total);
    WeightsAreQuotients(rows, total);
    forall w | w in weights
      ensures IsShare(w.weight, w.marketValue, total)
    {
      QuotientIsShare(w.marketValue, total);
    }
    forall i, j | 0 <= i < j < |weights|
      ensures || weights[i].weight > weights[j].weight
              || (weights[i].weight == weights[j].weight && weights[i].instrumentId <= weights[j].instrumentId)
    {
      assert WeightLe(weights[i], weights[j]);
    }
  }

  /** What an accepted portfolio's result is made of. */
  lemma ResultParts(rows: seq<Holding>, cash: real, classifications: map<Id, Classification>, topN: int,
                    r: ExposureResult)
    requires Calculate(rows, cash, classifications, topN) == Success(r)
    ensures topN > 0 && r.portfolioValue == TotalValue(rows, cash) > 0.0
    ensures r == ResultOf(r.portfolioValue, cash, SortedWeights(rows, r.portfolioValue),
                          AllDimensions(rows, cash, classifications), topN)
  {
  }

  lemma TopOfResult(total: real, cash: real, weights: seq<PositionWeight>, b: Breakdowns, topN: nat)
    requires total > 0.0
    ensures var r := ResultOf(total, cash, weights, b, topN);
            && r.cashValue == cash && r.weights == weights && r.topHoldings <= weights
            && |r.topHoldings| == (if topN < |weights| then topN else |weights|)
            && r.largestWeight == (if weights == [] then 0.0 else weights[0].weight)
  {
  }

  /** Totals, weights, top holdings and largest weight of an accepted portfolio. */
  lemma WeightsInFields(rows: seq<Holding>, cash: real, classifications: map<Id, Classification>, topN: int,
                        r: ExposureResult)
    requires Calculate(rows, cash, classifications, topN) == Success(r)
    ensures r.cashValue == cash && r.portfolioValue == cash + SumBy(rows, Value()) && topN > 0
    ensures WeighsHoldings(r.weights, rows, r.portfolioValue) && |r.weights| == |rows|
    ensures r.topHoldings <= r.weights && |r.topHoldings| == if topN < |rows| then topN else |rows|
    ensures r.largestWeight == if r.weights == [] then 0.0 else r.weights[0].weight
  {
    ResultParts(rows, cash, classifications, topN, r);
    var weights := SortedWeights(rows, r.portfolioValue);
    TopOfResult(r.portfolioValue, cash, weights, AllDimensions(rows, cash, classifications), topN);
    SizeOfWeights(rows, r.portfolioValue);
    SortedWeightsInFields(rows, r.portfolioValue);
  }

  lemma SizeOfWeights(rows: seq<Holding>, total: real)
    requires total > 0.0
    ensures |SortedWeights(rows, total)| == |rows|
  {
    SortByPermutes(WeightLe, WeightsOf(rows, total));
    SameElements(SortedWeights(rows, total), WeightsOf(rows, total));
  }

  // ---------------------------------------------------------------- categories

  function SectorOf(classifications: map<Id, Classification>): Id -> string {
    (id: Id) => if id in classifications then classifications[id].sector else "UNCLASSIFIED"
  }

  function AssetClassOf(classifications: map<Id, Classification>): Id -> string {
    (id: Id) => if id in classifications then classifications[id].assetClass else "UNCLASSIFIED"
  }

  function GeographyOf(classifications: map<Id, Classification>): Id -> string {
    (id: Id) => if id in classifications then classifications[id].geography else "UNCLASSIFIED"
  }

  /** The value of a holding that `named` puts in the category, and nothing for any other. */
  function NamedValue(named: Id -> string, c: string): Holding -> real {
    (h: Holding) => if named(h.instrumentId) == c then h.marketValue else 0.0
  }

  function CashIn(cash: real, c: string): real {
    if c == "CASH" then cash else 0.0
  }

  /** Largest first and then by name, each category once. */
  ghost predicate InOrder(listed: seq<CategoryExposure>) {
    forall i, j | 0 <= i < j < |listed| ::
      && listed[i].category != listed[j].category
      && (listed[i].marketValue > listed[j].marketValue
          || (listed[i].marketValue == listed[j].marketValue && Precedes(listed[i].category, listed[j].category)))
  }

  /** The listed categories with their values in `m`, as shares of the total. */
  ghost predicate Lists(listed: seq<CategoryExposure>, m: map<string, real>, total: real) {
    && InOrder(listed)
    && (forall e | e in listed ::
          e.category in m && e.marketValue == m[e.category] && IsShare(e.weight, e.marketValue, total))
    && (forall c | c in m :: exists e :: e in listed && e.category == c)
  }

  lemma {:induction false} ListedInFields(names: seq<string>, m: map<string, real>, total: real)
    requires total > 0.0 && (forall c | c in names :: c in m)
    requires forall i, j | 0 <= i < j < |names| :: names[i] != names[j]
    ensures var listed := ListCategories(names, m, total);
            && (forall e | e in listed ::
                  e.category in names && e.category in m && e.marketValue == m[e.category]
                  && IsShare(e.weight, e.marketValue, total))
            && (forall c | c in names :: exists e :: e in listed && e.category == c)
            && (forall i, j | 0 <= i < j < |listed| :: listed[i].category != listed[j].category)
  {
    if names == [] {
    } else {
      var front, c := names[..|names| - 1], names[|names| - 1];
      var listed := ListCategories(front, m, total);
      assert names == front + [c];
      ListedInFields(front, m, total);
      QuotientIsShare(m[c], total);
      var last := CategoryExposure(c, m[c], m[c] / total);
      assert ListCategories(names, m, total) == listed + [last];
      assert last in ListCategories(names, m, total);
      forall i | 0 <= i < |listed|
        ensures listed[i].category != c
      {
        assert listed[i] in listed;
        assert listed[i].category in front;
      }
    }
  }

  lemma CategoriesInFields(m: map<string, real>, total: real)
    requires total > 0.0
    ensures Lists(Categories(m, total), m, total)
  {
    var names := SortedNames(m.Keys);
    var listed, sorted := ListCategories(names, m, total), Categories(m, total);
    ListedInFields(names, m, total);
    CategoryOrderIsTotal();
    SortBySorts(CategoryLe, listed);
    SameElements(sorted, listed);
    forall c | c in m
      ensures exists e :: e in sorted && e.category == c
    {
      assert c in names;
      var e :| e in listed && e.category == c;
      assert e in sorted;
    }
    forall i, j | 0 <= i < j < |sorted|
      ensures sorted[i].category != sorted[j].category
      ensures sorted[i].marketValue > sorted[j].marketValue
              || (sorted[i].marketValue == sorted[j].marketValue
                  && Precedes(sorted[i].category, sorted[j].category))
    {
      assert CategoryLe(sorted[i], sorted[j]);
      OrderIsByFirstDifference(sorted[i].category, sorted[j].category);
      CategoriesStayDistinct(listed, sorted, i, j);
    }
  }

  lemma CategoriesStayDistinct(listed: seq<CategoryExposure>, sorted: seq<CategoryExposure>, i: nat, j: nat)
    requires multiset(listed) == multiset(sorted) && i < j < |sorted|
    requires forall x, y | 0 <= x < y < |listed| :: listed[x].category != listed[y].category
    ensures sorted[i].category != sorted[j].category
  {
    SameElements(listed, sorted);
    assert sorted[i] in listed && sorted[j] in listed;
    var x :| 0 <= x < |listed| && listed[x] == sorted[i];
    var y :| 0 <= y < |listed| && listed[y] == sorted[j];
    if sorted[i].category == sorted[j].category {
      assert x == y;
      TwoOccurrences(sorted, i, j);
      CategoryOnce(listed, x);
    }
  }

  lemma CategoryOnce(listed: seq<CategoryExposure>, x: nat)
    requires x < |listed| && forall i, j | 0 <= i < j < |listed| :: listed[i].category != listed[j].category
    ensures multiset(listed)[listed[x]] == 1
  {
    var s := listed;
    assert s == s[..x] + [s[x]] + s[x + 1..];
    assert forall k | 0 <= k < x :: s[..x][k] == s[k] && s[k] != s[x];
    assert s[x] !in s[..x] && s[x] !in s[x + 1..];
  }

  /** The value in a category of a dimension: the holdings so labelled, and the cash. */
  lemma ValueInCategory(rows: seq<Holding>, cash: real, classifications: map<Id, Classification>, d: Dimension,
                        c: string)
    ensures var m := InDimension(rows, cash, classifications, d);
            && (c in m <==> (c == "CASH" && cash != 0.0)
                            || exists h :: h in rows && LabelOf(classifications, d, h.instrumentId) == c)
            && (c in m ==> m[c] == SumBy(rows, Labelled(classifications, d, c)) + CashIn(cash, c))
  {
    BreakdownIsByLabel(rows, classifications, d, c);
  }

  // ---------------------------------------------------------------- the three breakdowns

  ghost predicate HasCategory(listed: seq<CategoryExposure>, c: string) {
    exists e :: e in listed && e.category == c
  }

  ghost predicate HasName(rows: seq<Holding>, named: Id -> string, c: string) {
    exists h :: h in rows && named(h.instrumentId) == c
  }

  /** The categories that `named` gives the holdings, and cash, with the value and share of each. */
  ghost predicate BreaksDown(listed: seq<CategoryExposure>, rows: seq<Holding>, cash: real, total: real,
                             named: Id -> string) {
    && InOrder(listed)
    && (forall e | e in listed ::
          && e.marketValue == SumBy(rows, NamedValue(named, e.category)) + CashIn(cash, e.category)
          && IsShare(e.weight, e.marketValue, total))
    && forall c :: HasCategory(listed, c) <==> (c == "CASH" && cash != 0.0) || HasName(rows, named, c)
  }

  lemma NamedIsLabelled(rows: seq<Holding>, classifications: map<Id, Classification>, d: Dimension,
                        named: Id -> string, c: string)
    requires forall id: Id :: named(id) == LabelOf(classifications, d, id)
    ensures SumBy(rows, NamedValue(named, c)) == SumBy(rows, Labelled(classifications, d, c))
    ensures HasName(rows, named, c) <==> exists h :: h in rows && LabelOf(classifications, d, h.instrumentId) == c
  {
    SumByAgree(rows, NamedValue(named, c), Labelled(classifications, d, c));
    if h :| h in rows && LabelOf(classifications, d, h.instrumentId) == c {
      assert named(h.instrumentId) == c;
    }
  }

  lemma DimensionBreaksDown(rows: seq<Holding>, cash: real, classifications: map<Id, Classification>, d: Dimension,
                            total: real, named: Id -> string)
    requires total > 0.0 && forall id: Id :: named(id) == LabelOf(classifications, d, id)
    ensures BreaksDown(Categories(InDimension(rows, cash, classifications, d), total), rows, cash, total, named)
  {
    var m := InDimension(rows, cash, classifications, d);
    var listed := Categories(m, total);
    CategoriesInFields(m, total);
    forall e | e in listed
      ensures e.marketValue == SumBy(rows, NamedValue(named, e.category)) + CashIn(cash, e.category)
    {
      ValueInCategory(rows, cash, classifications, d, e.category);
      NamedIsLabelled(rows, classifications, d, named, e.category);
    }
    forall c
      ensures HasCategory(listed, c) <==> (c == "CASH" && cash != 0.0) || HasName(rows, named, c)
    {
      ValueInCategory(rows, cash, classifications, d, c);
      NamedIsLabelled(rows, classifications, d, named, c);
      assert HasCategory(listed, c) <==> c in m;
    }
  }

  lemma ResultBreakdowns(rows: seq<Holding>, cash: real, classifications: map<Id, Classification>, topN: int,
                         r: ExposureResult)
    requires Calculate(rows, cash, classifications, topN) == Success(r)
    ensures r.portfolioValue > 0.0
    ensures r.sectors == Categories(InDimension(rows, cash, classifications, Sector), r.portfolioValue)
    ensures r.assetClasses == Categories(InDimension(rows, cash, classifications, AssetClass), r.portfolioValue)
    ensures r.geographies == Categories(InDimension(rows, cash, classifications, Geography), r.portfolioValue)
  {
  }

  lemma NamedByField(classifications: map<Id, Classification>)
    ensures forall id: Id :: SectorOf(classifications)(id) == LabelOf(classifications, Sector, id)
    ensures forall id: Id :: AssetClassOf(classifications)(id) == LabelOf(classifications, AssetClass, id)
    ensures forall id: Id :: GeographyOf(classifications)(id) == LabelOf(classifications, Geography, id)
  {
  }

  /** The three breakdowns of an accepted portfolio, by the sector, asset class and geography of each instrument. */
  lemma BreakdownsInFields(rows: seq<Holding>, cash: real, classifications: map<Id, Classification>, topN: int,
                           r: ExposureResult)
    requires Calculate(rows, cash, classifications, topN) == Success(r)
    ensures BreaksDown(r.sectors, rows, cash, r.portfolioValue, SectorOf(classifications))
    ensures BreaksDown(r.assetClasses, rows, cash, r.portfolioValue, AssetClassOf(classifications))
    ensures BreaksDown(r.geographies, rows, cash, r.portfolioValue, GeographyOf(classifications))
  {
    ResultBreakdowns(rows, cash, classifications, topN, r);
    NamedByField(classifications);
    var total := r.portfolioValue;
    DimensionBreaksDown(rows, cash, classifications, Sector, total, SectorOf(classifications));
    DimensionBreaksDown(rows, cash, classifications, AssetClass, total, AssetClassOf(classifications));
    DimensionBreaksDown(rows, cash, classifications, Geography, total, GeographyOf(classifications));
  }

  // ---------------------------------------------------------------- before and after

  /** The weight that the rows list for a category: that of its row, or nothing without one. */
  ghost predicate WeightIn(rows: seq<CategoryExposure>, c: string, weight: real) {
    if HasCategory(rows, c) then exists e :: e in rows && e.category == c && e.weight == weight else weight == 0.0
  }

  /** A change of the dimension, and the difference of its two sides. */
  predicate ReadsBoth(x: ExposureChange, d: Dimension) {
    x.dimension == d && x.change == x.after - x.before
  }

  /** The changes of one dimension: for each category of either side, in name order, what each side lists. */
  ghost predicate Compares(changes: seq<ExposureChange>, d: Dimension, before: seq<CategoryExposure>,
                           after: seq<CategoryExposure>) {
    && (forall x | x in changes ::
          ReadsBoth(x, d) && WeightIn(before, x.category, x.before) && WeightIn(after, x.category, x.after))
    && (forall c :: HasChange(changes, c) <==> HasCategory(before, c) || HasCategory(after, c))
    && forall i, j | 0 <= i < j < |changes| ::
         changes[i].category != changes[j].category && Precedes(changes[i].category, changes[j].category)
  }

  ghost predicate HasChange(changes: seq<ExposureChange>, c: string) {
    exists x :: x in changes && x.category == c
  }

  lemma {:induction false} ReadWeight(rows: seq<CategoryExposure>, c: string)
    ensures c in WeightsByCategory(rows) <==> HasCategory(rows, c)
    ensures WeightIn(rows, c, if c in WeightsByCategory(rows) then WeightsByCategory(rows)[c] else 0.0)
  {
    if rows == [] {
    } else {
      var front, last := rows[..|rows| - 1], rows[|rows| - 1];
      assert rows == front + [last];
      assert forall e :: e in rows <==> e in front || e == last;
      ReadWeight(front, c);
      if c == last.category {
        assert last in rows;
      } else if HasCategory(front, c) {
        var e :| e in front && e.category == c && e.weight == WeightsByCategory(front)[c];
        assert e in rows;
      }
    }
  }

  lemma {:induction false} ChangesListed(d: Dimension, first: map<string, real>, second: map<string, real>,
                                         names: seq<string>)
    ensures var changes := ChangesOver(d, first, second, names);
            && |changes| == |names|
            && forall i | 0 <= i < |names| :: changes[i] == ChangeOf(d, first, second, names[i])
  {
    if names == [] {
    } else {
      ChangesListed(d, first, second, names[..|names| - 1]);
    }
  }

  lemma ChangeInFields(d: Dimension, before: seq<CategoryExposure>, after: seq<CategoryExposure>, c: string)
    ensures var x := ChangeOf(d, WeightsByCategory(before), WeightsByCategory(after), c);
            && x.dimension == d && x.category == c && WeightIn(before, c, x.before) && WeightIn(after, c, x.after)
            && x.change == x.after - x.before
  {
    ReadWeight(before, c);
    ReadWeight(after, c);
  }

  lemma ChangedCategories(d: Dimension, before: seq<CategoryExposure>, after: seq<CategoryExposure>, c: string)
    ensures HasChange(DimensionChanges(d, before, after), c) <==> HasCategory(before, c) || HasCategory(after, c)
  {
    var first, second := WeightsByCategory(before), WeightsByCategory(after);
    var names := SortedNames(first.Keys + second.Keys);
    var changes := DimensionChanges(d, before, after);
    ChangesListed(d, first, second, names);
    ReadWeight(before, c);
    ReadWeight(after, c);
    if c in names {
      var i :| 0 <= i < |names| && names[i] == c;
      assert changes[i] in changes;
    }
    if x :| x in changes && x.category == c {
      var i :| 0 <= i < |changes| && changes[i] == x;
      assert names[i] in names;
    }
  }

  lemma ChangesRead(d: Dimension, before: seq<CategoryExposure>, after: seq<CategoryExposure>, x: ExposureChange)
    requires x in DimensionChanges(d, before, after)
    ensures ReadsBoth(x, d) && WeightIn(before, x.category, x.before) && WeightIn(after, x.category, x.after)
  {
    var first, second := WeightsByCategory(before), WeightsByCategory(after);
    var names := SortedNames(first.Keys + second.Keys);
    ChangesListed(d, first, second, names);
    var changes := DimensionChanges(d, before, after);
    var i :| 0 <= i < |changes| && changes[i] == x;
    ChangeInFields(d, before, after, names[i]);
  }

  lemma ChangesAscend(d: Dimension, before: seq<CategoryExposure>, after: seq<CategoryExposure>, i: nat, j: nat)
    requires i < j < |DimensionChanges(d, before, after)|
    ensures var changes := DimensionChanges(d, before, after);
            changes[i].category != changes[j].category && Precedes(changes[i].category, changes[j].category)
  {
    var first, second := WeightsByCategory(before), WeightsByCategory(after);
    var names := SortedNames(first.Keys + second.Keys);
    ChangesListed(d, first, second, names);
    assert names[i] != names[j] && TextLe(names[i], names[j]);
    OrderIsByFirstDifference(names[i], names[j]);
  }

  lemma DimensionCompares(d: Dimension, before: seq<CategoryExposure>, after: seq<CategoryExposure>)
    ensures Compares(DimensionChanges(d, before, after), d, before, after)
  {
    var changes := DimensionChanges(d, before, after);
    forall x | x in changes
      ensures ReadsBoth(x, d) && WeightIn(before, x.category, x.before) && WeightIn(after, x.category, x.after)
    {
      ChangesRead(d, before, after, x);
    }
    forall c
      ensures HasChange(changes, c) <==> HasCategory(before, c) || HasCategory(after, c)
    {
      ChangedCategories(d, before, after, c);
    }
    forall i, j | 0 <= i < j < |changes|
      ensures changes[i].category != changes[j].category && Precedes(changes[i].category, changes[j].category)
    {
      ChangesAscend(d, before, after, i, j);
    }
  }

  lemma ThreeDimensions(before: ExposureResult, after: ExposureResult)
    ensures ChangesUpTo(before, after, DIMENSIONS) ==
            DimensionChanges(Sector, before.sectors, after.sectors) +
            DimensionChanges(AssetClass, before.assetClasses, after.assetClasses) +
            DimensionChanges(Geography, before.geographies, after.geographies)
  {
    var one, two := [Sector], [Sector, AssetClass];
    assert one[..0] == [] && two[..1] == one && DIMENSIONS[..2] == two;
    assert ChangesUpTo(before, after, one) == DimensionChanges(Sector, before.sectors, after.sectors);
    assert ChangesUpTo(before, after, two) ==
           ChangesUpTo(before, after, one) +
           DimensionChanges(AssetClass, before.assetClasses, after.assetClasses);
  }

  /** The whole comparison: the changes of sectors, then asset classes, then geographies, each reading its own rows. */
  lemma ComparisonInFields(before: ExposureResult, after: ExposureResult)
    returns (sectors: seq<ExposureChange>, assetClasses: seq<ExposureChange>, geographies: seq<ExposureChange>)
    ensures ChangesUpTo(before, after, DIMENSIONS) == sectors + assetClasses + geographies
    ensures Compares(sectors, Sector, before.sectors, after.sectors)
    ensures Compares(assetClasses, AssetClass, before.assetClasses, after.assetClasses)
    ensures Compares(geographies, Geography, before.geographies, after.geographies)
  {
    sectors := DimensionChanges(Sector, before.sectors, after.sectors);
    assetClasses := DimensionChanges(AssetClass, before.assetClasses, after.assetClasses);
    geographies := DimensionChanges(Geography, before.geographies, after.geographies);
    ThreeDimensions(before, after);
    DimensionCompares(Sector, before.sectors, after.sectors);
    DimensionCompares(AssetClass, before.assetClasses, after.assetClasses);
    DimensionCompares(Geography, before.geographies, after.geographies);
  }
}
