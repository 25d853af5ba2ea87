/** Additive shocks applied to a valuation (app/scenarios/engine.py). */
module Scenarios {
  import opened Wrappers
  import opened Sorting
  import opened Sums
  import opened Text
  import opened LedgerTypes
  import opened PortfolioEngine
  import AccountSeparation
  import opened Valuation
  import opened Exposures

  datatype TargetType = Security | Market | SectorShock | Rate | Factor

  /** A shock's target text: one that parses as a UUID, in its own text form or another, or any other text. */
  datatype Target = Instrument(id: Id, canonical: bool) | Named(text: string)

  datatype ShockUnit = RelativeReturn | YieldChange | FactorMove

  datatype Shock = Shock(id: Id, targetType: TargetType, target: Target, magnitude: real, unit: ShockUnit,
                         sequence: int)

  datatype Definition = Definition(fundId: Id, name: string, version: int, shocks: seq<Shock>)

  datatype Sensitivity = Sensitivity(rateDuration: Option<real>, loadings: map<string, real>)

  /** What is known about instruments: their classification and their sensitivities. */
  datatype Reference = Reference(classifications: map<Id, Classification>, sensitivities: map<Id, Sensitivity>)

  datatype Contribution = Contribution(shockId: Id, impact: real)

  datatype PositionImpact = PositionImpact(
    instrumentId: Id,
    baselinePrice: real,
    projectedPrice: real,
    baselineValue: real,
    projectedValue: real,
    returnImpact: real,
    pnl: real,
    contributions: seq<Contribution>)

  datatype ScenarioResult = ScenarioResult(
    projected: ValuationResult,
    positions: seq<PositionImpact>,
    pnlImpact: real,
    returnImpact: real)

  datatype ScenarioError = OtherFund | InvalidScenario | NonpositivePrice(instrumentId: Id) | ReturnUndefined

  // ---------------------------------------------------------------- validation

  function UnitOf(t: TargetType): ShockUnit {
    match t
    case Security | Market | SectorShock => RelativeReturn
    case Rate => YieldChange
    case Factor => FactorMove
  }

  predicate ShockAccepted(s: Shock) {
    && s.sequence > 0
    && (s.target.Named? ==> !Blank(s.target.text))
    && (s.targetType.Security? ==> s.target.Instrument?)
    && (s.targetType.Market? ==> s.target == Named("ALL"))
    && (s.targetType.Rate? ==> s.target == Named("USD"))
    && s.unit == UnitOf(s.targetType)
  }

  predicate Accepted(d: Definition) {
    && d.version > 0 && !Blank(d.name)
    && (forall i, j | 0 <= i < j < |d.shocks| :: d.shocks[i].sequence != d.shocks[j].sequence)
    && (forall i | 0 <= i < |d.shocks| :: ShockAccepted(d.shocks[i]))
  }

  // ---------------------------------------------------------------- impact on one position

  /** The return a shock adds to an instrument, or none when it does not apply. */
  function Impact(ref: Reference, instrumentId: Id, s: Shock): Option<real> {
    match s.targetType
    case Security => if s.target == Instrument(instrumentId, true) then Some(s.magnitude) else None
    case Market => Some(s.magnitude)
    case SectorShock =>
      if instrumentId in ref.classifications && Named(ref.classifications[instrumentId].sector) == s.target
      then Some(s.magnitude) else None
    case Rate =>
      if instrumentId !in ref.sensitivities || ref.sensitivities[instrumentId].rateDuration.None? then None
      else Some(-ref.sensitivities[instrumentId].rateDuration.value * s.magnitude)
    case Factor =>
      if instrumentId !in ref.sensitivities || s.target.Instrument?
        || s.target.text !in ref.sensitivities[instrumentId].loadings
      then None
      else Some(ref.sensitivities[instrumentId].loadings[s.target.text] * s.magnitude)
  }

  predicate ShockLe(a: Shock, b: Shock) {
    a.sequence < b.sequence || (a.sequence == b.sequence && a.id <= b.id)
  }

  function Contributions(ref: Reference, instrumentId: Id, shocks: seq<Shock>): seq<Contribution> {
    if shocks == [] then []
    else
      var last := shocks[|shocks| - 1];
      var impact := Impact(ref, instrumentId, last);
      var front := Contributions(ref, instrumentId, shocks[..|shocks| - 1]);
      if impact.None? then front else front + [Contribution(last.id, impact.value)]
  }

  function Amount(): Contribution -> real {
    (c: Contribution) => c.impact
  }

  function ReturnOf(contributions: seq<Contribution>): real {
    SumBy(contributions, Amount())
  }

  function Ordered(d: Definition): seq<Shock> {
    SortBy(ShockLe, d.shocks)
  }

  /** The combined return of a scenario on an instrument. */
  function ReturnImpact(ref: Reference, d: Definition, instrumentId: Id): real {
    ReturnOf(Contributions(ref, instrumentId, Ordered(d)))
  }

  function Project(x: real, r: real): real {
    x * (1.0 + r)
  }

  function ImpactOn(p: PositionValuation, r: real, contributions: seq<Contribution>): PositionImpact {
    PositionImpact(p.instrumentId, p.price, Project(p.price, r), p.marketValue, Project(p.marketValue, r), r,
                   Project(p.marketValue, r) - p.marketValue, contributions)
  }

  function Projected(p: PositionValuation, r: real): PositionValuation {
    p.(price := Project(p.price, r),
       marketValue := Project(p.marketValue, r),
       unrealized := if p.costBasis.None? then None else Some(Project(p.marketValue, r) - p.costBasis.value))
  }

  // ---------------------------------------------------------------- the whole portfolio

  function Impacts(ref: Reference, d: Definition, positions: seq<PositionValuation>): (r: seq<PositionImpact>)
    ensures |r| == |positions|
  {
    if positions == [] then []
    else
      var p := positions[|positions| - 1];
      var contributions := Contributions(ref, p.instrumentId, Ordered(d));
      Impacts(ref, d, positions[..|positions| - 1]) + [ImpactOn(p, ReturnOf(contributions), contributions)]
  }

  function ProjectedPositions(ref: Reference, d: Definition, positions: seq<PositionValuation>)
    : (r: seq<PositionValuation>)
    ensures |r| == |positions|
  {
    if positions == [] then []
    else
      var p := positions[|positions| - 1];
      ProjectedPositions(ref, d, positions[..|positions| - 1]) + [Projected(p, ReturnImpact(ref, d, p.instrumentId))]
  }

  /** The first position whose combined return would leave no positive price. */
  function FirstWipedOut(ref: Reference, d: Definition, positions: seq<PositionValuation>): (r: Option<Id>)
    ensures r.None? <==> forall p | p in positions :: ReturnImpact(ref, d, p.instrumentId) > -1.0
  {
    if positions == [] then None
    else
      var front := FirstWipedOut(ref, d, positions[..|positions| - 1]);
      var id := positions[|positions| - 1].instrumentId;
      assert positions == positions[..|positions| - 1] + [positions[|positions| - 1]];
      if front.Some? then front else if ReturnImpact(ref, d, id) <= -1.0 then Some(id) else None
  }

  function Pnl(): PositionImpact -> real {
    (p: PositionImpact) => p.pnl
  }

  function UnrealizedTotal(positions: seq<PositionValuation>): Option<real> {
    if exists p :: p in positions && p.unrealized.None? then None else Some(SumBy(positions, Unrealized()))
  }

  function ProjectedValuation(v: ValuationResult, projected: seq<PositionValuation>): ValuationResult {
    var securities := SumBy(projected, MarketValue());
    v.(securitiesValue := securities, portfolioValue := v.cashValue + securities,
       unrealized := UnrealizedTotal(projected), positions := projected)
  }

  function ApplyError(v: ValuationResult, d: Definition, ref: Reference): Option<ScenarioError> {
    if d.fundId != v.fundId then Some(OtherFund)
    else if !Accepted(d) then Some(InvalidScenario)
    else
      var wiped := FirstWipedOut(ref, d, v.positions);
      if wiped.Some? then Some(NonpositivePrice(wiped.value))
      else if v.portfolioValue == 0.0 then Some(ReturnUndefined)
      else None
  }

  /** `ScenarioEngine.apply`, specified as sums over positions and shocks. */
  function Apply(v: ValuationResult, d: Definition, ref: Reference): Result<ScenarioResult, ScenarioError> {
    var problem := ApplyError(v, d, ref);
    if problem.Some? then Failure(problem.value)
    else
      var projected := ProjectedValuation(v, ProjectedPositions(ref, d, v.positions));
      var pnl := projected.securitiesValue - v.securitiesValue;
      Success(ScenarioResult(projected, Impacts(ref, d, v.positions), pnl, pnl / v.portfolioValue))
  }

  method RunContributions(ref: Reference, instrumentId: Id, d: Definition) returns (contributions: seq<Contribution>)
    ensures contributions == Contributions(ref, instrumentId, Ordered(d))
  {
    contributions := [];
    var shocks := SortBy(ShockLe, d.shocks);
    for i := 0 to |shocks|
      invariant contributions == Contributions(ref, instrumentId, shocks[..i])
    {
      var impact := Impact(ref, instrumentId, shocks[i]);
      if impact.Some? {
        contributions := contributions + [Contribution(shocks[i].id, impact.value)];
      }
      assert shocks[..i + 1][..i] == shocks[..i];
    }
    assert shocks[..|shocks|] == shocks;
  }

  /** Project every position, or stop at the first that would lose all its value. */
  method RunPositions(positions: seq<PositionValuation>, d: Definition, ref: Reference)
    returns (impacts: seq<PositionImpact>, projected: seq<PositionValuation>, wiped: Option<Id>)
    ensures wiped == FirstWipedOut(ref, d, positions)
    ensures wiped.None? ==> impacts == Impacts(ref, d, positions) && projected == ProjectedPositions(ref, d, positions)
  {
    impacts, projected, wiped := [], [], None;
    for i := 0 to |positions|
      invariant FirstWipedOut(ref, d, positions[..i]).None?
      invariant impacts == Impacts(ref, d, positions[..i])
      invariant projected == ProjectedPositions(ref, d, positions[..i])
    {
      var p := positions[i];
      var contributions := RunContributions(ref, p.instrumentId, d);
      var r := ReturnOf(contributions);
      NextPosition(ref, d, positions, i, contributions);
      if r <= -1.0 {
        return impacts, projected, Some(p.instrumentId);
      }
      impacts := impacts + [ImpactOn(p, r, contributions)];
      projected := projected + [Projected(p, r)];
    }
    assert positions[..|positions|] == positions;
  }

  lemma NextPosition(ref: Reference, d: Definition, positions: seq<PositionValuation>, i: nat,
                     contributions: seq<Contribution>)
    requires i < |positions| && FirstWipedOut(ref, d, positions[..i]).None?
    requires contributions == Contributions(ref, positions[i].instrumentId, Ordered(d))
    ensures var p, r := positions[i], ReturnOf(contributions);
            && Impacts(ref, d, positions[..i + 1]) == Impacts(ref, d, positions[..i]) + [ImpactOn(p, r, contributions)]
            && ProjectedPositions(ref, d, positions[..i + 1]) ==
                 ProjectedPositions(ref, d, positions[..i]) + [Projected(p, r)]
            && (r > -1.0 ==> FirstWipedOut(ref, d, positions[..i + 1]).None?)
            && (r <= -1.0 ==> FirstWipedOut(ref, d, positions) == Some(p.instrumentId))
  {
    assert positions[..i + 1][..i] == positions[..i];
    if ReturnOf(contributions) <= -1.0 {
      FirstStaysFirst(ref, d, positions, i + 1);
    }
  }

  lemma {:induction false} FirstStaysFirst(ref: Reference, d: Definition, positions: seq<PositionValuation>, n: nat)
    requires n <= |positions| && FirstWipedOut(ref, d, positions[..n]).Some?
    ensures FirstWipedOut(ref, d, positions) == FirstWipedOut(ref, d, positions[..n])
    decreases |positions|
  {
    if n == |positions| {
      assert positions[..n] == positions;
    } else {
      assert positions[..|positions| - 1][..n] == positions[..n];
      FirstStaysFirst(ref, d, positions[..|positions| - 1], n);
    }
  }

  method RunApply(v: ValuationResult, d: Definition, ref: Reference) returns (r: Result<ScenarioResult, ScenarioError>)
    ensures r == Apply(v, d, ref)
  {
    if d.fundId != v.fundId {
      return Failure(OtherFund);
    }
    if !Accepted(d) {
      return Failure(InvalidScenario);
    }
    var impacts, projected, wiped := RunPositions(v.positions, d, ref);
    if wiped.Some? {
      return Failure(NonpositivePrice(wiped.value));
    }
    if v.portfolioValue == 0.0 {
      return Failure(ReturnUndefined);
    }
    var valuation := ProjectedValuation(v, projected);
    var pnl := valuation.securitiesValue - v.securitiesValue;
    return Success(ScenarioResult(valuation, impacts, pnl, pnl / v.portfolioValue));
  }

  // ---------------------------------------------------------------- superposition

  function Applied(ref: Reference, instrumentId: Id): Shock -> real {
    (s: Shock) => Impact(ref, instrumentId, s).GetOr(0.0)
  }

  lemma OneMoreContribution(front: seq<Contribution>, c: Contribution)
    ensures ReturnOf(front + [c]) == ReturnOf(front) + c.impact
  {
    assert (front + [c])[..|front|] == front;
  }

  lemma {:induction false} ContributionsAddUp(ref: Reference, instrumentId: Id, shocks: seq<Shock>)
    ensures ReturnOf(Contributions(ref, instrumentId, shocks)) == SumBy(shocks, Applied(ref, instrumentId))
  {
    if shocks == [] {
      assert Contributions(ref, instrumentId, shocks) == [];
    } else {
      var last := shocks[|shocks| - 1];
      var front := Contributions(ref, instrumentId, shocks[..|shocks| - 1]);
      var impact := Impact(ref, instrumentId, last);
      ContributionsAddUp(ref, instrumentId, shocks[..|shocks| - 1]);
      if impact.None? {
        assert Contributions(ref, instrumentId, shocks) == front;
      } else {
        var c := Contribution(last.id, impact.value);
        assert Contributions(ref, instrumentId, shocks) == front + [c];
        OneMoreContribution(front, c);
      }
    }
  }

  /** The return impact is the plain sum of the shocks' impacts, in whatever order they are listed. */
  lemma ImpactIsSum(ref: Reference, d: Definition, instrumentId: Id)
    ensures ReturnImpact(ref, d, instrumentId) == SumBy(d.shocks, Applied(ref, instrumentId))
  {
    assert TotalPreorder(ShockLe);
    SortBySorts(ShockLe, d.shocks);
    ContributionsAddUp(ref, instrumentId, Ordered(d));
    SumByPermutation(Ordered(d), d.shocks, Applied(ref, instrumentId));
  }

  /** Shocks superpose: a combination moves every instrument by the sum of what its parts do. */
  lemma ShocksSuperpose(ref: Reference, a: Definition, b: Definition, both: Definition, instrumentId: Id)
    requires multiset(both.shocks) == multiset(a.shocks) + multiset(b.shocks)
    ensures ReturnImpact(ref, both, instrumentId) ==
              ReturnImpact(ref, a, instrumentId) + ReturnImpact(ref, b, instrumentId)
  {
    var w := Applied(ref, instrumentId);
    ImpactIsSum(ref, a, instrumentId);
    ImpactIsSum(ref, b, instrumentId);
    ImpactIsSum(ref, both, instrumentId);
    assert multiset(a.shocks + b.shocks) == multiset(both.shocks);
    SumByPermutation(both.shocks, a.shocks + b.shocks, w);
    SumByConcat(a.shocks, b.shocks, w);
  }

  lemma ProjectAdds(x: real, r: real, s: real)
    ensures Project(x, r + s) - x == (Project(x, r) - x) + (Project(x, s) - x)
  {
    assert x * (1.0 + (r + s)) == x + x * r + x * s;
    assert x * (1.0 + r) == x + x * r;
    assert x * (1.0 + s) == x + x * s;
  }

  lemma PositionsSuperpose(ref: Reference, a: Definition, b: Definition, both: Definition, p: PositionValuation)
    requires multiset(both.shocks) == multiset(a.shocks) + multiset(b.shocks)
    ensures var r, s := ReturnImpact(ref, a, p.instrumentId), ReturnImpact(ref, b, p.instrumentId);
            Project(p.marketValue, ReturnImpact(ref, both, p.instrumentId)) - p.marketValue ==
            (Project(p.marketValue, r) - p.marketValue) + (Project(p.marketValue, s) - p.marketValue)
  {
    ShocksSuperpose(ref, a, b, both, p.instrumentId);
    ProjectAdds(p.marketValue, ReturnImpact(ref, a, p.instrumentId), ReturnImpact(ref, b, p.instrumentId));
  }

  lemma {:induction false} ValuesSuperpose(ref: Reference, a: Definition, b: Definition, both: Definition,
                                           positions: seq<PositionValuation>)
    requires multiset(both.shocks) == multiset(a.shocks) + multiset(b.shocks)
    ensures SumBy(Impacts(ref, both, positions), Pnl()) ==
            SumBy(Impacts(ref, a, positions), Pnl()) + SumBy(Impacts(ref, b, positions), Pnl())
  {
    if positions == [] {
    } else {
      var front, p := positions[..|positions| - 1], positions[|positions| - 1];
      ValuesSuperpose(ref, a, b, both, front);
      PositionsSuperpose(ref, a, b, both, p);
      ImpactsStep(ref, a, positions);
      ImpactsStep(ref, b, positions);
      ImpactsStep(ref, both, positions);
    }
  }

  lemma ImpactsStep(ref: Reference, d: Definition, positions: seq<PositionValuation>)
    requires positions != []
    ensures var front, p := positions[..|positions| - 1], positions[|positions| - 1];
            SumBy(Impacts(ref, d, positions), Pnl()) ==
            SumBy(Impacts(ref, d, front), Pnl()) +
                (Project(p.marketValue, ReturnImpact(ref, d, p.instrumentId)) - p.marketValue)
  {
    var front := positions[..|positions| - 1];
    assert Impacts(ref, d, positions)[..|front|] == Impacts(ref, d, front);
  }

  // ---------------------------------------------------------------- what each shock does

  /** A shock bears on an instrument that it names, or whose sector, duration or loading it addresses. */
  predicate Bears(ref: Reference, instrumentId: Id, s: Shock) {
    || s.targetType.Market?
    || (s.targetType.Security? && s.target == Instrument(instrumentId, true))
    || (s.targetType.SectorShock? && instrumentId in ref.classifications
        && Named(ref.classifications[instrumentId].sector) == s.target)
    || (s.targetType.Rate? && instrumentId in ref.sensitivities && ref.sensitivities[instrumentId].rateDuration.Some?)
    || (s.targetType.Factor? && instrumentId in ref.sensitivities && s.target.Named?
        && s.target.text in ref.sensitivities[instrumentId].loadings)
  }

  function OfMagnitude(s: Shock, m: real): Shock {
    s.(magnitude := m)
  }

  lemma Linear(a: real, x: real, y: real, k: real)
    ensures a * (k * x + y) == k * (a * x) + a * y
  {
  }

  /** The impact is linear in the magnitude: it adds up over added magnitudes and scales with a factor. */
  lemma ImpactIsLinear(ref: Reference, instrumentId: Id, s: Shock, x: real, y: real, k: real)
    ensures var f := (m: real) => Impact(ref, instrumentId, OfMagnitude(s, m));
            && (f(x).Some? <==> f(y).Some?) && (f(x).Some? <==> f(k * x + y).Some?)
            && (f(x).Some? ==> f(k * x + y).value == k * f(x).value + f(y).value)
  {
    if s.targetType.Rate? && instrumentId in ref.sensitivities && ref.sensitivities[instrumentId].rateDuration.Some? {
      Linear(-ref.sensitivities[instrumentId].rateDuration.value, x, y, k);
    } else if s.targetType.Factor? && instrumentId in ref.sensitivities && s.target.Named?
              && s.target.text in ref.sensitivities[instrumentId].loadings {
      Linear(ref.sensitivities[instrumentId].loadings[s.target.text], x, y, k);
    }
  }

  lemma {:induction false} NothingApplies(ref: Reference, instrumentId: Id, shocks: seq<Shock>)
    requires forall s | s in shocks :: !Bears(ref, instrumentId, s)
    ensures SumBy(shocks, Applied(ref, instrumentId)) == 0.0
  {
    if shocks == [] {
    } else {
      assert shocks[|shocks| - 1] in shocks;
      NothingApplies(ref, instrumentId, shocks[..|shocks| - 1]);
    }
  }

  /** A position that no shock bears on keeps its price and value. */
  lemma UnaddressedIsUntouched(ref: Reference, d: Definition, p: PositionValuation)
    requires forall s | s in d.shocks :: !Bears(ref, p.instrumentId, s)
    ensures ReturnImpact(ref, d, p.instrumentId) == 0.0
    ensures Projected(p, 0.0).price == p.price && Projected(p, 0.0).marketValue == p.marketValue
  {
    ImpactIsSum(ref, d, p.instrumentId);
    NothingApplies(ref, p.instrumentId, d.shocks);
  }

  // ---------------------------------------------------------------- conservation

  lemma ProjectedStep(ref: Reference, d: Definition, positions: seq<PositionValuation>)
    requires positions != []
    ensures var front, p := positions[..|positions| - 1], positions[|positions| - 1];
            SumBy(ProjectedPositions(ref, d, positions), MarketValue()) ==
            SumBy(ProjectedPositions(ref, d, front), MarketValue()) +
                Project(p.marketValue, ReturnImpact(ref, d, p.instrumentId))
  {
    var front := positions[..|positions| - 1];
    assert ProjectedPositions(ref, d, positions)[..|front|] == ProjectedPositions(ref, d, front);
  }

  /** What the positions gain is the difference of the two totals. */
  lemma {:induction false} GainsAreConserved(ref: Reference, d: Definition, positions: seq<PositionValuation>)
    ensures SumBy(Impacts(ref, d, positions), Pnl()) ==
            SumBy(ProjectedPositions(ref, d, positions), MarketValue()) - SumBy(positions, MarketValue())
  {
    if positions == [] {
    } else {
      GainsAreConserved(ref, d, positions[..|positions| - 1]);
      ImpactsStep(ref, d, positions);
      ProjectedStep(ref, d, positions);
    }
  }

  /** A valuation whose totals are the sums `ValuationEngine.value` establishes. */
  predicate Consistent(v: ValuationResult) {
    v.securitiesValue == SumBy(v.positions, MarketValue()) && v.portfolioValue == v.cashValue + v.securitiesValue
  }

  /** Portfolio P&L is the sum of the positions' P&L, and is what the portfolio value moves by. */
  lemma PortfolioGainsAreConserved(v: ValuationResult, d: Definition, ref: Reference, r: ScenarioResult)
    requires Consistent(v) && Apply(v, d, ref) == Success(r)
    ensures r.pnlImpact == SumBy(r.positions, Pnl())
    ensures r.projected.portfolioValue == v.portfolioValue + r.pnlImpact
    ensures Consistent(r.projected) && r.projected.cashValue == v.cashValue
  {
    GainsAreConserved(ref, d, v.positions);
  }

  /** Over scenarios: portfolio P&L of a combined shock set is the sum of the parts'. */
  lemma PortfolioGainsSuperpose(v: ValuationResult, ref: Reference, a: Definition, b: Definition, both: Definition,
                                ra: ScenarioResult, rb: ScenarioResult, rBoth: ScenarioResult)
    requires Consistent(v) && multiset(both.shocks) == multiset(a.shocks) + multiset(b.shocks)
    requires Apply(v, a, ref) == Success(ra) && Apply(v, b, ref) == Success(rb) && Apply(v, both, ref) == Success(rBoth)
    ensures rBoth.pnlImpact == ra.pnlImpact + rb.pnlImpact
  {
    PortfolioGainsAreConserved(v, a, ref, ra);
    PortfolioGainsAreConserved(v, b, ref, rb);
    PortfolioGainsAreConserved(v, both, ref, rBoth);
    ValuesSuperpose(ref, a, b, both, v.positions);
  }

  // ---------------------------------------------------------------- prices and gains

  lemma ProjectKeepsPositive(x: real, r: real)
    requires x > 0.0 && r > -1.0
    ensures Project(x, r) > 0.0
  {
  }

  lemma {:induction false} ImpactsAre(ref: Reference, d: Definition, positions: seq<PositionValuation>, i: nat)
    requires i < |positions|
    ensures var contributions := Contributions(ref, positions[i].instrumentId, Ordered(d));
            Impacts(ref, d, positions)[i] == ImpactOn(positions[i], ReturnOf(contributions), contributions)
    ensures ProjectedPositions(ref, d, positions)[i] ==
              Projected(positions[i], ReturnImpact(ref, d, positions[i].instrumentId))
    decreases |positions|
  {
    if i < |positions| - 1 {
      ImpactsAre(ref, d, positions[..|positions| - 1], i);
    }
  }

  /** A scenario moves a position's price, value and unrealized gain, and nothing else about it. */
  lemma HoldingsAreUntouched(v: ValuationResult, d: Definition, ref: Reference, r: ScenarioResult, i: nat)
    requires Apply(v, d, ref) == Success(r) && i < |v.positions|
    ensures |r.projected.positions| == |v.positions|
    ensures var p, q := v.positions[i], r.projected.positions[i];
            && q.accountId == p.accountId && q.instrumentId == p.instrumentId
            && q.quantity == p.quantity && q.costBasis == p.costBasis
    ensures r.projected.cashValue == v.cashValue && r.projected.realized == v.realized
    ensures r.projected.inputRecord == v.inputRecord
  {
    ImpactsAre(ref, d, v.positions, i);
  }

  /** An accepted scenario leaves every positive price positive. */
  lemma PricesStayPositive(v: ValuationResult, d: Definition, ref: Reference, r: ScenarioResult, i: nat)
    requires Apply(v, d, ref) == Success(r) && i < |v.positions| && v.positions[i].price > 0.0
    ensures r.positions[i].projectedPrice > 0.0 && r.projected.positions[i].price == r.positions[i].projectedPrice
  {
    ImpactsAre(ref, d, v.positions, i);
    assert v.positions[i] in v.positions;
    ProjectKeepsPositive(v.positions[i].price, ReturnImpact(ref, d, v.positions[i].instrumentId));
  }

  /** A scenario is refused for a price exactly when some position's impacts add up to a loss of everything. */
  lemma RefusedExactlyWhenWipedOut(v: ValuationResult, d: Definition, ref: Reference)
    requires d.fundId == v.fundId && Accepted(d)
    ensures var r := Apply(v, d, ref);
            r.Failure? && r.error.NonpositivePrice? <==>
            exists p :: p in v.positions && SumBy(d.shocks, Applied(ref, p.instrumentId)) <= -1.0
  {
    forall p | p in v.positions
      ensures ReturnImpact(ref, d, p.instrumentId) == SumBy(d.shocks, Applied(ref, p.instrumentId))
    {
      ImpactIsSum(ref, d, p.instrumentId);
    }
  }

  /**
   * The portfolio return divides by the baseline value without a check. Among scenarios that get that far, the
   * division is undefined exactly when that value is zero.
   */
  lemma ReturnUndefinedExactlyOnZeroValue(v: ValuationResult, d: Definition, ref: Reference)
    ensures Apply(v, d, ref) == Failure(ReturnUndefined) <==>
            && d.fundId == v.fundId && Accepted(d)
            && (forall p | p in v.positions :: SumBy(d.shocks, Applied(ref, p.instrumentId)) > -1.0)
            && v.portfolioValue == 0.0
  {
    forall p | p in v.positions
      ensures ReturnImpact(ref, d, p.instrumentId) == SumBy(d.shocks, Applied(ref, p.instrumentId))
    {
      ImpactIsSum(ref, d, p.instrumentId);
    }
  }

  lemma EmptyState(fundId: Id, asOf: Instant)
    ensures Reconstruct(fundId, [], asOf, None).Success?
    ensures var state := Reconstruct(fundId, [], asOf, None).value;
            state.fundId == fundId && state.cash == 0.0 && state.positions == []
  {
    assert PortfolioEngine.Ordered([], asOf, None) == [];
    assert Replay([]) == Success(EMPTY_BOOKS);
    var state := Reconstruct(fundId, [], asOf, None).value;
    AccountSeparation.ReportedCash(fundId, None, asOf, [], EMPTY_BOOKS);
    assert EMPTY_BOOKS.positions.Keys == {} && SortedKeys({}) == [];
    assert state.positions == [];
  }

  /** It is so for every accepted scenario of the fund on the valuation of an empty ledger. */
  lemma EmptyLedgerHasNoReturn(fundId: Id, asOf: Instant, quotes: map<Id, PriceQuote>, realized: Option<real>,
                               v: ValuationResult, d: Definition, ref: Reference)
    requires Reconstruct(fundId, [], asOf, None).Success?
    requires IsValuation(Reconstruct(fundId, [], asOf, None).value, quotes, realized, v)
    requires d.fundId == fundId && Accepted(d)
    ensures Apply(v, d, ref) == Failure(ReturnUndefined)
  {
    EmptyState(fundId, asOf);
    assert v.positions == [];
    ReturnUndefinedExactlyOnZeroValue(v, d, ref);
  }

  /** Each position with a known basis whose unrealized gain is its value over that basis. */
  ghost predicate GainsFollowBasis(positions: seq<PositionValuation>) {
    forall p | p in positions ::
        p.unrealized == if p.costBasis.None? then None else Some(p.marketValue - p.costBasis.value)
  }

  lemma {:induction false} UnknownStaysUnknown(ref: Reference, d: Definition, positions: seq<PositionValuation>)
    requires GainsFollowBasis(positions)
    ensures (exists p :: p in ProjectedPositions(ref, d, positions) && p.unrealized.None?) <==>
            (exists p :: p in positions && p.unrealized.None?)
  {
    if positions == [] {
    } else {
      var front, p := positions[..|positions| - 1], positions[|positions| - 1];
      var before, q := ProjectedPositions(ref, d, front), Projected(p, ReturnImpact(ref, d, p.instrumentId));
      UnknownStaysUnknown(ref, d, front);
      assert positions == front + [p] && p in positions;
      assert ProjectedPositions(ref, d, positions) == before + [q];
      assert q.unrealized.None? <==> p.unrealized.None?;
    }
  }

  lemma UnrealizedOfOne(p: PositionValuation, r: real)
    requires p.unrealized == if p.costBasis.None? then None else Some(p.marketValue - p.costBasis.value)
    ensures p.unrealized.Some? ==>
              Projected(p, r).unrealized == Some(p.unrealized.value + (Project(p.marketValue, r) - p.marketValue))
  {
  }

  lemma {:induction false} UnrealizedMoves(ref: Reference, d: Definition, positions: seq<PositionValuation>)
    requires GainsFollowBasis(positions) && forall p | p in positions :: p.unrealized.Some?
    ensures SumBy(ProjectedPositions(ref, d, positions), Unrealized()) ==
            SumBy(positions, Unrealized()) + SumBy(Impacts(ref, d, positions), Pnl())
  {
    if positions == [] {
    } else {
      var front, p := positions[..|positions| - 1], positions[|positions| - 1];
      UnrealizedMoves(ref, d, front);
      ImpactsStep(ref, d, positions);
      UnrealizedOfOne(p, ReturnImpact(ref, d, p.instrumentId));
      assert ProjectedPositions(ref, d, positions)[..|front|] == ProjectedPositions(ref, d, front);
    }
  }

  lemma UnrealizedTotals(ref: Reference, d: Definition, positions: seq<PositionValuation>)
    requires GainsFollowBasis(positions)
    ensures var before, after := UnrealizedTotal(positions), UnrealizedTotal(ProjectedPositions(ref, d, positions));
            && (after.Some? <==> before.Some?)
            && (before.Some? ==> after.value == before.value + SumBy(Impacts(ref, d, positions), Pnl()))
  {
    UnknownStaysUnknown(ref, d, positions);
    if UnrealizedTotal(positions).Some? {
      UnrealizedMoves(ref, d, positions);
    }
  }

  /** The unrealized gain is known after the scenario exactly when it was before, and moves by the P&L. */
  lemma UnrealizedGainMovesByPnl(v: ValuationResult, d: Definition, ref: Reference, r: ScenarioResult)
    requires Consistent(v) && GainsFollowBasis(v.positions) && v.unrealized == UnrealizedTotal(v.positions)
    requires Apply(v, d, ref) == Success(r)
    ensures r.projected.unrealized.Some? <==> v.unrealized.Some?
    ensures v.unrealized.Some? ==> r.projected.unrealized.value == v.unrealized.value + r.pnlImpact
  {
    UnrealizedTotals(ref, d, v.positions);
    PortfolioGainsAreConserved(v, d, ref, r);
  }

  /** The valuations the engine produces satisfy what the conservation laws ask for. */
  lemma ValuationsAreConsistent(state: PortfolioState, quotes: map<Id, PriceQuote>, realized: Option<real>,
                                v: ValuationResult)
    requires IsValuation(state, quotes, realized, v)
    ensures Consistent(v) && GainsFollowBasis(v.positions) && v.unrealized == UnrealizedTotal(v.positions)
  {
    forall p | p in v.positions
      ensures p.unrealized == if p.costBasis.None? then None else Some(p.marketValue - p.costBasis.value)
    {
      var i :| 0 <= i < |v.positions| && v.positions[i] == p;
    }
  }
}
