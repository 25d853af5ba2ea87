/** What a scenario accepts and does, in the fields of its shocks, the positions and the instruments' sensitivities. */
module ScenarioFields {
  import opened Wrappers
  import opened Sorting
  import opened Sums
  import opened Text
  import opened LedgerTypes
  import opened Valuation
  import opened Exposures
  import opened Scenarios

  // ---------------------------------------------------------------- which scenarios are accepted

  predicate ShockFits(s: Shock) {
    && s.sequence >= 1
    && (s.target.Named? ==> !Blank(s.target.text))
    && match s.targetType
       case Market => s.target == Named("ALL") && s.unit == RelativeReturn
       case Security => s.target.Instrument? && s.unit == RelativeReturn
       case SectorShock => s.unit == RelativeReturn
       case Rate => s.target == Named("USD") && s.unit == YieldChange
       case Factor => s.unit == FactorMove
  }

  ghost predicate DefinitionFits(d: Definition) {
    && d.version >= 1 && !Blank(d.name)
    && (forall s | s in d.shocks :: ShockFits(s))
    && (forall i, j | 0 <= i < |d.shocks| && 0 <= j < |d.shocks| && d.shocks[i].sequence == d.shocks[j].sequence ::
          i == j)
  }

  lemma AcceptedFits(d: Definition)
    ensures Accepted(d) <==> DefinitionFits(d)
  {
    if DefinitionFits(d) {
      forall i | 0 <= i < |d.shocks|
        ensures ShockAccepted(d.shocks[i])
      {
        assert d.shocks[i] in d.shocks;
      }
    }
  }

  // ---------------------------------------------------------------- what each shock moves

  /** How far a shock moves an instrument: as stated, against its duration, or along its loading. */
  function MoveBy(ref: Reference, id: Id): Shock -> real {
    (s: Shock) =>
      if s.targetType == Market then s.magnitude
      else if s.targetType == Security && s.target == Instrument(id, true) then s.magnitude
      else if s.targetType == SectorShock && id in ref.classifications
              && s.target == Named(ref.classifications[id].sector) then s.magnitude
      else if s.targetType == Rate && id in ref.sensitivities && ref.sensitivities[id].rateDuration.Some?
        then -(ref.sensitivities[id].rateDuration.value * s.magnitude)
      else if s.targetType == Factor && id in ref.sensitivities && s.target.Named?
              && s.target.text in ref.sensitivities[id].loadings
        then ref.sensitivities[id].loadings[s.target.text] * s.magnitude
      else 0.0
  }

  lemma Negated(x: real, y: real)
    ensures -x * y == -(x * y)
  {
  }

  lemma AppliedIsMove(ref: Reference, id: Id, s: Shock)
    ensures Applied(ref, id)(s) == MoveBy(ref, id)(s)
  {
    if s.targetType == Rate && id in ref.sensitivities && ref.sensitivities[id].rateDuration.Some? {
      Negated(ref.sensitivities[id].rateDuration.value, s.magnitude);
    }
  }

  /** An instrument moves by the sum of what each shock moves it. */
  lemma ImpactIsSumOfMoves(ref: Reference, d: Definition, id: Id)
    ensures ReturnImpact(ref, d, id) == SumBy(d.shocks, MoveBy(ref, id))
  {
    ImpactIsSum(ref, d, id);
    forall s | s in d.shocks
      ensures Applied(ref, id)(s) == MoveBy(ref, id)(s)
    {
      AppliedIsMove(ref, id, s);
    }
    SumByAgree(d.shocks, Applied(ref, id), MoveBy(ref, id));
  }

  /** `gain` is the share `move` of `x`, and `y` is `x` with it. */
  predicate Gains(x: real, move: real, gain: real, y: real) {
    gain == x * move && y == x + gain
  }

  lemma ProjectGains(x: real, r: real)
    ensures Gains(x, r, Project(x, r) - x, Project(x, r))
  {
  }

  /** What is reported of a position that moves by `move`. */
  predicate Reports(p: PositionValuation, move: real, q: PositionImpact, after: PositionValuation) {
    && q.instrumentId == p.instrumentId && q.baselinePrice == p.price && q.baselineValue == p.marketValue
    && q.returnImpact == move
    && Gains(p.marketValue, move, q.pnl, q.projectedValue)
    && Gains(p.price, move, q.projectedPrice - p.price, q.projectedPrice)
    && after.price == q.projectedPrice && after.marketValue == q.projectedValue
    && (after.unrealized.Some? <==> p.costBasis.Some?)
    && (p.costBasis.Some? ==> after.unrealized.value == q.projectedValue - p.costBasis.value)
  }

  lemma ImpactReports(p: PositionValuation, move: real, contributions: seq<Contribution>)
    ensures Reports(p, move, ImpactOn(p, move, contributions), Projected(p, move))
  {
    ProjectGains(p.marketValue, move);
    ProjectGains(p.price, move);
  }

  lemma ResultLists(v: ValuationResult, d: Definition, ref: Reference, r: ScenarioResult)
    requires Apply(v, d, ref) == Success(r)
    ensures r.positions == Impacts(ref, d, v.positions)
    ensures r.projected.positions == ProjectedPositions(ref, d, v.positions)
  {
  }

  /** Every position's price, value and P&L move by the sum of what the shocks move its instrument. */
  lemma PositionInFields(v: ValuationResult, d: Definition, ref: Reference, r: ScenarioResult, i: nat)
    requires Apply(v, d, ref) == Success(r) && i < |v.positions|
    ensures |r.positions| == |r.projected.positions| == |v.positions|
    ensures Reports(v.positions[i], SumBy(d.shocks, MoveBy(ref, v.positions[i].instrumentId)), r.positions[i],
                    r.projected.positions[i])
  {
    var id := v.positions[i].instrumentId;
    ResultLists(v, d, ref, r);
    ImpactsAre(ref, d, v.positions, i);
    ImpactIsSumOfMoves(ref, d, id);
    ImpactReports(v.positions[i], ReturnImpact(ref, d, id), Contributions(ref, id, Scenarios.Ordered(d)));
  }

  /** `rate` of `value` is `gain`. */
  predicate IsRate(rate: real, value: real, gain: real) {
    rate * value == gain
  }

  lemma QuotientIsRate(gain: real, value: real)
    requires value != 0.0
    ensures IsRate(gain / value, value, gain)
  {
  }

  lemma ReturnIsRate(v: ValuationResult, d: Definition, ref: Reference, r: ScenarioResult)
    requires Apply(v, d, ref) == Success(r)
    ensures v.portfolioValue != 0.0 && IsRate(r.returnImpact, v.portfolioValue, r.pnlImpact)
  {
    QuotientIsRate(r.pnlImpact, v.portfolioValue);
  }

  /** The portfolio P&L adds up the positions', and the portfolio return is that over the baseline value. */
  lemma PortfolioInFields(v: ValuationResult, d: Definition, ref: Reference, r: ScenarioResult)
    requires Consistent(v) && Apply(v, d, ref) == Success(r)
    ensures r.pnlImpact == SumBy(r.positions, Pnl())
    ensures v.portfolioValue != 0.0 && IsRate(r.returnImpact, v.portfolioValue, r.pnlImpact)
    ensures r.projected.portfolioValue == v.portfolioValue + r.pnlImpact
  {
    PortfolioGainsAreConserved(v, d, ref, r);
    ReturnIsRate(v, d, ref, r);
  }

  /** The first position that the shocks together wipe out. */
  ghost predicate FirstLost(v: ValuationResult, d: Definition, ref: Reference, i: nat) {
    && i < |v.positions| && SumBy(d.shocks, MoveBy(ref, v.positions[i].instrumentId)) <= -1.0
    && forall j | 0 <= j < i :: SumBy(d.shocks, MoveBy(ref, v.positions[j].instrumentId)) > -1.0
  }

  lemma {:induction false} WipedOutIsFirst(positions: seq<PositionValuation>, d: Definition, ref: Reference, i: nat)
    requires i < |positions| && ReturnImpact(ref, d, positions[i].instrumentId) <= -1.0
    requires forall j | 0 <= j < i :: ReturnImpact(ref, d, positions[j].instrumentId) > -1.0
    ensures FirstWipedOut(ref, d, positions) == Some(positions[i].instrumentId)
    decreases |positions|
  {
    var front := positions[..|positions| - 1];
    if i < |front| {
      WipedOutIsFirst(front, d, ref, i);
    } else {
      assert FirstWipedOut(ref, d, front).None?;
    }
  }

  /** What is refused, and why, in the order the engine finds it. */
  lemma RefusedExactly(v: ValuationResult, d: Definition, ref: Reference)
    ensures var r := Apply(v, d, ref);
            && (d.fundId != v.fundId <==> r == Failure(OtherFund))
            && (d.fundId == v.fundId && !DefinitionFits(d) <==> r == Failure(InvalidScenario))
            && (d.fundId == v.fundId && DefinitionFits(d) ==>
                  && (forall i: nat | FirstLost(v, d, ref, i) ::
                        r == Failure(NonpositivePrice(v.positions[i].instrumentId)))
                  && ((forall p | p in v.positions :: SumBy(d.shocks, MoveBy(ref, p.instrumentId)) > -1.0) ==>
                        if v.portfolioValue == 0.0 then r == Failure(ReturnUndefined) else r.Success?))
  {
    AcceptedFits(d);
    forall p: PositionValuation
      ensures ReturnImpact(ref, d, p.instrumentId) == SumBy(d.shocks, MoveBy(ref, p.instrumentId))
    {
      ImpactIsSumOfMoves(ref, d, p.instrumentId);
    }
    forall i: nat | FirstLost(v, d, ref, i)
      ensures FirstWipedOut(ref, d, v.positions) == Some(v.positions[i].instrumentId)
    {
      WipedOutIsFirst(v.positions, d, ref, i);
    }
  }

  // ---------------------------------------------------------------- contributions

  /** The shocks of a definition by ascending sequence number. */
  ghost predicate InSequence(shocks: seq<Shock>, d: Definition) {
    && multiset(shocks) == multiset(d.shocks)
    && forall i, j | 0 <= i < j < |shocks| :: shocks[i].sequence < shocks[j].sequence
  }

  /** One contribution for each shock that bears on the instrument, in the shocks' order. */
  function ContributionsOf(ref: Reference, id: Id, shocks: seq<Shock>): seq<Contribution> {
    if shocks == [] then []
    else
      var s := shocks[|shocks| - 1];
      ContributionsOf(ref, id, shocks[..|shocks| - 1]) +
      (if Bears(ref, id, s) then [Contribution(s.id, MoveBy(ref, id)(s))] else [])
  }

  lemma BearsExactly(ref: Reference, id: Id, s: Shock)
    ensures Impact(ref, id, s) == if Bears(ref, id, s) then Some(MoveBy(ref, id)(s)) else None
  {
    AppliedIsMove(ref, id, s);
  }

  lemma {:induction false} ContributionsAre(ref: Reference, id: Id, shocks: seq<Shock>)
    ensures Contributions(ref, id, shocks) == ContributionsOf(ref, id, shocks)
  {
    if shocks == [] {
    } else {
      ContributionsAre(ref, id, shocks[..|shocks| - 1]);
      BearsExactly(ref, id, shocks[|shocks| - 1]);
    }
  }

  lemma SequenceOfSorted(d: Definition)
    requires DefinitionFits(d)
    ensures InSequence(Scenarios.Ordered(d), d)
  {
    var o := Scenarios.Ordered(d);
    assert TotalPreorder(ShockLe);
    SortBySorts(ShockLe, d.shocks);
    SameElements(o, d.shocks);
    forall i, j | 0 <= i < j < |o|
      ensures o[i].sequence < o[j].sequence
    {
      assert ShockLe(o[i], o[j]);
      if o[i].sequence == o[j].sequence {
        SequencesDiffer(d, o, i, j);
      }
    }
  }

  lemma SequencesDiffer(d: Definition, o: seq<Shock>, i: nat, j: nat)
    requires DefinitionFits(d) && multiset(o) == multiset(d.shocks) && i < j < |o|
    ensures o[i].sequence != o[j].sequence
  {
    SameElements(o, d.shocks);
    assert o[i] in d.shocks && o[j] in d.shocks;
    var x :| 0 <= x < |d.shocks| && d.shocks[x] == o[i];
    var y :| 0 <= y < |d.shocks| && d.shocks[y] == o[j];
    if o[i].sequence == o[j].sequence {
      assert x == y;
      TwoOccurrences(o, i, j);
      OneOccurrenceOf(d, x);
    }
  }

  lemma OneOccurrenceOf(d: Definition, x: nat)
    requires DefinitionFits(d) && x < |d.shocks|
    ensures multiset(d.shocks)[d.shocks[x]] == 1
  {
    var s := d.shocks;
    assert s == s[..x] + [s[x]] + s[x + 1..];
    assert forall k | 0 <= k < x :: s[..x][k] == s[k] && s[k] != s[x];
    assert s[x] !in s[..x] && s[x] !in s[x + 1..];
  }

  /** Each position lists the contributions of the shocks that bear on it, by ascending sequence number. */
  lemma ContributionsInFields(v: ValuationResult, d: Definition, ref: Reference, r: ScenarioResult, i: nat)
    returns (shocks: seq<Shock>)
    requires Apply(v, d, ref) == Success(r) && i < |v.positions|
    ensures InSequence(shocks, d)
    ensures r.positions[i].contributions == ContributionsOf(ref, v.positions[i].instrumentId, shocks)
  {
    shocks := Scenarios.Ordered(d);
    AcceptedFits(d);
    SequenceOfSorted(d);
    ImpactsAre(ref, d, v.positions, i);
    ContributionsAre(ref, v.positions[i].instrumentId, shocks);
  }
}
