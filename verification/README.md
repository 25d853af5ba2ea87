# HawkFundOS: verified model

A Dafny model of the calculation and governance core of the fund platform: the portfolio replay
engine with its realized P&L and valuation, the append-only ledger, immutable snapshots, the proposal workflow,
and the arithmetic engines for performance, risk, exposure and scenarios. `dafny verify dfyconfig.toml` checks
all of it.

## How it is built

Code that changes things step by step is modelled as methods on classes or loops, each proved equal to a
function of its inputs or old state; what the platform promises is then proved about those functions. The proposal
store takes each command's decision from the plan that `Governance` specifies and does the writing in place. The
modules whose names end in `Fields` or `Answers`, and `ReconstructedState`, say what each main operation accepts,
refuses and returns in the fields of its input alone.

| part | files |
|---|---|
| Replay engine | `LedgerTypes`, `PortfolioEngine` (specification), `ReplayEngine` (mutable records), `ReconstructedState` (what is reported, in fields), `Conservation`, `MovingAverage`, `Determinism`, `AccountSeparation`, `LedgerCorners`, `StrandedCost`, `Reversals` |
| Realized P&L and valuation | `RealizedPnl`, `Valuation` |
| Ledger | `Ledger`, `LedgerAnswers`, `LedgerInvariants`, `LedgerReplay` |
| Snapshots | `Snapshots`, `SnapshotRuns`, `SnapshotTheorems`, `SnapshotAnswers` |
| Proposal workflow | `Authorization`, `Governance` (specification), `ProposalService` (in place), `WorkflowFields`, `WorkflowHistory`, `WorkflowRuns`, `WorkflowVersions`, `WorkflowStaleRead` |
| Arithmetic engines | `Analytics`, `Volatility`, `Risk`, `Exposures`, `Comparison`, `ExposureFields`, `Scenarios`, `ScenarioFields` |
| Shared | `Wrappers`, `Text`, `Sorting`, `Sums` |

Conventions. Amounts are exact reals. A UUID is an integer: the source orders UUIDs by their fixed-width
hexadecimal text, which is numeric order. Instants are integers. A digest is modelled by the canonical value it
is taken of. Ids, clocks and the order in which a database returns rows are parameters, and the theorems hold for
every choice of them. The square root that decimal arithmetic takes is a parameter too. A proposal command is a read
followed by a compare-and-set; the read may be stale.

## Where the code and its documentation part

The model follows the code.

- `docs/domain/portfolio-reconstruction.md` (line 85) suggests that a complete liquidation ends an unknown basis. The
  counter is not reset (`LedgerCorners.UncertaintyOutlivesLiquidation`, with an accepted history in
  `LedgerCorners.LiquidatedAndStillUncertain`); a basis is unknown exactly as `Conservation.UnknownBasisHasLiveCause` says.
- `docs/domain/investment-governance.md` says that stale expected versions fail and that final statuses are terminal.
  The guard compares the stored row with the caller's number, not with the version that was read
  (apps/api/app/governance/service.py:464-468). A write is serial exactly when the two agree
  (`WorkflowRuns.EffectIsSerialExactlyWhenExpectedWasRead`); when they do not, a withdrawn proposal can return to
  review (`WorkflowStaleRead.TerminalStatusCanBeRevived`). The claim is about the service code. The database trigger on
  the row (db/migrations/versions/0008_investment_governance.py:197-212) does not look at statuses and lets that update
  pass. What it refuses of the service's effective writes is exactly those that are no revision and were decided on an
  earlier content version (`WorkflowVersions.RaceDropsExactly`, with an input in `WorkflowStaleRead.ContentVersionCanDrop`);
  a stale revision does not get that far, as its version number is taken (`WorkflowVersions.StaleRevisionIsRefused`).
- The risk engine divides by zero on a sample of gains only (apps/api/app/risk/engine.py:36-38); `Risk.Calculate` reports
  that as an error, and `Risk.ShortfallUndefinedExactlyWhenAllGain` gives its exact condition.
- The analytics engine annualizes without checking the number of periods (apps/api/app/analytics/engine.py:42-51); a
  negative one has no square root, and zero divides. `Analytics.RunAnalyze` reports that as an error, exactly when
  `Volatility.FiguresDefinedExactly` says.
- A scenario on a valuation of zero divides by zero (apps/api/app/scenarios/engine.py:104); `Scenarios.Apply` reports that
  as an error, `Scenarios.ReturnUndefinedExactlyOnZeroValue` gives its exact condition, and
  `Scenarios.EmptyLedgerHasNoReturn` an input.
- The replay engine's own checks accept a negative opening price, which command validation refuses. Such an opening fails
  exactly when the key holds too little cost (`LedgerCorners.PricedOpeningFailsExactly`) and otherwise goes through
  (`LedgerCorners.NegativeOpeningCanPass`).
- A reversal can leave known cost at zero quantity (`LedgerCorners.ReversalCanStrandCost`), exactly when it takes back the
  purchase or opening of all that is held at another cost than the books now carry (`StrandedCost.StrandedExactly`); so
  profit attribution carries a residual, which is zero exactly when no such key is left (`Valuation.ResidualZeroExactly`).

## Model

| member | source | states |
|---|---|---|
| `PortfolioEngine.AcceptanceMeansValid` | apps/api/app/portfolio/engine.py:125-202 | Validation in supplied order raises no error exactly when every transaction is well formed for the fund and no id repeats. |
| `PortfolioEngine.ReconstructIsReplay` | apps/api/app/portfolio/engine.py:49-123 | For well-formed input, reconstruction is the replay of the included transactions in sort-key order, with the replay's own error if it stops. |
| `PortfolioEngine.ReplayNext` | apps/api/app/portfolio/engine.py:79-97 | One more turn of the loop is one step on the books so far, and a failing turn settles the whole replay. |
| `PortfolioEngine.ReplayConcat` | apps/api/app/portfolio/engine.py:79-97 | Replaying two histories in a row is replaying the second from the books of the first; the first error stops both. |
| `PortfolioEngine.OrderedValid` | apps/api/app/portfolio/engine.py:58-71 | What is replayed is well formed whenever what was supplied is, for every cutoff and scope. |
| `ReplayEngine.ReplayRun.RecordAt` | apps/api/app/portfolio/engine.py:326-327 | Looking a position up creates an empty record when there is none, gives each key a record of its own, and disturbs no other. |
| `ReplayEngine.ReplayRun.MoveRecord` | apps/api/app/portfolio/engine.py:328-342 | The three figures are checked in order before anything is written; on failure the record is as it was. |
| `ReplayEngine.ReplayRun.ApplyPositionEffect` | apps/api/app/portfolio/engine.py:319-342 | Updating the record in place changes the positions dictionary at that key only, exactly as the specification says, or reports its error. |
| `ReplayEngine.ReplayRun.ReversalEffect` | apps/api/app/portfolio/engine.py:290-317 | The in-place lookups (effects, kinds, reversed targets) produce the inverse of the recorded effect or the first guard's error. |
| `ReplayEngine.ReplayRun.RecordEffect` | apps/api/app/portfolio/engine.py:80-91 | Cash moves by the effect in its own account; originals are recorded under their id, reversals mark their target. |
| `ReplayEngine.ReplayRun.Apply` | apps/api/app/portfolio/engine.py:79-97 | One turn of the mutating loop is one step of the specification, with the same error when it stops. |
| `ReplayEngine.ValidateInput` | apps/api/app/portfolio/engine.py:125-141 | The validation loop with its running set of ids finds the first error in supplied order, or none. |
| `ReplayEngine.RunReconstruct` | apps/api/app/portfolio/engine.py:49-123 | The engine run on mutable records returns for every input what `Reconstruct` specifies, errors included. |
| `PortfolioEngine.ReportedPositions` | apps/api/app/portfolio/engine.py:344-372 | The reported positions are exactly those with quantity, once each in key order, with basis and average when the counter is zero and neither otherwise. |
| `ReconstructedState.InputAcceptedExactly` | apps/api/app/portfolio/engine.py:125-202 | Field by field: the engine takes its input if and only if ids differ and every transaction is of the fund, in USD, without negative fees, and carries just the fields of its kind. |
| `ReconstructedState.ReplayedInOrder` | apps/api/app/portfolio/engine.py:58-71 | What a successful reconstruction records as replayed is exactly the supplied transactions of the account effective by the cutoff, and of any two the earlier one has the smaller effective time, or then the smaller recording time, or then the smaller id. |
| `ReconstructedState.ReportedCashInFields` | apps/api/app/portfolio/engine.py:98-118 | The reported cash: one balance for each account that occurs, in account order, each the signed sum over its live originals, and in total the sum over all live originals. |
| `ReconstructedState.ReportedPositionsInFields` | apps/api/app/portfolio/engine.py:344-372 | The reported positions: one for each account and instrument whose live originals do not add up to zero, ordered by account and instrument, with that quantity, the ids that moved it in replay order, and a basis and average unless a live original made the basis unknown. |
| `ReconstructedState.SourcesAreMoves` | apps/api/app/portfolio/engine.py:342-342 | The source ids of a position are those of the transactions, reversals included, that moved it, in replay order. |
| `Conservation.ReplayRecords` | apps/api/app/portfolio/engine.py:79-97 | After a successful replay the recorded effects are those of the originals, each carrying the movements its own fields call for, and the reversed targets are those the reversals name. |
| `Conservation.Conserved` | apps/api/app/portfolio/engine.py:79-97 | Any balance that effects add to, and whose inverse effect takes it back, equals the sum over the originals not yet reversed. |
| `Conservation.CashConserved` | apps/api/app/portfolio/engine.py:91-91 | Each account's cash is the signed sum, from the transactions' own fields, over its live originals. |
| `Conservation.QuantityConserved` | apps/api/app/portfolio/engine.py:319-342 | Each holding's quantity is the signed sum, from the transactions' own fields, over its live originals. |
| `Conservation.PairDeletionKeepsBalances` | apps/api/app/portfolio/engine.py:290-317 | Deleting an original together with its reversal changes no account's cash and no key's quantity when both replays succeed. |
| `Conservation.UncertaintyCounts` | apps/api/app/portfolio/engine.py:336-342 | The counter at every key is the number of live originals that introduced uncertainty. |
| `Conservation.UnknownBasisHasLiveCause` | apps/api/app/portfolio/engine.py:353-360 | A basis is unknown exactly when some live original at the key introduced uncertainty: an unpriced opening, or a sale made while it was uncertain. |
| `Conservation.GuardsAreUnreachable` | apps/api/app/portfolio/engine.py:302-338 | On accepted input the negative-uncertainty, reversal-of-reversal, missing-target and malformed-input errors of the loop never occur. |
| `Conservation.ImmediateReversalRestores` | apps/api/app/portfolio/engine.py:290-317 | Reversing an original right after it always succeeds and restores every account's cash and every key's quantity, cost and counter, whatever sound books it started from. |
| `Reversals.ReversalSucceedsExactly` | apps/api/app/portfolio/engine.py:290-342 | At the end of any accepted history a reversal is replayed if and only if an original with its target's id was replayed, is not reversed, is of the same account, and brought in no more quantity and no more cost than its key now has. |
| `Reversals.TargetedReversal` | apps/api/app/portfolio/engine.py:290-342 | Otherwise it stops the replay with the first of these reasons, in this order: already reversed, other account, negative holding, negative cost basis. |
| `Reversals.UntargetedReversal` | apps/api/app/portfolio/engine.py:297-301 | And without a replayed target, as not applied. |
| `Conservation.BalancesNonnegative` | apps/api/app/portfolio/engine.py:328-335 | After a successful replay no quantity and no known cost is negative. |
| `MovingAverage.AverageIsSound` | apps/api/app/portfolio/engine.py:231-287 | Without reversals, negatively priced openings included: cost is never negative, zero quantity means zero cost, and a known average lies between any bounds on the unit costs (fees included) brought into the key. |
| `MovingAverage.CostBounds` | apps/api/app/portfolio/engine.py:231-244 | Every history has such bounds. |
| `MovingAverage.SaleMoves` | apps/api/app/portfolio/engine.py:245-269 | A sale brings its net proceeds into its account's cash and its quantity out of the key; with known basis cost leaves in proportion, otherwise all of it or none, and the counter goes up by one. |
| `MovingAverage.SaleIsProportional` | apps/api/app/portfolio/engine.py:253-257 | A sale with known basis removes cost in proportion: the remainder is not negative, is zero when nothing is left, and keeps its bounds. |
| `MovingAverage.SaleKeepsAverage` | apps/api/app/portfolio/engine.py:253-257 | In any history, reversals included, a sale that leaves a known-basis remainder leaves the average cost unchanged. |
| `MovingAverage.ReversalFreeFailsExactly` | apps/api/app/portfolio/engine.py:245-335 | A reversal-free history fails if and only if one of its sales is for more than its key holds, or one of its negatively priced openings takes out more cost than its key has; and then with that transaction's error. |
| `MovingAverage.OnlyOversellingFails` | apps/api/app/portfolio/engine.py:245-335 | Without negatively priced openings it fails if and only if some sale exceeds what the transactions before it, by their own quantities, have brought to its key; and then as a negative holding. |
| `Determinism.ArrivalOrderIsIrrelevant` | apps/api/app/portfolio/engine.py:58-71 | Permuting the supplied transactions gives the same state, or fails both times. |
| `Determinism.LaterFactsAreIgnored` | apps/api/app/portfolio/engine.py:60-65 | Adding valid transactions effective after the cutoff changes nothing. |
| `Determinism.EarlierOrderIsPrefix` | apps/api/app/portfolio/engine.py:60-71 | For an earlier cutoff the replay order is a prefix of that for a later one. |
| `Determinism.LaterReplayContinues` | apps/api/app/portfolio/engine.py:79-97 | The later replay continues from the books of the earlier one, or repeats its error. |
| `AccountSeparation.AccountsSuffice` | apps/api/app/portfolio/engine.py:60-97 | If every account's own replay succeeds, so does the replay of all of them together. |
| `AccountSeparation.AccountsAreSeparate` | apps/api/app/portfolio/engine.py:60-97 | The fund-wide replay succeeds exactly when every account-scoped one does, and each account's books are its projection. |
| `AccountSeparation.ReconstructionSeparates` | apps/api/app/portfolio/engine.py:49-123 | The same for what `reconstruct` returns, for every input: scoped cash and positions (with sources) are the fund-wide ones of that account, and fund cash is the sum. |
| `AccountSeparation.ReportedCash` | apps/api/app/portfolio/engine.py:100-118 | The reported cash is the sum of the cash dictionary, in whatever order it is visited. |
| `LedgerCorners.UncertaintyOutlivesLiquidation` | apps/api/app/portfolio/engine.py:258-260 | Selling a whole uncertain position raises the counter, so a later purchase at that key still has no known basis. |
| `LedgerCorners.LiquidatedAndStillUncertain` | apps/api/app/portfolio/engine.py:258-281 | Such a history: ten opened unpriced, ten sold and ten bought at 10 are accepted and end with ten held and no known basis. |
| `LedgerCorners.ReversalCanStrandCost` | apps/api/app/portfolio/engine.py:256-256 | An accepted four-transaction history that ends with known cost at zero quantity: an input of the condition below. |
| `StrandedCost.StrandedExactly` | apps/api/app/portfolio/engine.py:290-342 | In any accepted history, a transaction leaves known cost at zero quantity if and only if it does not move a key that already was so, or it reverses a purchase or opening whose quantity is all that the key holds and whose cost is not the cost on the books. |
| `StrandedCost.StrandedByHistory` | apps/api/app/portfolio/engine.py:290-342 | A history ends with known cost at zero quantity at a key if and only if such a reversal did it and nothing has moved the key since. |
| `LedgerCorners.PricedOpeningFailsExactly` | apps/api/app/portfolio/engine.py:270-335 | On any books with nonnegative quantity and counter at the key, a well-shaped priced opening fails if and only if the cost held plus quantity times price is negative, and then as a negative cost basis. |
| `LedgerCorners.NegativeOpeningCanPass` | apps/api/app/portfolio/engine.py:270-287 | So ten bought at 100 and ten opened at -1 replay to twenty at a cost of 990. |
| `RealizedPnl.RunTurn` | apps/api/app/valuation/engine.py:106-153 | One turn of the loop re-replays the prefix for a sale, undoes a reversed sale, and otherwise changes nothing. |
| `RealizedPnl.RunCalculate` | apps/api/app/valuation/engine.py:84-154 | The loop over prefix, effects, total and active unknown sales returns what its recursive specification says. |
| `RealizedPnl.GainIsRecorded` | apps/api/app/valuation/engine.py:107-139 | Valuing a sale against a fresh replay of its prefix gives the cash and cost deltas that one replay records for it, or none when the basis is uncertain. |
| `RealizedPnl.LoopAgrees` | apps/api/app/valuation/engine.py:91-154 | After every prefix the quadratic loop holds what one pass over the recorded effects holds. |
| `RealizedPnl.CalculateRefinesOnePass` | apps/api/app/valuation/engine.py:84-154 | If the full replay succeeds, the result is none exactly when a live sale ran with uncertain basis, and otherwise the sum over live sales. |
| `Valuation.RunValue` | apps/api/app/valuation/engine.py:17-78 | Succeeds exactly when every position has a USD quote; then every position is its quantity times the quoted price, unrealized that less the reported basis or none without one, and the portfolio is cash plus the sum of quantity times price; otherwise the first missing or foreign quote is reported. |
| `Valuation.ValuationIsInFields` | apps/api/app/valuation/engine.py:26-78 | The same of any valuation: each position's figures from its quote, the portfolio value and the unrealized total from quantities, prices and bases. |
| `Valuation.ProfitAttribution` | apps/api/app/valuation/engine.py:59-78 | Portfolio value is live opening cash + deposits - withdrawals + dividends - fees + priced-opening basis + realized + unrealized - residual, for every accepted history and quotes. |
| `Valuation.ResidualZeroExactly` | apps/api/app/valuation/engine.py:59-78 | The residual is never negative, and it is zero if and only if no key has been left so by a reversal and not moved since. |
| `Valuation.NoResidualWithoutReversals` | apps/api/app/valuation/engine.py:59-78 | In particular without reversals the residual is zero. |
| `Valuation.CostIsBasisPlusResidual` | apps/api/app/valuation/engine.py:35-44 | With every held basis known, the cost on the books is the reported basis plus the residual. |
| `Valuation.PnlNeverFailsAfterReplay` | apps/api/app/valuation/engine.py:84-154 | Realized P&L never fails where reconstruction succeeds. |
| `Valuation.RunValueAt` | apps/api/app/valuation/service.py:20-39 | The service's chain of reconstruction, P&L and valuation values every reconstructed position at quantity times quoted price, and its complete results satisfy the attribution identity. |
| `Ledger.TransactionService.RunCreate` | apps/api/app/ledger/service.py:41-68 | The command on the stored tables does what the specification of `create` says, in place, for every outcome. |
| `Ledger.TransactionService.RunRecordConflict` | apps/api/app/ledger/service.py:109-144 | A conflict is appended and counted once per batch, identity and content, and otherwise the earlier record is returned. |
| `Ledger.BySourceIdentity` | apps/api/app/ledger/repository.py:14-23 | Finds a row with the fund, source and external id, or there is none. |
| `Ledger.ReversalTarget` | apps/api/app/ledger/service.py:94-107 | A reversal is given the row it names, or the reason it is refused; other kinds have no target. |
| `LedgerInvariants.AcceptedRowIsReplayable` | apps/api/app/ledger/validation.py:15-76 | What command validation accepts is a transaction the replay engine's shape checks accept, with a nonnegative opening price. |
| `LedgerInvariants.InsertKeepsInv` | apps/api/app/ledger/service.py:41-107 | An accepted insertion keeps all ledger invariants. |
| `LedgerInvariants.CreateByCase` | apps/api/app/ledger/service.py:41-68 | A command inserts one row under its guards, or leaves the rows alone. |
| `LedgerInvariants.CreateKeepsInv` | apps/api/app/ledger/service.py:41-144 | Every command keeps the invariants; rows change only on a creation, by one row and at most one mark; duplicates and rejections change nothing. |
| `LedgerInvariants.ReachableInv` | apps/api/app/ledger/service.py:41-144 | In every ledger that commands can reach: unique ids and source identities, replayable rows, reversals of earlier originals of the same fund and account, one reversal each, REVERSED exactly when reversed, one posted opening. |
| `LedgerInvariants.FactsAreImmutable` | apps/api/app/ledger/service.py:41-68 | No command ever changes a posted transaction. |
| `LedgerInvariants.RetryIsDuplicate` | apps/api/app/ledger/service.py:45-52 | After a creation and any later commands, the same economics are answered as a duplicate of the row created then and change nothing. |
| `LedgerInvariants.ConflictIsRecordedOnce` | apps/api/app/ledger/service.py:109-144 | Conflicting content leaves the rows alone; once it has been answered, the same economics in the same batch change nothing after any later commands either, so it is recorded and counted at most once. |
| `LedgerAnswers.InvalidExactly` | apps/api/app/ledger/validation.py:15-76 | Field by field: a command is refused as invalid if and only if it lacks or carries what its kind may not, or its batch is not of its fund and source; then nothing changes. |
| `LedgerAnswers.KnownIdentityAnswered` | apps/api/app/ledger/service.py:45-52 | An accepted command whose fund, source and external id are stored is answered with that row: as a duplicate if and only if account, kind, effective time, instrument, quantity, price, amount, fees, currency, dates and reversed target all equal the row's, and as conflicting otherwise. |
| `LedgerAnswers.ConflictRecordedExactly` | apps/api/app/ledger/service.py:109-144 | Conflicting content goes on record, and is counted, if and only if it comes in a batch that has none on record for the same identity and content; the record says what was sent and what it collides with. |
| `LedgerAnswers.NewIdentityAnswered` | apps/api/app/ledger/service.py:54-92 | An accepted command with a new identity that is no reversal is posted with all its own fields if and only if it opens nothing too late (posted cash activity of the account, or posted activity in the instrument) and the id is unused; otherwise it is refused for that reason. |
| `LedgerAnswers.ReversalAnswered` | apps/api/app/ledger/service.py:94-107 | A reversal is posted, and its target marked, if and only if the target is an original of the same fund and account not reversed before and the id is unused; each refusal has its reason. |
| `LedgerAnswers.MissingTargetRefused` | apps/api/app/ledger/service.py:94-107 | A reversal of an id that no row has is refused. |
| `LedgerReplay.AcceptanceBoundsFailure` | apps/api/app/ledger/service.py:41-107 | For every reachable ledger, scope, cutoff and row order, reconstruction can fail only by a negative holding, a negative cost basis, or a reversal effective before its target; such a reversal always makes it fail. |
| `LedgerReplay.PrematureReversalFails` | apps/api/app/portfolio/engine.py:297-301 | A reversal ordered before its target stops the replay. |
| `Snapshots.SnapshotService.RunCreate` | apps/api/app/snapshots/service.py:53-148 | Creation on the stored table does what its specification says: reuse, supersede and append, or fail leaving the table alone. |
| `Snapshots.SnapshotService.RunStore` | apps/api/app/snapshots/service.py:72-98 | The current row is marked superseded and the new revision appended, linked to it. |
| `Snapshots.SnapshotService.RunVerify` | apps/api/app/snapshots/service.py:150-173 | Verification replays the evidence read for the recorded ids and compares input and state. |
| `Snapshots.CurrentOf` | apps/api/app/snapshots/service.py:191-204 | Finds a current row of exactly that scope and cutoff, or there is none. |
| `SnapshotRuns.RowOrderIsIrrelevant` | apps/api/app/snapshots/service.py:175-179 | The order in which the database returns the ledger rows makes no difference to a creation. |
| `SnapshotRuns.StoreKeepsChains` | apps/api/app/snapshots/service.py:72-98 | Storing a revision keeps ids unique, numbering, supersession links and the single current row. |
| `SnapshotRuns.ActKeepsSound` | apps/api/app/snapshots/service.py:53-148 | Posting and snapshotting keep every snapshot's evidence and chain, and change nothing of earlier snapshots but their status. |
| `SnapshotRuns.RunKeepsSound` | apps/api/app/snapshots/service.py:53-148 | So does every run. |
| `SnapshotTheorems.SnapshotsStayReproducible` | apps/api/app/snapshots/service.py:150-189 | After any further postings, reversals and snapshots every snapshot ever created is still there and verifies, whatever order its evidence is read in. |
| `SnapshotTheorems.ChainsAreProper` | apps/api/app/snapshots/service.py:72-98 | After any run each scope's snapshots are revisions 1..n, each superseding the one before, with only the last one current. |
| `SnapshotTheorems.ReusedExactlyWhenUpToDate` | apps/api/app/snapshots/service.py:61-70 | A creation is answered REUSED exactly when the current snapshot records what the ledger now holds for the scope; then nothing is stored. |
| `SnapshotTheorems.RecreationIsReused` | apps/api/app/snapshots/service.py:61-70 | After a successful creation and any actions adding no relevant fact, creating again from rows in any order is REUSED and stores nothing. |
| `SnapshotAnswers.CreationAnswered` | apps/api/app/snapshots/service.py:53-98 | Over sound systems: a creation fails as its replay fails; it is reused exactly when the newest snapshot holds the replayed state; otherwise it needs an unused id, and is New exactly when the scope had no snapshot (revision 1, no predecessor) and Revised exactly when it had (next revision, superseding it). |
| `SnapshotAnswers.CreationRecordsLedger` | apps/api/app/snapshots/service.py:175-189 | A successful creation answers with a snapshot whose recorded input is exactly the ledger's transactions of the fund, and account if one is named, effective by the cutoff. |
| `SnapshotAnswers.VerificationDetectsTampering` | apps/api/app/snapshots/service.py:150-173 | For any evidence: incomplete when its size is not that recorded, the replay's error when it does not replay, and otherwise true if and only if it is, in some order, the very input recorded. |
| `SnapshotAnswers.MissingSnapshot` | apps/api/app/snapshots/service.py:150-154 | Verification reports a missing snapshot if and only if no snapshot has the id. |
| `Authorization.Require` | apps/api/app/governance/authorization.py:49-69 | Gives the alphabetically first role that an active user holds in the fund and that grants the permission; none exactly when no held role does. |
| `Governance.LatestAnalysis` | apps/api/app/governance/service.py:528-533 | The version's analysis latest by recording time and then id, or none exactly when the version has none. |
| `Governance.SameEvidence` | apps/api/app/governance/service.py:164-171 | An analysis of the version with the same evidence, or none exactly when there is none. |
| `Governance.Guard` | apps/api/app/governance/service.py:423-432 | Succeeds with an authorized role and the current version; denied exactly when no role is authorized or the author may not decide; any other failure is an invalid transition, for a status not allowed or a missing version. |
| `ProposalService.ProposalStore.RunCreate` | apps/api/app/governance/service.py:48-84 | Creates the row, its first version and its first transition, or reports why not. |
| `ProposalService.ProposalStore.RunAdvance` | apps/api/app/governance/service.py:449-486 | The compare-and-set: the row moves only from the expected version; every refusal leaves it as it was. |
| `ProposalService.ProposalStore.RunHistory` | apps/api/app/governance/service.py:556-602 | Appends exactly one transition carrying the row version just reached. |
| `ProposalService.ProposalStore.RunWrite` | apps/api/app/governance/service.py:449-602 | Advance, append the rows that belong to the change, record the transition: the stored rows and the answer are those of the specified write, and a lost race or a taken key leaves every row alone. |
| `ProposalService.ProposalStore.RunCommand` | apps/api/app/governance/service.py:86-447 | Each command on the stored rows does what `Execute` specifies from what it read; decided on the stored row itself, it keeps the workflow invariant and never changes a final proposal. |
| `WorkflowFields.PlannedExactlyWhenAllowed` | apps/api/app/governance/service.py:86-447 | For each of the nine commands, in role codes, weights and evaluation results: it passes its guards if and only if an active actor holds one of its codes in the fund, hand and status are right, the current version exists, and its substance is there; for submission and approval a latest analysis whose evaluation is stored, has results, and has every blocking one passed. |
| `WorkflowFields.DeniedExactly` | apps/api/app/governance/service.py:86-447 | Denied if and only if no role code is held or it is in the wrong hand, after the words that some commands check first. |
| `WorkflowFields.EvidenceRefusedExactly` | apps/api/app/governance/service.py:136-361 | Refused for its evidence if and only if it is a binding on foreign evidence, or a submission or approval without passing evidence, with role, hand, status and version right. |
| `WorkflowFields.AnsweredExactly` | apps/api/app/governance/service.py:449-486 | What a command that passes its guards is answered: the analysis already bound, a time before the one read, a lost race, a taken key, or changed. |
| `WorkflowFields.EffectsInFields` | apps/api/app/governance/service.py:449-602 | An effective command leaves just the rows, status, numbers and transition of its own fields, about the version it read. |
| `WorkflowFields.CreatedExactly` | apps/api/app/governance/service.py:48-84 | A proposal is created if and only if an active analyst of the fund gives fitting content, and starts as a draft of it. |
| `WorkflowFields.AcceptedContentFits` | apps/api/app/governance/service.py:633-659 | Content is accepted if and only if it has words, a 64-character hash, and lines for different instruments, each with weights in [0, 1] and the direction that its weights have. |
| `WorkflowFields.FirstCodeIsTaken` | apps/api/app/governance/authorization.py:60-69 | The role recorded is the alphabetically first code among those held that may give the command. |
| `WorkflowFields.LatestIsLatest` | apps/api/app/governance/service.py:528-533 | The latest analysis: none of the version was recorded later, or then has a greater id. |
| `WorkflowHistory.PlansAreLegal` | apps/api/app/governance/service.py:86-447 | Whatever a command plans is an allowed edge from the status it read, with the rows and the grounds that its action requires. |
| `WorkflowHistory.ChangesAreAuthorized` | apps/api/app/governance/service.py:86-447 | A change needs an active actor with the recorded role in the proposal's fund; authors alone revise, submit and withdraw, and never approve or reject. |
| `WorkflowHistory.SubmissionStaysHeld` | apps/api/app/governance/service.py:206-361 | From submission on, the current version and its latest clear analysis stay those of the submission. |
| `WorkflowHistory.ApprovalRests` | apps/api/app/governance/service.py:320-361 | An approval rests on a submission and a later review of the same version, the same analysis, and a manager who is not the author. |
| `WorkflowHistory.StepKeepsInv` | apps/api/app/governance/service.py:86-486 | Every command keeps all workflow invariants. |
| `WorkflowHistory.LaterEvidenceKeepsInv` | apps/api/app/governance/service.py:527-554 | Evidence stored later does not disturb them. |
| `WorkflowRuns.HistoryIsComplete` | apps/api/app/governance/service.py:449-602 | Over every run: row version = number of transitions, numbered 1..n, each starting where the last ended, never from a final status, in time order; current version = 1 + revisions. |
| `WorkflowRuns.UnderReviewIsWhatWasSubmitted` | apps/api/app/governance/service.py:206-361 | In every reachable state between submission and decision, the current version and its latest clear analysis are those of its one submission. |
| `WorkflowRuns.ApprovedIsWhatWasSubmitted` | apps/api/app/governance/service.py:320-361 | Every reachable approved proposal was approved as submitted, after a review of that version, by a manager who is not the author. |
| `WorkflowFields.SubmittedOnPassingEvidence` | apps/api/app/governance/service.py:527-554 | Every reachable proposal from submission on rests on its latest analysis, whose evaluation is of its fund and the version's cutoff, has results, and has no blocking one in breach or unavailable. |
| `WorkflowFields.ApprovedOnPassingEvidence` | apps/api/app/governance/service.py:320-361 | So does every reachable approval, on the very analysis it records. |
| `WorkflowRuns.RecordIsInOrder` | apps/api/app/governance/service.py:136-204 | In every reachable state versions are acceptable and the author's, analyses share fund and cutoff with their version, and required reasons are given. |
| `WorkflowRuns.DecisionsAreFinal` | apps/api/app/governance/service.py:86-447 | An approved, rejected or withdrawn proposal is never changed by any later commands. |
| `WorkflowRuns.AtMostOneTakesEffect` | apps/api/app/governance/service.py:464-481 | Of two racing commands with the same expected version at most one takes effect, whatever they had read. |
| `WorkflowRuns.EffectIsSerialExactlyWhenExpectedWasRead` | apps/api/app/governance/service.py:464-468 | A racing command that takes effect had read the row it overwrites if and only if the version it expects is the version it read. |
| `WorkflowRuns.RacesSerialise` | apps/api/app/governance/service.py:449-486 | If every command expects the version it read, any interleaving ends where its effective commands end one after another. |
| `WorkflowRuns.RacesReachOnlyWhatRunsReach` | apps/api/app/governance/service.py:449-486 | Under that condition, with an evidence library that only grows, every state that racing commands reach is one that commands one after another reach, so all the results on reachable states hold for it. |
| `WorkflowRuns.RacedApprovalIsWhatWasSubmitted` | apps/api/app/governance/service.py:320-361 | In particular what is approved is what was submitted also when commands race. |
| `WorkflowRuns.RebindingIsIdempotent` | apps/api/app/governance/service.py:164-171 | After a binding and any later requests, binding the same evidence to the same version reports the analysis bound then and changes nothing, whatever row version is expected. |
| `WorkflowHistory.StepPassesTrigger` | db/migrations/versions/0008_investment_governance.py:197-212 | A write decided on the row it overwrites always passes the database trigger on that row: same fund and author, no lower content version, next row version. |
| `WorkflowStaleRead.TerminalStatusCanBeRevived` | apps/api/app/governance/service.py:464-486 | Otherwise it need not be serial: a run in which a withdrawn proposal goes back under review, by an update that the trigger lets pass too. |
| `WorkflowVersions.StaleRevisionIsRefused` | db/migrations/versions/0008_investment_governance.py:66-66 | A revision decided on an earlier content version never takes effect: the number it would write is taken. |
| `WorkflowVersions.VersionDropsExactly` | apps/api/app/governance/service.py:449-486 | An effective write lowers the content version if and only if it is no revision and was decided on an earlier content version; exactly these writes fail the database trigger on the row. |
| `WorkflowVersions.RacesKeepCounted` | apps/api/app/governance/service.py:449-525 | Whatever racing commands had read, the stored versions stay numbered 1..n and the current number stays one of them. |
| `WorkflowVersions.RaceDropsExactly` | apps/api/app/governance/service.py:449-525 | The same if-and-only-if for every effective command of every race on a created proposal; an effective revision had read the newest stored version as current. |
| `WorkflowStaleRead.ContentVersionCanDrop` | apps/api/app/governance/service.py:384-486 | A run in which a withdrawal decided on the first version overwrites the second, and which the trigger refuses. |
| `Analytics.RunSeries` | apps/api/app/analytics/engine.py:27-59 | One pass yields every period return, every drawdown from the running peak, the total return, the least drawdown, volatility and Sharpe ratio, or reports that the last two are undefined. |
| `Analytics.RunAnalyze` | apps/api/app/analytics/engine.py:20-59 | The same from observations in any order, or the reason they cannot be analysed. |
| `Analytics.OrderedValues` | apps/api/app/analytics/engine.py:99-110 | Accepted observations are nonempty, at distinct times, with positive values. |
| `Analytics.RefusedExactly` | apps/api/app/analytics/engine.py:99-110 | Observations are refused exactly when there are none, when two share a time, or when a value is not positive, in that order. |
| `Analytics.OrderedInTime` | apps/api/app/analytics/engine.py:99-101 | What is analysed are the very observations, earliest first. |
| `Analytics.PeakIsHighest` | apps/api/app/analytics/engine.py:38-42 | The running peak is the highest wealth index so far, so drawdown is wealth over its prior peak minus one. |
| `Analytics.MaximumDrawdownIsWorstFall` | apps/api/app/analytics/engine.py:27-59 | When every value minus flow is positive, maximum drawdown is the worst fall over all pairs of observations. |
| `Analytics.WorstFallNeedsPositiveWealth` | apps/api/app/analytics/engine.py:27-59 | When a flow exceeds its value the two can differ: on the accepted observations 100, 50, 25 with a flow of 50 at the third, maximum drawdown is -1.25 while wealth falls by -1.5 from the second to the third. |
| `Analytics.GrowthTelescopes` | apps/api/app/analytics/engine.py:36-41 | The wealth index is last over first value times the share of each value that flows did not bring. |
| `Analytics.TotalReturnWithoutFlows` | apps/api/app/analytics/engine.py:27-59 | With zero flows total return is last over first value minus one. |
| `Analytics.FlowsDoNotMoveDrawdowns` | apps/api/app/analytics/engine.py:36-42 | A contribution or withdrawal invested like the rest changes neither the wealth path nor its peaks. |
| `Analytics.ArrivalDoesNotMatter` | apps/api/app/analytics/engine.py:99-110 | The order in which observations are supplied does not matter. |
| `Analytics.RunCompound` | apps/api/app/analytics/engine.py:134-138 | The loop computes the product of one plus each return, minus one. |
| `Analytics.CompoundingIsCumulative` | apps/api/app/analytics/engine.py:134-138 | Compounding the period returns gives back the cumulative return. |
| `Volatility.VarianceZeroExactly` | apps/api/app/analytics/engine.py:113-124 | The sample variance is never negative, and zero if and only if all returns are the same. |
| `Volatility.VarianceFromSums` | apps/api/app/analytics/engine.py:119-124 | (n - 1) times n times the variance is n times the sum of squares less the squared sum. |
| `Volatility.FiguresDefinedExactly` | apps/api/app/analytics/engine.py:41-51 | The figures are undefined if and only if there are two or more returns and the number of periods is negative, or zero while the returns differ; otherwise volatility exists exactly with two or more returns, and the Sharpe ratio exactly when these also differ. |
| `Volatility.VolatilityIsAnnualVariance` | apps/api/app/analytics/engine.py:41-45 | Volatility squared is the variance times the periods per year, so it is zero exactly for equal returns or no periods. |
| `Volatility.SharpeIsExcessPerRisk` | apps/api/app/analytics/engine.py:46-51 | The Sharpe ratio times the volatility is the yearly excess of the mean return over the risk-free rate, and it is positive exactly when that is. |
| `Risk.RankInBounds` | apps/api/app/risk/engine.py:33-36 | The rank is the least whole number not below confidence times count, and lies in 1..n. |
| `Risk.ShortfallUndefinedExactlyWhenAllGain` | apps/api/app/risk/engine.py:36-38 | Among accepted inputs the shortfall divides by zero exactly when every return is strictly positive. |
| `Risk.ValueAtRiskIsQuantile` | apps/api/app/risk/engine.py:32-36 | Value at risk is the least nonnegative threshold that at least the confidence share of losses does not exceed. |
| `Risk.ShortfallIsAtLeastValueAtRisk` | apps/api/app/risk/engine.py:36-38 | Expected shortfall is at least value at risk, and neither is negative, as returns and as amounts. |
| `Risk.ShortfallIsTailMean` | apps/api/app/risk/engine.py:36-51 | Shortfall times the number of returns whose loss reaches value at risk is the sum of those losses; amounts are the portfolio value times the figures. |
| `Risk.RefusedExactly` | apps/api/app/risk/engine.py:22-38 | What is refused and why, in the order the arguments are checked; everything else succeeds. |
| `Risk.FiguresGrowWithConfidence` | apps/api/app/risk/engine.py:32-38 | Both are nondecreasing in the confidence level, and defined together. |
| `Risk.ReturnOrderIsIrrelevant` | apps/api/app/risk/engine.py:32-38 | Permuting the returns changes nothing. |
| `Exposures.RunBreakdowns` | apps/api/app/exposures/engine.py:44-64 | The three dictionaries built in the loop are the breakdowns by label, cash included. |
| `Exposures.RunCalculate` | apps/api/app/exposures/engine.py:19-76 | The method returns for every input what the specification says, errors included. |
| `Exposures.BreakdownIsByLabel` | apps/api/app/exposures/engine.py:47-60 | A category appears exactly when a holding has its label, and holds the value of just those holdings. |
| `Exposures.BreakdownsAddUp` | apps/api/app/exposures/engine.py:49-83 | For any classification map each of the three breakdowns sums to exactly one. |
| `Exposures.SharesAddUp` | apps/api/app/exposures/engine.py:31-42 | Position weights sum to one minus the cash weight. |
| `Exposures.FirstIsLargest` | apps/api/app/exposures/engine.py:34-42 | The first sorted weight is the largest and none is negative. |
| `Exposures.HerfindahlBounds` | apps/api/app/exposures/engine.py:73-74 | The index lies between (1 - cash weight) squared over n and largest weight times (1 - cash weight). |
| `ExposureFields.RefusedExactly` | apps/api/app/exposures/engine.py:19-30 | What is refused and why, in order; everything else succeeds. |
| `ExposureFields.WeightsInFields` | apps/api/app/exposures/engine.py:31-83 | The weights are the holdings' shares of cash plus values, heaviest first and then by id; the top holdings are the first of them, as many as asked for and held. |
| `ExposureFields.BreakdownsInFields` | apps/api/app/exposures/engine.py:44-83 | Sectors, asset classes and geographies each list exactly the labels of their own field that holdings have, UNCLASSIFIED without classification, and CASH, with value and share, largest first and then by name. |
| `Comparison.RunExposureChanges` | apps/api/app/scenarios/comparison.py:84-108 | The nested loops produce one change per category of each dimension, in name order. |
| `Comparison.ChangesTotal` | apps/api/app/scenarios/comparison.py:93-107 | The changes of a dimension sum to the difference of the two sides' weights. |
| `Comparison.CategoriesReadBack` | apps/api/app/scenarios/comparison.py:93-94 | Reading the listed categories back gives every category's weight. |
| `Comparison.ChangesCancel` | apps/api/app/scenarios/comparison.py:84-108 | Between any two calculated exposures the changes of each dimension sum to zero. |
| `ExposureFields.ComparisonInFields` | apps/api/app/scenarios/comparison.py:84-108 | The comparison is the changes of sectors, then asset classes, then geographies, by name, each with the weight its own rows list before and after, zero where they list none, and the difference. |
| `Scenarios.RunPositions` | apps/api/app/scenarios/engine.py:41-87 | The loop projects every position, or stops at the first whose combined impact leaves no positive price. |
| `Scenarios.RunApply` | apps/api/app/scenarios/engine.py:27-116 | The method returns for every input what the specification says, errors included. |
| `Scenarios.ReturnUndefinedExactlyOnZeroValue` | apps/api/app/scenarios/engine.py:36-104 | The portfolio return divides by zero if and only if the fund matches, the definition is accepted, every position's summed impacts exceed -1, and the baseline value is zero. |
| `Scenarios.EmptyLedgerHasNoReturn` | apps/api/app/scenarios/engine.py:104-104 | It does so for every accepted scenario of the fund on the valuation of an empty ledger. |
| `Scenarios.ImpactIsLinear` | apps/api/app/scenarios/engine.py:118-158 | Whether a shock contributes does not depend on its magnitude, and its impact is linear in it. |
| `ScenarioFields.PositionInFields` | apps/api/app/scenarios/engine.py:41-87 | Every position's return is the sum over the shocks of: the magnitude for the market, the named instrument or its sector; minus duration times magnitude for a rate; loading times magnitude for a factor. Price, value and P&L all move by it. |
| `ScenarioFields.PortfolioInFields` | apps/api/app/scenarios/engine.py:88-104 | Portfolio P&L adds up the positions'; the portfolio return times the baseline value is that P&L. |
| `ScenarioFields.RefusedExactly` | apps/api/app/scenarios/engine.py:36-59 | What is refused and why, in the order the engine finds it: other fund, a definition that does not fit, the first position wiped out, a zero baseline; everything else succeeds. |
| `ScenarioFields.AcceptedFits` | apps/api/app/scenarios/engine.py:160-188 | A definition is accepted if and only if it has a name, a version, different sequence numbers, and shocks whose target and unit are those of their type. |
| `ScenarioFields.ContributionsInFields` | apps/api/app/scenarios/engine.py:43-54 | Each position lists one contribution for each shock that bears on it, by ascending sequence number. |
| `Scenarios.ImpactIsSum` | apps/api/app/scenarios/engine.py:42-55 | The return impact is the sum of the shocks' impacts, in whatever order they are listed. |
| `Scenarios.ShocksSuperpose` | apps/api/app/scenarios/engine.py:42-55 | The return impact of a combined shock set is the sum of its parts'. |
| `Scenarios.PortfolioGainsSuperpose` | apps/api/app/scenarios/engine.py:88-104 | So is the portfolio P&L, for accepted scenarios on one consistent valuation. |
| `Scenarios.UnaddressedIsUntouched` | apps/api/app/scenarios/engine.py:118-158 | A position that no shock bears on keeps its price and value. |
| `Scenarios.RefusedExactlyWhenWipedOut` | apps/api/app/scenarios/engine.py:55-59 | A scenario is refused for a price exactly when some position's impacts add up to -100% or worse. |
| `Scenarios.PricesStayPositive` | apps/api/app/scenarios/engine.py:55-60 | Every positive price stays positive. |
| `Scenarios.HoldingsAreUntouched` | apps/api/app/scenarios/engine.py:68-75 | Cash, quantities and cost basis are those of the baseline. |
| `Scenarios.PortfolioGainsAreConserved` | apps/api/app/scenarios/engine.py:88-104 | Portfolio P&L is the sum of position P&Ls and is what the portfolio value moves by. |
| `Scenarios.UnrealizedGainMovesByPnl` | apps/api/app/scenarios/engine.py:63-101 | Unrealized P&L is known after exactly when it was before, and moves by the P&L. |
| `Scenarios.ValuationsAreConsistent` | apps/api/app/valuation/engine.py:59-78 | Valuations the valuation engine produces satisfy what the scenario laws assume. |
| `Sorting.SortPermutation` | apps/api/app/portfolio/engine.py:66-71 | Sorting by a key that distinguishes the elements does not depend on arrival order. |
| `Text.BlankIsStrippedToNothing` | apps/api/app/governance/service.py:626-635 | Text counts as blank exactly when stripping white space leaves nothing. |
| `Text.OrderIsByFirstDifference` | apps/api/app/exposures/engine.py:78-83 | Text order is decided at the first character that differs, and a beginning comes first. |

## Left out

- Beta, benchmark comparison and return attribution of the analytics engine: single formulas.
- `Risk.Calculate`: does not report volatility, beta or tracking error, nor refuse nonpositive annualization periods: single formulas beside the ones modelled.
- `Governance.MakePlan`: a command reads one earlier state of its proposal, where the service reads the row and its evidence at separate moments; the evidence only grows.
- `Governance.Execute`: commands act on one proposal, which exists; creation of others does not touch it.
- `Text.Blank`: knows ASCII white space only, and stored text is kept as given rather than stripped.
- `Scenarios.Impact`: sector and factor names that are themselves UUID text cannot match a shock, because such a target is read as an instrument.
- `Valuation.RunValueAt`: quotes are supplied by the caller; choosing the latest fresh price is market-data plumbing.
- `Ledger.RecordConflict`: keeps the conflicting economics, not the full incoming payload with its source metadata and correction links.
- Decimal rounding to 28 digits: amounts are exact, so a residue that rounding would leave in a moving average does not appear.
- Digests, JSON canonical forms and Decimal text: canonical values are compared directly.
- Warnings and explanation texts of every engine.
- Time zones: all instants are comparable. Currencies other than USD beyond their rejection.
- Creation of funds, accounts, instruments, users and import batches: foreign keys are taken to hold and batches to exist beforehand.
- `Governance.Advance`: does not apply the database trigger on the proposal row, so a stale write may lower the content version; `WorkflowHistory.TriggerAllows` states the trigger.
- Database triggers that forbid updates of evidence: append-only tables are sequences that only grow.
- Audit events: they repeat what the workflow transitions and snapshots record.
- Projected risk and policy results of the before-and-after comparison: they call engines modelled here or left out.
- Policy thresholds, liquidity weights, reconciliation tolerances, CSV import, market data, the AI layer, the API and the web front end: plumbing, or facts of one branch.
