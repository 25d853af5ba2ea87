/** Ledger facts as the calculation engines see them (app/portfolio/types.py, app/ledger/types.py). */
module LedgerTypes {
  import opened Wrappers
  import opened Sorting

  /** A UUID. The source orders UUIDs by their fixed-width hexadecimal text, which is numeric order. */
  type Id = int

  /** A timezone-aware instant. */
  type Instant = int

  /** Positions are held per account and instrument. */
  type Key = (Id, Id)

  datatype Kind =
    | Buy
    | Sell
    | CashDeposit
    | CashWithdrawal
    | Dividend
    | Fee
    | OpeningCash
    | OpeningPosition
    | Reversal

  datatype LedgerTransaction = LedgerTransaction(
    id: Id,
    fundId: Id,
    accountId: Id,
    kind: Kind,
    effectiveAt: Instant,
    recordedAt: Instant,
    source: string,
    externalId: string,
    instrumentId: Option<Id>,
    quantity: Option<real>,
    unitPrice: Option<real>,
    amount: Option<real>,
    fees: real,
    currency: string,
    tradeDate: Option<int>,
    settlementDate: Option<int>,
    reverses: Option<Id>)

  const USD := "USD"

  predicate Positive(x: Option<real>) {
    x.Some? && x.value > 0.0
  }

  /** The replay sort key: effective time, then recorded time, then id. */
  predicate ReplayLe(a: LedgerTransaction, b: LedgerTransaction) {
    a.effectiveAt < b.effectiveAt ||
    (a.effectiveAt == b.effectiveAt &&
     (a.recordedAt < b.recordedAt || (a.recordedAt == b.recordedAt && a.id <= b.id)))
  }

  predicate IdLe(a: Id, b: Id) {
    a <= b
  }

  predicate KeyLe(a: Key, b: Key) {
    a.0 < b.0 || (a.0 == b.0 && a.1 <= b.1)
  }

  ghost predicate UniqueIds(ts: seq<LedgerTransaction>) {
    forall i, j | 0 <= i < j < |ts| :: ts[i].id != ts[j].id
  }

  lemma OrdersAreTotal()
    ensures TotalPreorder(ReplayLe)
    ensures TotalOrder(IdLe)
    ensures TotalOrder(KeyLe)
  {
  }

  /** With unique ids the replay order is strict, so ties never depend on arrival order. */
  lemma UniqueIdsGiveDistinctKeys(ts: seq<LedgerTransaction>)
    requires UniqueIds(ts)
    ensures DistinctKeys(ReplayLe, ts)
  {
    forall x, y | x in ts && y in ts && ReplayLe(x, y) && ReplayLe(y, x)
      ensures x == y
    {
      var i :| 0 <= i < |ts| && ts[i] == x;
      var j :| 0 <= j < |ts| && ts[j] == y;
      assert ts[i].id == ts[j].id;
    }
  }

  /** Unique ids, said of the collection rather than of positions in it. */
  lemma UniqueIdsOfPermutation(a: seq<LedgerTransaction>, b: seq<LedgerTransaction>)
    requires multiset(a) == multiset(b) && UniqueIds(a)
    ensures UniqueIds(b)
  {
    forall i, j | 0 <= i < j < |b|
      ensures b[i].id != b[j].id
    {
      if b[i].id == b[j].id {
        TwoOccurrences(b, i, j);
        SameElements(a, b);
        assert b[i] in b && b[j] in b;
        var x :| 0 <= x < |a| && a[x] == b[i];
        var y :| 0 <= y < |a| && a[y] == b[j];
        assert x == y;
        OneOccurrence(a, x);
      }
    }
  }

  lemma TwoOccurrences<T>(s: seq<T>, i: nat, j: nat)
    requires i < j < |s|
    ensures s[i] == s[j] ==> multiset(s)[s[i]] >= 2
  {
    assert s == s[..i] + [s[i]] + s[i + 1..j] + [s[j]] + s[j + 1..];
  }

  lemma OneOccurrence(s: seq<LedgerTransaction>, i: nat)
    requires i < |s| && UniqueIds(s)
    ensures multiset(s)[s[i]] == 1
  {
    assert s == s[..i] + [s[i]] + s[i + 1..];
    assert forall k | 0 <= k < i :: s[..i][k] != s[i];
    assert s[i] !in s[..i] && s[i] !in s[i + 1..];
  }
}
