/** The whole protocol at work: any number of reserves with their tokens, any number of
positions, and every instruction that moves value, in any order.

A position and a reserve not yet used are as good as not yet created, so a world has all of
them from the start. Who may sign for whom, pauses and caps other than the reserve's own are
left open: the runs here include those of the program. */
module Ledger {
  import opened Wrappers
  import opened FixedPoint
  import opened Debts
  import opened Reserves
  import opened PoolSteps
  import opened Health
  import opened Obligations
  import opened Valuation
  import opened Lending
  import opened BorrowLaws
  import opened Sums
  import opened Books

  datatype World = World(slot: u64, books: seq<Book>, obligations: seq<ObligationState>)

  /** What is done with one position and one reserve. */
  datatype PositionOp =
    | Draw(oracle: Quote, walletCap: u64, amount: u64)
    | PayBack(amount: u64)
    | LockShares(shares: u64)
    | ReleaseShares(oracle: Quote, shares: u64)
    | AbsorbDebt

  datatype Action =
    | Tick(slot: u64)
    | OnBook(key: Key, bookOp: BookOp)
    | OnPosition(who: nat, position: nat, key: Key, op: PositionOp)
    | RefreshPosition(position: nat, keys: seq<Key>, oracles: seq<Quote>)
    | LiquidatePosition(who: nat, feeOwner: nat, position: nat, repayKey: Key, collateralKey: Key,
                        repayOracle: Quote, collateralOracle: Quote, shareBps: u16, amount: u64)

  datatype Touched = Touched(book: Book, obligation: ObligationState)

  /** One instruction on position number `o` and book `key`, tokens included. */
  function PositionStep(b: Book, key: Key, x: ObligationState, o: nat, who: nat, op: PositionOp, slot: u64)
    : Result<Touched>
  {
    match op
    case Draw(oracle, walletCap, amount) =>
      var s :- BorrowStep(x, key, b.reserve, oracle, walletCap, amount, slot);
      var c :- PayOut(b.(reserve := s.reserve), who, s.paidOut);
      Ok(Touched(c, s.obligation))
    case PayBack(amount) =>
      var s :- RepayStep(x, key, b.reserve, amount, slot);
      var c :- PayIn(b.(reserve := s.reserve), who, s.paid);
      Ok(Touched(c, s.obligation))
    case LockShares(shares) =>
      var y :- DepositCollateralStep(x, key, b.reserve, shares);
      var c :- Lock(b, who, o, shares);
      Ok(Touched(c, y))
    case ReleaseShares(oracle, shares) =>
      var y :- WithdrawCollateralStep(x, key, b.reserve, oracle, shares, slot);
      var c :- Unlock(b, who, o, shares);
      Ok(Touched(c, y))
    case AbsorbDebt =>
      var s :- AbsorbStep(x, key, b.reserve, slot);
      Ok(Touched(b.(reserve := s.reserve), s.obligation))
  }

  function PairsOf(books: seq<Book>, keys: seq<Key>, oracles: seq<Quote>): Result<seq<Pair>> {
    var _ :- Need(|keys| == |oracles| && forall i :: 0 <= i < |keys| ==> keys[i] < |books|, UnknownAccount);
    Ok(seq(|keys|, i requires 0 <= i < |keys| => Pair(keys[i], books[keys[i]].reserve, oracles[i])))
  }

  /** Seized shares to the liquidator and, unless it rounded away, the protocol's part. */
  function Reward(b: Book, o: nat, who: nat, toLiquidator: nat, feeOwner: nat, toProtocol: nat): Result<Book> {
    var rewarded :- Unlock(b, who, o, toLiquidator);
    if toProtocol > 0 then Unlock(rewarded, feeOwner, o, toProtocol) else Ok(rewarded)
  }

  /** The two legs of a liquidation: tokens into the repaid reserve's vault, then the seized
      shares out of the position's vault. Both reserves may be the same. */
  function Settle(books: seq<Book>, o: nat, l: Liquidation, who: nat, feeOwner: nat, repayKey: Key, collateralKey: Key)
    : Result<seq<Book>>
    requires repayKey < |books| && collateralKey < |books|
  {
    var paid :- PayIn(books[repayKey].(reserve := l.reserve), who, l.repaid);
    var booked := books[repayKey := paid];
    var rewarded :- Reward(booked[collateralKey], o, who, l.toLiquidator, feeOwner, l.toProtocol);
    Ok(booked[collateralKey := rewarded])
  }

  function Step(w: World, a: Action): Result<World> {
    match a
    case Tick(slot) =>
      var _ :- Need(w.slot <= slot, UnknownAccount);
      Ok(w.(slot := slot))
    case OnBook(key, op) =>
      var _ :- Need(key < |w.books|, UnknownAccount);
      var b :- BookStep(w.books[key], op, w.slot);
      Ok(w.(books := w.books[key := b]))
    case OnPosition(who, o, key, op) =>
      var _ :- Need(key < |w.books| && o < |w.obligations|, UnknownAccount);
      var t :- PositionStep(w.books[key], key, w.obligations[o], o, who, op, w.slot);
      Ok(w.(books := w.books[key := t.book], obligations := w.obligations[o := t.obligation]))
    case RefreshPosition(o, keys, oracles) =>
      var _ :- Need(o < |w.obligations|, UnknownAccount);
      var pairs :- PairsOf(w.books, keys, oracles);
      var x :- Refreshed(w.obligations[o], pairs, w.slot);
      Ok(w.(obligations := w.obligations[o := x]))
    case LiquidatePosition(who, feeOwner, o, rk, ck, repayOracle, collateralOracle, shareBps, amount) =>
      var _ :- Need(rk < |w.books| && ck < |w.books| && o < |w.obligations|, UnknownAccount);
      var l :- LiquidateStep(w.obligations[o], rk, w.books[rk].reserve, ck, w.books[ck].reserve,
                             repayOracle, collateralOracle, shareBps, amount, w.slot);
      var books :- Settle(w.books, o, l, who, feeOwner, rk, ck);
      Ok(w.(books := books, obligations := w.obligations[o := l.obligation]))
  }

  /** A failed instruction changes nothing. */
  function After(w: World, a: Action): World {
    match Step(w, a)
    case Ok(v) => v
    case Err(_) => w
  }

  function Run(w: World, actions: seq<Action>): World
    decreases actions
  {
    if actions == [] then w else Run(After(w, actions[0]), actions[1..])
  }

  // ---------- joint conservation ----------

  function LockedIn(os: seq<ObligationState>, key: Key): (xs: seq<nat>)
    ensures |xs| == |os| && forall o :: 0 <= o < |os| ==> xs[o] == RecordedShares(os[o].deposits, key)
  {
    seq(|os|, o requires 0 <= o < |os| => RecordedShares(os[o].deposits, key))
  }

  function PrincipalsIn(os: seq<ObligationState>, key: Key): (xs: seq<nat>)
    ensures |xs| == |os| && forall o :: 0 <= o < |os| ==> xs[o] == RecordedPrincipal(os[o].borrows, key)
  {
    seq(|os|, o requires 0 <= o < |os| => RecordedPrincipal(os[o].borrows, key))
  }

  /** Every position's share vault holds what the position records, and the reserve's
      principal is the positions' entries added up. */
  predicate Matches(b: Book, os: seq<ObligationState>, key: Key) {
    b.locked == LockedIn(os, key) && b.reserve.borrowedPrincipal == Sum(PrincipalsIn(os, key))
  }

  ghost predicate BookReconciled(b: Book, os: seq<ObligationState>, key: Key) {
    Balanced(b) && Matches(b, os, key) && b.reserve.config.Valid() && b.reserve.borrowIndex >= SCALE
  }

  ghost predicate Reconciled(w: World) {
    && (forall o :: 0 <= o < |w.obligations| ==> WellFormed(w.obligations[o]))
    && (forall key: Key :: key < |w.books| ==> BookReconciled(w.books[key], w.obligations, key))
  }

  /** Empty positions; reserves without debt or shares, holding what was donated. */
  ghost predicate Initial(w: World) {
    && (forall o :: 0 <= o < |w.obligations| ==> w.obligations[o].deposits == [] && w.obligations[o].borrows == [])
    && (forall key: Key :: key < |w.books| ==> FreshBook(w.books[key], |w.obligations|))
  }

  predicate FreshBook(b: Book, positions: nat) {
    var r := b.reserve;
    && r == ReserveState(r.liquidityDecimals, 0, 0, 0, SCALE, r.lastUpdateSlot, 0, r.config) && r.config.Valid()
    && b.vault == b.donated && b.burned == 0
    && (forall i :: 0 <= i < |b.shares| ==> b.shares[i] == 0)
    && |b.locked| == positions && forall i :: 0 <= i < |b.locked| ==> b.locked[i] == 0
  }

  lemma {:induction false} ZerosSumToZero(xs: seq<nat>)
    requires forall i :: 0 <= i < |xs| ==> xs[i] == 0
    ensures Sum(xs) == 0
  {
    if xs != [] { ZerosSumToZero(xs[..|xs| - 1]); }
  }

  lemma InitialIsReconciled(w: World)
    requires Initial(w)
    ensures Reconciled(w)
  {
    forall key: Key | key < |w.books| ensures BookReconciled(w.books[key], w.obligations, key) {
      var b := w.books[key];
      assert FreshBook(b, |w.obligations|);
      ZerosSumToZero(b.shares);
      ZerosSumToZero(b.locked);
      ZerosSumToZero(PrincipalsIn(w.obligations, key));
      assert b.locked == LockedIn(w.obligations, key);
    }
  }

  /** Position `o` became `x` and book `b` became `c`, by the same amounts. */
  ghost predicate MovesTogether(b: Book, c: Book, o: nat, from: ObligationState, x: ObligationState, key: Key) {
    && o < |b.locked| && c.locked == b.locked[o := RecordedShares(x.deposits, key)]
    && c.reserve.borrowedPrincipal + RecordedPrincipal(from.borrows, key)
        == b.reserve.borrowedPrincipal + RecordedPrincipal(x.borrows, key)
  }

  lemma MatchesAfter(b: Book, c: Book, os: seq<ObligationState>, o: nat, x: ObligationState, key: Key)
    requires o < |os| && Matches(b, os, key) && MovesTogether(b, c, o, os[o], x, key)
    ensures Matches(c, os[o := x], key)
  {
    hide RecordedShares, RecordedPrincipal, Sum;
    var ps, qs := PrincipalsIn(os, key), PrincipalsIn(os[o := x], key);
    SumsDifferAt(ps, qs, o);
    assert c.locked == LockedIn(os[o := x], key);
  }

  /** The other reserves do not appear in what changed. */
  ghost predicate OthersUntouched(from: ObligationState, x: ObligationState, key: Key) {
    forall other: Key :: other != key ==>
      && RecordedShares(x.deposits, other) == RecordedShares(from.deposits, other)
      && RecordedPrincipal(x.borrows, other) == RecordedPrincipal(from.borrows, other)
  }

  // ---------- one position, one reserve ----------

  /** What one instruction on a position must respect, whatever it is. */
  ghost predicate StepConserves(b: Book, c: Book, o: nat, from: ObligationState, x: ObligationState, key: Key) {
    && Conserves(b, c) && c.reserve.config == b.reserve.config && c.reserve.borrowIndex == b.reserve.borrowIndex
    && MovesTogether(b, c, o, from, x, key) && OthersUntouched(from, x, key) && WellFormed(x)
  }

  lemma DrawConserves(b: Book, key: Key, x: ObligationState, o: nat, who: nat, oracle: Quote, walletCap: u64,
                      amount: u64, slot: u64)
    requires WellFormed(x) && o < |b.locked| && b.locked[o] == RecordedShares(x.deposits, key)
    requires PositionStep(b, key, x, o, who, Draw(oracle, walletCap, amount), slot).Ok?
    ensures var t := PositionStep(b, key, x, o, who, Draw(oracle, walletCap, amount), slot).value;
      StepConserves(b, t.book, o, x, t.obligation, key)
  {
    var s := BorrowStep(x, key, b.reserve, oracle, walletCap, amount, slot).value;
    AcceptedBorrow(x, key, b.reserve, oracle, walletCap, amount, slot);
    LentMoves(b.reserve, amount);
    var borrows := PutPrincipal(x.borrows, key, s.principal).value;
    hide BorrowStep, Lend, Sum, WellFormed, PutPrincipal, RecordedPrincipal, RecordedShares;
    PayOutConserves(b, s.reserve, who, s.paidOut);
    PutPrincipalKept(x, key, s.principal);
    SameFormWhenStale(x.(borrows := borrows), s.obligation);
    forall other: Key { PutPrincipalRecords(x.borrows, key, s.principal, other); }
    assert b.locked[o := b.locked[o]] == b.locked;
  }

  lemma LentMoves(r: ReserveState, amount: u64)
    requires Lend(r, amount).Ok? && amount > 0
    ensures var l := Lend(r, amount).value;
      && l.principal > 0 && l.reserve.borrowedPrincipal == r.borrowedPrincipal + l.principal
      && l.reserve.availableLiquidity + l.paidOut == r.availableLiquidity
      && l.reserve.shareMintSupply == r.shareMintSupply && l.reserve.config == r.config
      && l.reserve.borrowIndex == r.borrowIndex
  {
    CeilIsSmallest(0, amount * SCALE, r.borrowIndex);
  }

  lemma ReceivedMoves(r: ReserveState, principal: u128, amount: u64)
    requires Receive(r, principal, amount).Ok?
    ensures var d := Receive(r, principal, amount).value;
      && d.principal <= principal && d.reserve.borrowedPrincipal + d.principal == r.borrowedPrincipal
      && d.reserve.availableLiquidity == r.availableLiquidity + amount
      && d.reserve.shareMintSupply == r.shareMintSupply && d.reserve.config == r.config
      && d.reserve.borrowIndex == r.borrowIndex
  {
  }

  /** The form of a position is in its entries alone. */
  lemma SameFormWhenStale(x: ObligationState, y: ObligationState)
    requires WellFormed(x) && y.deposits == x.deposits && y.borrows == x.borrows
    ensures WellFormed(y)
  {
  }

  lemma PayBackConserves(b: Book, key: Key, x: ObligationState, o: nat, who: nat, amount: u64, slot: u64)
    requires WellFormed(x) && o < |b.locked| && b.locked[o] == RecordedShares(x.deposits, key)
    requires PositionStep(b, key, x, o, who, PayBack(amount), slot).Ok?
    ensures var t := PositionStep(b, key, x, o, who, PayBack(amount), slot).value;
      StepConserves(b, t.book, o, x, t.obligation, key)
  {
    var s, i := RepayStep(x, key, b.reserve, amount, slot).value, BorrowIndex(x.borrows, key);
    ReceivedMoves(b.reserve, x.borrows[i].borrowedPrincipal, s.paid);
    hide Receive, Sum, WellFormed, TakePrincipal, RecordedPrincipal, RecordedShares, DebtAt;
    PayInConserves(b, s.reserve, who, s.paid);
    TakePrincipalKept(x, i, s.principal);
    SameFormWhenStale(x.(borrows := s.obligation.borrows), s.obligation);
    forall other: Key { TakePrincipalRecords(x.borrows, i, s.principal, other); }
    assert b.locked[o := b.locked[o]] == b.locked;
  }

  lemma LockSharesConserves(b: Book, key: Key, x: ObligationState, o: nat, who: nat, shares: u64, slot: u64)
    requires WellFormed(x) && o < |b.locked| && b.locked[o] == RecordedShares(x.deposits, key)
    requires PositionStep(b, key, x, o, who, LockShares(shares), slot).Ok?
    ensures var t := PositionStep(b, key, x, o, who, LockShares(shares), slot).value;
      StepConserves(b, t.book, o, x, t.obligation, key)
  {
    var y := DepositCollateralStep(x, key, b.reserve, shares).value;
    hide Sum, WellFormed, PutCollateral, RecordedPrincipal, RecordedShares, CheckIsolation;
    LockConserves(b, who, o, shares);
    PutCollateralKept(x, key, shares);
    SameFormWhenStale(x.(deposits := y.deposits), y);
    forall other: Key { PutCollateralRecords(x.deposits, key, shares, other); }
  }

  lemma ReleaseSharesConserves(b: Book, key: Key, x: ObligationState, o: nat, who: nat, oracle: Quote, shares: u64,
                               slot: u64)
    requires WellFormed(x) && o < |b.locked| && b.locked[o] == RecordedShares(x.deposits, key)
    requires PositionStep(b, key, x, o, who, ReleaseShares(oracle, shares), slot).Ok?
    ensures var t := PositionStep(b, key, x, o, who, ReleaseShares(oracle, shares), slot).value;
      StepConserves(b, t.book, o, x, t.obligation, key)
  {
    var y, i := WithdrawCollateralStep(x, key, b.reserve, oracle, shares, slot).value, CollateralIndex(x.deposits, key);
    hide Sum, WellFormed, TakeCollateral, RecordedPrincipal, RecordedShares, RemovedAllowed;
    UnlockConserves(b, who, o, shares);
    TakeCollateralKept(x, i, shares);
    SameFormWhenStale(x.(deposits := y.deposits), y);
    forall other: Key { TakeCollateralRecords(x.deposits, i, shares, other); }
  }

  lemma AbsorbDebtConserves(b: Book, key: Key, x: ObligationState, o: nat, who: nat, slot: u64)
    requires WellFormed(x) && o < |b.locked| && b.locked[o] == RecordedShares(x.deposits, key)
    requires PositionStep(b, key, x, o, who, AbsorbDebt, slot).Ok?
    ensures var t := PositionStep(b, key, x, o, who, AbsorbDebt, slot).value;
      StepConserves(b, t.book, o, x, t.obligation, key)
  {
    var s, i := AbsorbStep(x, key, b.reserve, slot).value, BorrowIndex(x.borrows, key);
    assert TakePrincipal(x.borrows, i, s.principal) == s.obligation.borrows;
    hide Sum, WellFormed, TakePrincipal, DropAt, RecordedPrincipal, RecordedShares;
    TakePrincipalKept(x, i, s.principal);
    SameFormWhenStale(x.(borrows := s.obligation.borrows), s.obligation);
    forall other: Key { TakePrincipalRecords(x.borrows, i, s.principal, other); }
    assert b.locked[o := b.locked[o]] == b.locked;
  }

  lemma PositionStepConserves(b: Book, key: Key, x: ObligationState, o: nat, who: nat, op: PositionOp, slot: u64)
    requires WellFormed(x) && o < |b.locked| && b.locked[o] == RecordedShares(x.deposits, key)
    requires PositionStep(b, key, x, o, who, op, slot).Ok?
    ensures var t := PositionStep(b, key, x, o, who, op, slot).value;
      StepConserves(b, t.book, o, x, t.obligation, key)
  {
    hide PositionStep, StepConserves, WellFormed, RecordedShares;
    match op
    case Draw(oracle, walletCap, amount) => DrawConserves(b, key, x, o, who, oracle, walletCap, amount, slot);
    case PayBack(amount) => PayBackConserves(b, key, x, o, who, amount, slot);
    case LockShares(shares) => LockSharesConserves(b, key, x, o, who, shares, slot);
    case ReleaseShares(oracle, shares) => ReleaseSharesConserves(b, key, x, o, who, oracle, shares, slot);
    case AbsorbDebt => AbsorbDebtConserves(b, key, x, o, who, slot);
  }

  // ---------- refreshing ----------

  lemma {:induction false} DepositsLoopKeeps(ds: seq<Collateral>, pairs: seq<Pair>, slot: u64)
    requires ValueDeposits(ds, pairs, slot).Ok?
    ensures var es := ValueDeposits(ds, pairs, slot).value.entries;
      |es| == |ds| && forall i :: 0 <= i < |ds| ==> es[i] == ds[i].(marketValue := es[i].marketValue)
  {
    hide ReadPair, SharesWorth;
    if ds != [] { DepositsLoopKeeps(ds[..|ds| - 1], pairs, slot); }
  }

  lemma {:induction false} BorrowsLoopKeeps(bs: seq<Liability>, pairs: seq<Pair>, cursor: nat, slot: u64)
    requires ValueBorrows(bs, pairs, cursor, slot).Ok?
    ensures var es := ValueBorrows(bs, pairs, cursor, slot).value.entries;
      |es| == |bs| && forall i :: 0 <= i < |bs| ==> es[i] == bs[i].(marketValue := es[i].marketValue)
  {
    hide ReadPair, DebtWorth;
    if bs != [] { BorrowsLoopKeeps(bs[..|bs| - 1], pairs, cursor, slot); }
  }

  lemma {:induction false} ValuesDoNotCountAsShares(ds: seq<Collateral>, es: seq<Collateral>, key: Key)
    requires |es| == |ds| && forall i :: 0 <= i < |ds| ==> es[i] == ds[i].(marketValue := es[i].marketValue)
    ensures RecordedShares(es, key) == RecordedShares(ds, key)
  {
    if ds != [] { ValuesDoNotCountAsShares(ds[1..], es[1..], key); }
  }

  lemma {:induction false} ValuesDoNotCountAsPrincipal(bs: seq<Liability>, es: seq<Liability>, key: Key)
    requires |es| == |bs| && forall i :: 0 <= i < |bs| ==> es[i] == bs[i].(marketValue := es[i].marketValue)
    ensures RecordedPrincipal(es, key) == RecordedPrincipal(bs, key)
  {
    if bs != [] { ValuesDoNotCountAsPrincipal(bs[1..], es[1..], key); }
  }

  /** A refresh changes valuations, never what is recorded. */
  lemma RefreshKeepsRecords(o: ObligationState, pairs: seq<Pair>, slot: u64)
    requires WellFormed(o) && Refreshed(o, pairs, slot).Ok?
    ensures var x := Refreshed(o, pairs, slot).value;
      && WellFormed(x)
      && forall key: Key :: RecordedShares(x.deposits, key) == RecordedShares(o.deposits, key)
                            && RecordedPrincipal(x.borrows, key) == RecordedPrincipal(o.borrows, key)
  {
    DepositsLoopKeeps(o.deposits, pairs, slot);
    BorrowsLoopKeeps(o.borrows, pairs, |o.deposits|, slot);
    var x := Refreshed(o, pairs, slot).value;
    hide Refreshed, RecordedShares, RecordedPrincipal;
    forall key: Key
      ensures RecordedShares(x.deposits, key) == RecordedShares(o.deposits, key)
      ensures RecordedPrincipal(x.borrows, key) == RecordedPrincipal(o.borrows, key)
    {
      ValuesDoNotCountAsShares(o.deposits, x.deposits, key);
      ValuesDoNotCountAsPrincipal(o.borrows, x.borrows, key);
    }
  }

  // ---------- liquidating ----------

  /** The tokens come in and the debt goes down. */
  lemma RepaidLegConserves(b: Book, key: Key, x: ObligationState, o: nat, i: nat, who: nat, r: ReserveState,
                           principal: u128, repaid: u64)
    requires WellFormed(x) && o < |b.locked| && b.locked[o] == RecordedShares(x.deposits, key)
    requires i < |x.borrows| && x.borrows[i].reserve == key && principal <= x.borrows[i].borrowedPrincipal
    requires Receive(b.reserve, x.borrows[i].borrowedPrincipal, repaid) == Ok(Received(r, principal))
    requires PayIn(b.(reserve := r), who, repaid).Ok?
    ensures StepConserves(b, PayIn(b.(reserve := r), who, repaid).value, o, x,
                          x.(borrows := TakePrincipal(x.borrows, i, principal)), key)
  {
    ReceivedMoves(b.reserve, x.borrows[i].borrowedPrincipal, repaid);
    hide Receive, Sum, WellFormed, TakePrincipal, RecordedPrincipal, RecordedShares;
    PayInConserves(b, r, who, repaid);
    TakePrincipalKept(x, i, principal);
    forall other: Key { TakePrincipalRecords(x.borrows, i, principal, other); }
    assert b.locked[o := b.locked[o]] == b.locked;
  }

  lemma RewardConserves(b: Book, o: nat, who: nat, toLiquidator: nat, feeOwner: nat, toProtocol: nat)
    requires Reward(b, o, who, toLiquidator, feeOwner, toProtocol).Ok?
    ensures var c := Reward(b, o, who, toLiquidator, feeOwner, toProtocol).value;
      && Conserves(b, c) && c.reserve == b.reserve && o < |b.locked|
      && b.locked[o] >= toLiquidator + toProtocol
      && c.locked == b.locked[o := b.locked[o] - (toLiquidator + toProtocol)]
  {
    var rewarded := Unlock(b, who, o, toLiquidator).value;
    UnlockConserves(b, who, o, toLiquidator);
    if toProtocol > 0 { UnlockConserves(rewarded, feeOwner, o, toProtocol); }
  }

  /** The seized shares leave the position's vault for their two owners. */
  lemma SeizedLegConserves(b: Book, key: Key, x: ObligationState, y: ObligationState, o: nat, j: nat,
                           who: nat, toLiquidator: u64, feeOwner: nat, toProtocol: u64)
    requires WellFormed(x) && o < |b.locked| && b.locked[o] == RecordedShares(x.deposits, key)
    requires j < |x.deposits| && x.deposits[j].reserve == key
      && toLiquidator + toProtocol <= x.deposits[j].depositedShares
    requires y.borrows == x.borrows && y.deposits == TakeCollateral(x.deposits, j, toLiquidator + toProtocol)
    requires Reward(b, o, who, toLiquidator, feeOwner, toProtocol).Ok?
    ensures StepConserves(b, Reward(b, o, who, toLiquidator, feeOwner, toProtocol).value, o, x, y, key)
  {
    RewardConserves(b, o, who, toLiquidator, feeOwner, toProtocol);
    var seized: u64 := toLiquidator + toProtocol;
    hide Reward, Sum, WellFormed, TakeCollateral, RecordedPrincipal, RecordedShares, Conserves;
    TakeCollateralKept(x, j, seized);
    SameFormWhenStale(x.(deposits := y.deposits), y);
    forall other: Key { TakeCollateralRecords(x.deposits, j, seized, other); }
  }
}
