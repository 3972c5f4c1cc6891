/** Concrete positions that meet the conditions of the laws about borrowing, withdrawing and
liquidating, and two that show where a promise ends. */
module Scenario {
  import opened Wrappers
  import opened FixedPoint
  import opened Debts
  import opened Reserves
  import opened PoolSteps
  import opened Health
  import opened Obligations
  import opened Valuation
  import opened Lending
  import opened PositionLaws
  import opened BorrowLaws
  import opened LiquidationLaws
  import opened Recovery

  // ---------- refreshing small positions ----------

  /** Current in slot one, at a healthy price of one. */
  function At(key: Key, r: ReserveState): Pair { Pair(key, r, Quote(1, SCALE, Healthy)) }

  lemma OneDeposit(d: Collateral, p: Pair, w: Worth, more: seq<Pair>)
    requires p == At(d.reserve, p.reserve) && p.reserve.lastUpdateSlot == 1
    requires SharesWorth(d.depositedShares, p) == Ok(w) && w.Fits()
    ensures ValueDeposits([d], [p] + more, 1) == Ok(DepositsValued([d.(marketValue := w.face)], w, false))
  {
    var ds, pairs := [d], [p] + more;
    assert ds[..0] == [];
    hide SharesWorth;
    assert ReadPair(pairs, 0, d.reserve, 1) == Ok(p);
    assert ValueDeposits(ds[..0], pairs, 1) == Ok(DepositsValued([], NOTHING, false));
    assert ValueDeposits(ds, pairs, 1) == ValueDeposit(DepositsValued([], NOTHING, false), d, pairs, 0, 1);
    assert [] + [d.(marketValue := w.face)] == [d.(marketValue := w.face)];
  }

  lemma OneDebt(b: Liability, p: Pair, q: Pair, value: u128)
    requires q == At(b.reserve, q.reserve) && q.reserve.lastUpdateSlot == 1
    requires DebtWorth(b.borrowedPrincipal, q) == Ok(value)
    ensures ValueBorrows([b], [p, q], 1, 1) == Ok(BorrowsValued([b.(marketValue := value)], value, false))
  {
    var bs, pairs := [b], [p, q];
    assert bs[..0] == [];
    hide DebtWorth;
    assert ReadPair(pairs, 1, b.reserve, 1) == Ok(q);
    assert ValueBorrows(bs[..0], pairs, 1, 1) == Ok(BorrowsValued([], 0, false));
    assert ValueBorrows(bs, pairs, 1, 1) == ValueBorrow(BorrowsValued([], 0, false), b, pairs, 1, 1);
    assert [] + [b.(marketValue := value)] == [b.(marketValue := value)];
  }

  /** A position with one deposit and no debt, revalued. */
  lemma SaverRevalued(x: ObligationState, p: Pair, w: Worth)
    requires |x.deposits| == 1 && x.borrows == [] && p == At(x.deposits[0].reserve, p.reserve)
    requires p.reserve.lastUpdateSlot == 1 && SharesWorth(x.deposits[0].depositedShares, p) == Ok(w) && w.Fits()
    ensures Refreshed(x, [p], 1)
        == Ok(ObligationState(1, false, false, w.face, w.effective, 0, w.allowed, w.unhealthy,
                              [x.deposits[0].(marketValue := w.face)], []))
  {
    OneDeposit(x.deposits[0], p, w, []);
    assert [p] + [] == [p] && x.deposits == [x.deposits[0]];
    hide ValueDeposits;
    assert ValueBorrows([], [p], 1, 1) == Ok(BorrowsValued([], 0, false));
  }

  /** And one with one debt besides. */
  lemma DebtorRevalued(x: ObligationState, p: Pair, q: Pair, w: Worth, value: u128)
    requires |x.deposits| == 1 == |x.borrows|
    requires p == At(x.deposits[0].reserve, p.reserve) && q == At(x.borrows[0].reserve, q.reserve)
    requires p.reserve.lastUpdateSlot == 1 == q.reserve.lastUpdateSlot
    requires SharesWorth(x.deposits[0].depositedShares, p) == Ok(w) && w.Fits()
    requires DebtWorth(x.borrows[0].borrowedPrincipal, q) == Ok(value)
    ensures Refreshed(x, [p, q], 1)
        == Ok(ObligationState(1, false, false, w.face, w.effective, value, w.allowed, w.unhealthy,
                              [x.deposits[0].(marketValue := w.face)], [x.borrows[0].(marketValue := value)]))
  {
    OneDeposit(x.deposits[0], p, w, [q]);
    OneDebt(x.borrows[0], p, q, value);
    assert [p] + [q] == [p, q] && x.deposits == [x.deposits[0]] && x.borrows == [x.borrows[0]];
    hide ValueDeposits, ValueBorrows;
  }

  // ---------- a saver ----------

  /** Half of the collateral less one per cent may be borrowed, at a flat two per cent. */
  function Terms(): ReserveConfig {
    ReserveConfig(5_000, 6_000, 500, 5_000, 100, 6_000, 200, 200, 200, 1_000, 0, 0, 0, true, true, false, 69_313_098)
  }

  function Pool(): ReserveState { ReserveState(0, 1_000, 1_000, 0, SCALE, 1, 0, Terms()) }

  function Market(): Pair { At(0, Pool()) }

  /** Five hundred units at a price of one, under those terms. */
  const FIVE_HUNDRED := Worth(500 * SCALE, 495 * SCALE, 247_500_000_000_000_000_000, 297 * SCALE)

  /** Five hundred shares locked and refreshed, nothing borrowed. */
  function Saver(): ObligationState {
    ObligationState(1, false, false, FIVE_HUNDRED.face, FIVE_HUNDRED.effective, 0, FIVE_HUNDRED.allowed,
                    FIVE_HUNDRED.unhealthy, [Collateral(0, 500, 500 * SCALE)], [])
  }

  lemma SharesAreWorth(p: Pair)
    requires p == At(0, p.reserve) && p.reserve.liquidityDecimals == 0 && p.reserve.config == Terms()
    requires p.reserve.SharesToLiquidity(500, Down) == Ok(500)
    ensures SharesWorth(500, p) == Ok(FIVE_HUNDRED)
  {
    hide ReserveState.SharesToLiquidity;
    assert TenPow(0) == Ok(1);
    assert MarketValue(500, 0, SCALE, Down) == Ok(500 * SCALE);
    assert ApplyHaircut(500 * SCALE, 100) == Ok(495 * SCALE);
  }

  lemma PoolIsWhole()
    ensures Terms().Valid() && Pool().TotalLiquidity() == Ok(1_000)
  {
    assert DebtAt(0, SCALE) == Ok(0);
    hide DebtAt, Owed;
    assert Pool().GrossLiquidity() == Ok(1_000);
  }

  lemma SharesAreOneToOne()
    ensures Pool().SharesToLiquidity(500, Down) == Ok(500) && Pool().SharesToLiquidity(100, Up) == Ok(100)
  {
    PoolIsWhole();
    hide ReserveState.TotalLiquidity;
    assert MulDiv(500, 1_000, 1_000, Down) == Ok(500) && MulDiv(100, 1_000, 1_000, Up) == Ok(100);
  }

  /** The saver is its own refresh. */
  lemma SaverIsRefreshed()
    ensures WellFormed(Saver()) && Refreshed(Saver(), [Market()], 1) == Ok(Saver())
  {
    SharesAreOneToOne();
    SharesAreWorth(Market());
    hide SharesWorth, Refreshed;
    SaverRevalued(Saver(), Market(), FIVE_HUNDRED);
  }

  lemma RemovalIsSmall()
    ensures RemovedAllowed(100, Pool(), SCALE) == Ok(49_500_000_000_000_000_000)
  {
    SharesAreOneToOne();
    hide ReserveState.SharesToLiquidity;
    assert TenPow(0) == Ok(1);
    assert MarketValue(100, 0, SCALE, Up) == Ok(100 * SCALE);
    assert MulDivCeil(100 * SCALE, 9_900, BPS) == Ok(99 * SCALE);
    assert MulDivCeil(99 * SCALE, 5_000, BPS) == Ok(49_500_000_000_000_000_000);
  }

  lemma SaverMayWithdraw()
    ensures CollateralIndex(Saver().deposits, 0) == 0
    ensures var after := WithdrawCollateralStep(Saver(), 0, Pool(), Market().oracle, 100, 1);
      after.Ok? && |after.value.deposits| == 1 == |Saver().deposits|
  {
    RemovalIsSmall();
    hide RemovedAllowed;
  }

  /** What a withdrawal of part of the only collateral leaves is healthy. */
  lemma StaysHealthy(o: ObligationState, p: Pair, shares: u64)
    requires Refreshed(o, [p], 1) == Ok(o) && p.reserve.config.Valid()
    requires CollateralIndex(o.deposits, p.key) == 0 && |o.deposits| == 1
    requires var after := WithdrawCollateralStep(o, p.key, p.reserve, p.oracle, shares, 1);
      after.Ok? && |after.value.deposits| == 1
    ensures var after := WithdrawCollateralStep(o, p.key, p.reserve, p.oracle, shares, 1).value;
      Refreshed(after, [p], 1).Ok? && !Refreshed(after, [p], 1).value.IsLiquidatable()
  {
    hide WithdrawCollateralStep, Refreshed, ReserveConfig.Valid, CollateralIndex;
    WithdrawalLeavesPositionHealthy(o, [p], 1, p.key, shares);
  }

  /** It may take a fifth of its collateral back, and a refresh finds it healthy. */
  lemma SaverWithdraws()
    ensures var after := WithdrawCollateralStep(Saver(), 0, Pool(), Market().oracle, 100, 1);
      && after.Ok? && Refreshed(after.value, [Market()], 1).Ok?
      && !Refreshed(after.value, [Market()], 1).value.IsLiquidatable()
  {
    SaverIsRefreshed();
    PoolIsWhole();
    SaverMayWithdraw();
    hide WithdrawCollateralStep, Refreshed, ReserveConfig.Valid, Saver, CollateralIndex, WellFormed;
    StaysHealthy(Saver(), Market(), 100);
  }

  lemma SaverMayBorrow()
    ensures BorrowStep(Saver(), 0, Pool(), Market().oracle, 0, 100, 1).Ok?
  {
    assert MarketValue(100, 0, SCALE, Up) == Ok(100 * SCALE) by { assert TenPow(0) == Ok(1); }
    assert AdmitBorrow(Saver(), 0, Pool(), Market().oracle, 0, 100, 1).Ok? by { hide Lend; }
    assert PrincipalAdded(100, SCALE) == Ok(100);
    assert Lend(Pool(), 100).Ok?;
    hide Lend, AdmitBorrow;
  }

  /** What a first borrow leaves to a refresh, if it succeeds, is within its limit. */
  predicate StaysWithin(o: ObligationState, p: Pair, amount: u64) {
    var b := BorrowStep(o, p.key, p.reserve, p.oracle, 0, amount, 1);
    b.Ok? &&
    var recomputed := Refreshed(b.value.obligation, PairsAfterBorrow([p], p.key, b.value.reserve, p.oracle, true), 1);
    recomputed.Ok? ==> recomputed.value.borrowedValue <= recomputed.value.allowedBorrowValue
  }

  lemma FirstStaysWithin(o: ObligationState, p: Pair, amount: u64)
    requires WellFormed(o) && Refreshed(o, [p], 1) == Ok(o) && o.borrows == []
    requires BorrowStep(o, p.key, p.reserve, p.oracle, 0, amount, 1).Ok?
    requires Divides(p.reserve.borrowIndex, amount * SCALE)
    ensures StaysWithin(o, p, amount)
  {
    hide BorrowStep, Refreshed, Divides, RoundingAllowance, WellFormed;
    assert BorrowIndex(o.borrows, p.key) == 0;
    BorrowStaysNearLimit(o, [p], 1, p, 0, amount);
  }

  /** Or borrow a hundred: at index one the refresh finds it within its limit. */
  lemma SaverBorrows()
    ensures StaysWithin(Saver(), Market(), 100)
  {
    SaverIsRefreshed();
    SaverMayBorrow();
    assert Divides(SCALE, 100 * SCALE);
    hide BorrowStep, Refreshed, Divides, WellFormed, StaysWithin;
    FirstStaysWithin(Saver(), Market(), 100);
  }

  // ---------- a debtor ----------

  /** The same pool with three hundred lent out, to a position just past its line. */
  function LentPool(): ReserveState { Pool().(availableLiquidity := 700, borrowedPrincipal := 300) }

  function Debtor(): ObligationState {
    Saver().(borrowedValue := 300 * SCALE, borrows := [Liability(0, 300, 300 * SCALE)])
  }

  lemma LentPoolIsWhole()
    ensures LentPool().TotalLiquidity() == Ok(1_000) && DebtAt(300, SCALE) == Ok(300)
  {
    assert DebtAt(300, SCALE) == Ok(300);
    hide DebtAt, Owed;
    assert LentPool().GrossLiquidity() == Ok(1_000);
  }

  lemma DebtorIsRefreshed()
    ensures WellFormed(Debtor()) && Refreshed(Debtor(), [At(0, LentPool()), At(0, LentPool())], 1) == Ok(Debtor())
  {
    LentPoolIsWhole();
    var p := At(0, LentPool());
    assert p.reserve.SharesToLiquidity(500, Down) == Ok(500) by {
      hide ReserveState.TotalLiquidity;
      assert MulDiv(500, 1_000, 1_000, Down) == Ok(500);
    }
    SharesAreWorth(p);
    assert DebtWorth(300, p) == Ok(300 * SCALE) by {
      hide DebtAt;
      assert TenPow(0) == Ok(1);
    }
    hide SharesWorth, DebtWorth, Refreshed;
    DebtorRevalued(Debtor(), p, p, FIVE_HUNDRED, 300 * SCALE);
  }

  lemma TenSharesForTen()
    ensures SeizeShares(10 * SCALE, LentPool(), SCALE) == Ok(10)
  {
    LentPoolIsWhole();
    hide ReserveState.TotalLiquidity;
    assert TenPow(0) == Ok(1);
    assert MulDivFloor(10 * SCALE, 500, BPS) == Ok(SCALE / 2);
    assert ValueToAmount(10 * SCALE + SCALE / 2, 0, SCALE, Down) == Ok(10);
    assert MulDiv(10, 1_000, 1_000, Down) == Ok(10);
  }

  lemma HalfMayBeRepaid()
    ensures MaxRepay(Debtor(), 0, LentPool()) == Ok(150)
  {
    LentPoolIsWhole();
    hide DebtAt;
    assert Debtor().HealthFactorBps() == Ok(Some(9_900));
  }

  lemma DebtorMayBeLiquidated()
    ensures LiquidateStep(Debtor(), 0, LentPool(), 0, LentPool(), Market().oracle, Market().oracle, 250, 10, 1).Ok?
  {
    TenSharesForTen();
    HalfMayBeRepaid();
    assert MarketValue(10, 0, SCALE, Down) == Ok(10 * SCALE) by { assert TenPow(0) == Ok(1); }
    assert Receive(LentPool(), 300, 10).Ok? by { assert MulDivFloor(10, SCALE, SCALE) == Ok(10); }
    assert SplitSeized(10, 500, 250).Ok?;
    hide SeizeShares, MaxRepay, MarketValue, Receive, SplitSeized;
  }

  /** For no more than the repayment and its bonus. */
  lemma DebtorPaysTheBonus()
    ensures var o, r, q := Debtor(), LentPool(), Market().oracle;
      var l := LiquidateStep(o, 0, r, 0, r, q, q, 250, 10, 1);
      l.Ok? && Backed(r) && RedeemedValue(l.value.seized, r, SCALE) <= RewardedValue(l.value.repaid, r, SCALE, 500)
  {
    DebtorIsRefreshed();
    DebtorMayBeLiquidated();
    hide LiquidateStep, Refreshed, RedeemedValue, RewardedValue, WellFormed, Debtor;
    LiquidationSeizesFairly(Debtor(), 0, LentPool(), 0, LentPool(), Market().oracle, Market().oracle, 250, 10, 1);
  }

  lemma DebtorTerms()
    ensures LentPool().config.Valid() && BonusCovered(LentPool().config) && LentPool().shareMintSupply > 0
    ensures |Debtor().deposits| == 1 == |Debtor().borrows|
    ensures CollateralIndex(Debtor().deposits, 0) == 0 && BorrowIndex(Debtor().borrows, 0) == 0
  {
    PoolIsWhole();
  }

  /** A refresh finds the position no further past its line but for rounding, if it succeeds. */
  predicate Recovers(o: ObligationState, p: Pair, amount: u64) {
    |o.deposits| == 1 == |o.borrows| &&
    var l := LiquidateStep(o, p.key, p.reserve, p.key, p.reserve, p.oracle, p.oracle, 250, amount, 1);
    l.Ok? &&
    var after := l.value.obligation;
    var recomputed := Refreshed(after, PairsAfterLiquidation([p, p], 1, p.key, l.value.reserve, 0, |after.deposits|, 0,
                                                            |after.borrows|), 1);
    recomputed.Ok? ==>
      recomputed.value.borrowedValue + o.unhealthyBorrowValue
        <= o.borrowedValue + recomputed.value.unhealthyBorrowValue
           + CeilValue(CeilDiv(p.reserve.borrowIndex, SCALE), p) + 1
  }

  lemma RecoversAlone(o: ObligationState, p: Pair, amount: u64)
    requires WellFormed(o) && Refreshed(o, [p, p], 1) == Ok(o) && |o.deposits| == 1 == |o.borrows|
    requires CollateralIndex(o.deposits, p.key) == 0 && BorrowIndex(o.borrows, p.key) == 0
    requires p.reserve.config.Valid() && BonusCovered(p.reserve.config) && p.reserve.shareMintSupply > 0
    requires LiquidateStep(o, p.key, p.reserve, p.key, p.reserve, p.oracle, p.oracle, 250, amount, 1).Ok?
    ensures Recovers(o, p, amount)
  {
    hide LiquidateStep, Refreshed, ReserveConfig.Valid, BonusCovered, CeilValue, CeilDiv, PairsAfterLiquidation,
      WellFormed,
      CollateralIndex, BorrowIndex;
    LiquidationRecovers(o, [p, p], 1, p, p, 250, amount);
  }

  /** And recovers. */
  lemma DebtorRecovers()
    ensures Recovers(Debtor(), At(0, LentPool()), 10)
  {
    DebtorTerms();
    DebtorIsRefreshed();
    DebtorMayBeLiquidated();
    assert At(0, LentPool()) == Pair(0, LentPool(), Market().oracle);
    hide LiquidateStep, Refreshed, ReserveConfig.Valid, BonusCovered, WellFormed, Debtor, LentPool, CollateralIndex,
      BorrowIndex, Recovers;
    RecoversAlone(Debtor(), At(0, LentPool()), 10);
  }

  // ---------- a borrow past its limit ----------

  /** A larger pool at slot zero, with `principal` lent out. */
  function Bank(available: u64, shares: u64, principal: u128): ReserveState {
    ReserveState(0, available, shares, principal, SCALE, 0, 0, Terms())
  }

  /** A slot later, at the index its loan has grown to. */
  function Later(available: u64, principal: u128): ReserveState {
    ReserveState(0, available, 100_000, principal, SCALE + 288_545_752, 1, 0, Terms())
  }

  lemma DebtsLater()
    ensures Owed(5, SCALE) == 5 && Owed(5, SCALE + 288_545_752) == 6 && Owed(247, SCALE + 288_545_752) == 248
  {
  }

  lemma BankAccrues()
    ensures Accrued(Bank(99_995, 100_000, 5), 1) == Ok(Later(99_995, 5))
  {
    var r := Bank(99_995, 100_000, 5);
    DebtsLater();
    hide Owed;
    assert r.GrossLiquidity() == Ok(100_000) && r.CurrentBorrowedAmount() == Ok(5);
    assert r.UtilizationBps() == Ok(0) && CurveRate(r.config, 0) == Ok(200);
    assert r.BorrowRatePerSlot() == Ok(288_545_752);
    hide ReserveState.BorrowRatePerSlot;
    assert r.GrownIndex(1) == Ok(SCALE + 288_545_752);
    hide ReserveState.GrownIndex;
    assert r.(borrowIndex := SCALE + 288_545_752).CurrentBorrowedAmount() == Ok(6);
    assert MulDivFloor(1, 1_000, BPS) == Ok(0);
  }

  /** A hundred thousand supplied, five lent for a slot and repaid with interest. */
  lemma BankHistory()
    ensures Supply(Bank(0, 0, 0), 100_000, 0) == Ok(Supplied(Bank(100_000, 100_000, 0), 100_000))
    ensures Lend(Bank(100_000, 100_000, 0), 5) == Ok(Lent(Bank(99_995, 100_000, 5), 5, 5))
    ensures Accrued(Bank(99_995, 100_000, 5), 1) == Ok(Later(99_995, 5))
    ensures Receive(Later(99_995, 5), 5, 6) == Ok(Received(Later(100_001, 0), 5))
  {
    BankAccrues();
    assert PrincipalAdded(5, SCALE) == Ok(5) && MulDivFloor(5, 0, BPS) == Ok(0);
    assert PrincipalRemoved(6, 5, SCALE + 288_545_752) == Ok(5);
    hide PrincipalAdded, PrincipalRemoved, MulDivFloor;
  }

  lemma LaterShares(available: u64, principal: u128, debt: u64)
    requires DebtAt(principal, SCALE + 288_545_752) == Ok(debt) && 100_000 <= available + debt <= 100_100
    ensures Later(available, principal).SharesToLiquidity(500, Down) == Ok(500)
  {
    hide DebtAt;
    assert Later(available, principal).TotalLiquidity() == Ok(available + debt);
    hide ReserveState.TotalLiquidity, FloorDiv;
    FloorIsLargest(500, 500 * (available + debt), 100_000);
    FloorIsLargest(501, 500 * (available + debt), 100_000);
    assert MulDiv(500, available + debt, 100_000, Down) == Ok(500);
  }

  /** Nothing deposited, nothing owed. */
  function Nobody(): ObligationState { ObligationState(0, true, false, 0, 0, 0, 0, 0, [], []) }

  /** Locking five hundred shares and refreshing makes a saver of anybody. */
  lemma SaverHistory()
    ensures var locked := DepositCollateralStep(Nobody(), 0, Later(100_001, 0), 500);
      locked.Ok? && Refreshed(locked.value, [At(0, Later(100_001, 0))], 1) == Ok(Saver())
    ensures WellFormed(Saver()) && Refreshed(Saver(), [At(0, Later(100_001, 0))], 1) == Ok(Saver())
  {
    assert DebtAt(0, SCALE + 288_545_752) == Ok(0);
    LaterShares(100_001, 0, 0);
    var p := At(0, Later(100_001, 0));
    SharesAreWorth(p);
    Locking(Later(100_001, 0));
    hide SharesWorth, Refreshed, DepositCollateralStep, Later;
    SaverRevalued(Nobody().(deposits := [Collateral(0, 500, 0)]), p, FIVE_HUNDRED);
    SaverRevalued(Saver(), p, FIVE_HUNDRED);
  }

  lemma Locking(r: ReserveState)
    requires r.config == Terms()
    ensures DepositCollateralStep(Nobody(), 0, r, 500) == Ok(Nobody().(deposits := [Collateral(0, 500, 0)]))
  {
    assert [] + [Collateral(0, 500, 0)] == [Collateral(0, 500, 0)];
    assert PutCollateral([], 0, 500) == Ok([Collateral(0, 500, 0)]);
    hide PutCollateral;
  }

  function Borrower(): ObligationState { Saver().(borrows := [Liability(0, 247, 0)], stale := true) }

  lemma DrawIsRoundedUp()
    ensures BorrowStep(Saver(), 0, Later(100_001, 0), Market().oracle, 0, 247, 1)
        == Ok(Borrowing(Borrower(), Later(99_754, 247), 247, 247))
  {
    assert MarketValue(247, 0, SCALE, Up) == Ok(247 * SCALE) by { assert TenPow(0) == Ok(1); }
    assert AdmitBorrow(Saver(), 0, Later(100_001, 0), Market().oracle, 0, 247, 1).Ok? by { hide Lend; }
    assert PrincipalAdded(247, SCALE + 288_545_752) == Ok(247);
    assert Lend(Later(100_001, 0), 247) == Ok(Lent(Later(99_754, 247), 247, 247)) by { hide PrincipalAdded; }
    assert PutPrincipal([], 0, 247) == Ok([] + [Liability(0, 247, 0)])
      && [] + [Liability(0, 247, 0)] == [Liability(0, 247, 0)];
    hide Lend, AdmitBorrow, PutPrincipal;
  }

  lemma BorrowerRevalued()
    ensures var p := At(0, Later(99_754, 247));
      Refreshed(Borrower(), [p, p], 1)
        == Ok(Saver().(borrowedValue := 248 * SCALE, borrows := [Liability(0, 247, 248 * SCALE)]))
  {
    var p := At(0, Later(99_754, 247));
    DebtsLater();
    assert DebtAt(247, SCALE + 288_545_752) == Ok(248) by { hide Owed; }
    LaterShares(99_754, 247, 248);
    SharesAreWorth(p);
    assert DebtWorth(247, p) == Ok(248 * SCALE) by {
      hide DebtAt;
      assert TenPow(0) == Ok(1);
    }
    hide SharesWorth, DebtWorth, Refreshed;
    DebtorRevalued(Borrower(), p, p, FIVE_HUNDRED, 248 * SCALE);
  }

  /** An accepted borrow, of a position and a reserve followed from their creation, that a
      recomputation finds past its limit. */
  lemma BorrowMayPassItsLimit()
    ensures Supply(Bank(0, 0, 0), 100_000, 0) == Ok(Supplied(Bank(100_000, 100_000, 0), 100_000))
    ensures Lend(Bank(100_000, 100_000, 0), 5) == Ok(Lent(Bank(99_995, 100_000, 5), 5, 5))
    ensures Accrued(Bank(99_995, 100_000, 5), 1) == Ok(Later(99_995, 5))
    ensures Receive(Later(99_995, 5), 5, 6) == Ok(Received(Later(100_001, 0), 5))
    ensures var locked := DepositCollateralStep(Nobody(), 0, Later(100_001, 0), 500);
      locked.Ok? && Refreshed(locked.value, [At(0, Later(100_001, 0))], 1) == Ok(Saver())
    ensures var b := BorrowStep(Saver(), 0, Later(100_001, 0), Market().oracle, 0, 247, 1);
      && b.Ok?
      && var p := At(0, b.value.reserve);
         && Refreshed(b.value.obligation, [p, p], 1).Ok?
         && Refreshed(b.value.obligation, [p, p], 1).value.borrowedValue
              > Refreshed(b.value.obligation, [p, p], 1).value.allowedBorrowValue
  {
    BankHistory();
    SaverHistory();
    DrawIsRoundedUp();
    BorrowerRevalued();
    hide Supply, Lend, Accrued, Receive, DepositCollateralStep, BorrowStep, Refreshed;
  }
}
