/** Two histories of a reserve from its creation: one that ends with a write-off the fees do
not survive, and one whose last share is redeemed while a debt is still running. */
module PoolHistory {
  import opened Wrappers
  import opened FixedPoint
  import opened Debts
  import opened Reserves
  import opened PoolSteps
  import opened Solvency

  /** A flat two per cent, half a per cent of every loan in fees. */
  function Terms(): ReserveConfig {
    ReserveConfig(0, 0, 800, 5_000, 0, 6_000, 200, 200, 200, 1_000, 50, 0, 0, true, false, false, 69_313_098)
  }

  /** At index one, before any interest. */
  function At(available: u64, shares: u64, principal: u128, fees: u64): ReserveState {
    ReserveState(9, available, shares, principal, SCALE, 0, fees, Terms())
  }

  /** At index one a unit of principal is a unit owed. */
  lemma TotalAt(available: u64, shares: u64, principal: u64, fees: u64)
    requires available + principal <= U64_MAX
    ensures At(available, shares, principal, fees).GrossLiquidity() == Ok(available + principal)
    ensures At(available, shares, principal, fees).Total() == available + principal - fees
    ensures fees <= available + principal ==>
      At(available, shares, principal, fees).TotalLiquidity() == Ok(available + principal - fees)
  {
    assert DebtAt(principal, SCALE) == Ok(principal) && Owed(principal, SCALE) == principal by {
      CeilIsSmallest(principal, principal * SCALE, SCALE);
      hide CeilDiv;
      CeilIsSmallest(CeilDiv(principal * SCALE, SCALE), principal * SCALE, SCALE);
    }
    hide DebtAt, Owed;
  }

  /** A thousand are supplied and lent out at once, for a fee of five. */
  lemma SuppliedAndLent()
    ensures Terms().Valid()
    ensures Supply(At(0, 0, 0, 0), 1_000, 0) == Ok(Supplied(At(1_000, 1_000, 0, 0), 1_000))
    ensures Lend(At(1_000, 1_000, 0, 0), 1_000) == Ok(Lent(At(5, 1_000, 1_000, 5), 1_000, 995))
  {
    assert PrincipalAdded(1_000, SCALE) == Ok(1_000) && MulDivFloor(1_000, 50, BPS) == Ok(5);
    hide PrincipalAdded, MulDivFloor;
  }

  /** All but `left` units come back, and all liquidity is redeemed. */
  lemma RepaidAndRedeemed(left: u64)
    requires 5 <= left <= 10
    ensures Receive(At(5, 1_000, 1_000, 5), 1_000, 1_000 - left)
         == Ok(Received(At(1_005 - left, 1_000, left, 5), 1_000 - left))
    ensures Redeem(At(1_005 - left, 1_000, left, 5), 1_005 - left, 0)
         == Ok(Redeemed(At(0, left - 5, left, 5), 1_005 - left))
  {
    WholeQuotient(1_000 - left, SCALE);
    WholeQuotient(1_005 - left, 1_000);
    TotalAt(1_005 - left, 1_000, left, 5);
    hide ReserveState.TotalLiquidity, ReserveState.GrossLiquidity, FloorDiv;
    assert MulDiv(1_005 - left, 1_000, 1_000, Down) == Ok(1_005 - left);
  }

  /** What the borrower leaves owing is written off, and the fees have nothing to be paid from. */
  lemma WriteOffMayStrandFees()
    ensures Supply(At(0, 0, 0, 0), 1_000, 0) == Ok(Supplied(At(1_000, 1_000, 0, 0), 1_000))
    ensures Lend(At(1_000, 1_000, 0, 0), 1_000) == Ok(Lent(At(5, 1_000, 1_000, 5), 1_000, 995))
    ensures Receive(At(5, 1_000, 1_000, 5), 1_000, 990) == Ok(Received(At(995, 1_000, 10, 5), 990))
    ensures Redeem(At(995, 1_000, 10, 5), 995, 0) == Ok(Redeemed(At(0, 5, 10, 5), 995))
    ensures WriteOff(At(0, 5, 10, 5), 10) == Ok(At(0, 5, 0, 5))
    ensures At(0, 5, 10, 5).TotalLiquidity() == Ok(5) && At(0, 5, 0, 5).TotalLiquidity().Err?
  {
    SuppliedAndLent();
    RepaidAndRedeemed(10);
    TotalAt(0, 5, 10, 5);
    TotalAt(0, 5, 0, 5);
    TotalLiquidityIsTotal(At(0, 5, 0, 5));
    hide Supply, Lend, Receive, Redeem;
  }

  // ---------- an empty pool ----------

  /** The reserve a slot after its last share was redeemed, at the grown index. */
  function Later(available: u64, shares: u64): ReserveState {
    At(available, shares, 5, 5).(borrowIndex := SCALE + 288_545_752, lastUpdateSlot := 1)
  }

  lemma FiveOweSix()
    ensures Owed(5, SCALE) == 5 && Owed(5, SCALE + 288_545_752) == 6
  {
  }

  lemma OneSlotLater()
    ensures Accrued(At(0, 0, 5, 5), 1) == Ok(Later(0, 0))
  {
    var r := At(0, 0, 5, 5);
    TotalAt(0, 0, 5, 5);
    FiveOweSix();
    hide Owed;
    assert r.UtilizationBps() == Ok(BPS) && CurveRate(r.config, BPS) == Ok(200);
    assert r.BorrowRatePerSlot() == Ok(288_545_752);
    hide ReserveState.BorrowRatePerSlot;
    assert r.GrownIndex(1) == Ok(SCALE + 288_545_752);
    hide ReserveState.GrownIndex;
    assert r.(borrowIndex := SCALE + 288_545_752).CurrentBorrowedAmount() == Ok(6);
    assert MulDivFloor(1, 1_000, BPS) == Ok(0);
  }

  /** The last share is redeemed while five units are still owed, one slot's interest is left in
      the empty pool, and whoever supplies next owns it. */
  lemma PriceMayFallAtAnEmptyPool()
    ensures Supply(At(0, 0, 0, 0), 1_000, 0) == Ok(Supplied(At(1_000, 1_000, 0, 0), 1_000))
    ensures Lend(At(1_000, 1_000, 0, 0), 1_000) == Ok(Lent(At(5, 1_000, 1_000, 5), 1_000, 995))
    ensures Receive(At(5, 1_000, 1_000, 5), 1_000, 995) == Ok(Received(At(1_000, 1_000, 5, 5), 995))
    ensures Redeem(At(1_000, 1_000, 5, 5), 1_000, 0) == Ok(Redeemed(At(0, 0, 5, 5), 1_000))
    ensures Accrued(At(0, 0, 5, 5), 1) == Ok(Later(0, 0))
    ensures Supply(Later(0, 0), 1_000, 1) == Ok(Supplied(Later(1_000, 1_000), 1_000))
    ensures !PriceKept(Later(0, 0), Later(1_000, 1_000))
  {
    SuppliedAndLent();
    RepaidAndRedeemed(5);
    OneSlotLater();
    FiveOweSix();
    assert Later(0, 0).Total() == 1;
    hide Lend, Receive, Redeem, Accrued, PriceKept;
    EmptyPoolForgetsItsPrice(Later(0, 0), 1_000, 1);
  }
}
