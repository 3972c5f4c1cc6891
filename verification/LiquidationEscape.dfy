/** A liquidation that moves a position away from health: the terms of its collateral, which
the program accepts, do not cover the bonus. */
module LiquidationEscape {
  import opened Wrappers
  import opened FixedPoint
  import opened Debts
  import opened Reserves
  import opened PoolSteps
  import opened Obligations
  import opened Valuation
  import opened Lending
  import opened BorrowLaws
  import opened Recovery
  import opened Scenario

  /** Terms the program accepts whose bonus the collateral does not cover. */
  function Risky(): ReserveConfig {
    ReserveConfig(7_500, 10_000, 1_500, 5_000, 100, 6_000, 200, 200, 200, 1_000, 0, 0, 0, true, true, false, 69_313_098)
  }

  function RiskyPool(): ReserveState { ReserveState(0, 1_000, 1_000, 0, SCALE, 1, 0, Risky()) }

  /** The reserve of the debt, before and after forty are repaid. */
  function LoanPool(available: u64, principal: u128): ReserveState {
    ReserveState(0, available, 1_000, principal, SCALE, 1, 0, Risky())
  }

  /** Worth of a hundred units and of fifty-four, under those terms. */
  const HUNDRED := Worth(100 * SCALE, 99 * SCALE, 74_250_000_000_000_000_000, 99 * SCALE)
  const FIFTY_FOUR :=
    Worth(54 * SCALE, 53_460_000_000_000_000_000, 40_095_000_000_000_000_000, 53_460_000_000_000_000_000)

  /** A hundred locked, a hundred owed, since the price of the collateral fell. */
  function Underwater(): ObligationState {
    ObligationState(1, false, false, HUNDRED.face, HUNDRED.effective, 100 * SCALE, HUNDRED.allowed, HUNDRED.unhealthy,
                    [Collateral(0, 100, 100 * SCALE)], [Liability(1, 100, 100 * SCALE)])
  }

  lemma RiskyShares()
    ensures SharesWorth(100, At(0, RiskyPool())) == Ok(HUNDRED) && SharesWorth(54, At(0, RiskyPool())) == Ok(FIFTY_FOUR)
  {
    assert DebtAt(0, SCALE) == Ok(0);
    assert RiskyPool().TotalLiquidity() == Ok(1_000) by { hide DebtAt; }
    hide ReserveState.TotalLiquidity;
    assert TenPow(0) == Ok(1);
    assert MulDiv(100, 1_000, 1_000, Down) == Ok(100) && MulDiv(54, 1_000, 1_000, Down) == Ok(54);
    assert MarketValue(100, 0, SCALE, Down) == Ok(100 * SCALE) && MarketValue(54, 0, SCALE, Down) == Ok(54 * SCALE);
    assert ApplyHaircut(100 * SCALE, 100) == Ok(99 * SCALE);
    assert ApplyHaircut(54 * SCALE, 100) == Ok(53_460_000_000_000_000_000);
  }

  lemma LoanDebts()
    ensures DebtAt(100, SCALE) == Ok(100) && DebtAt(60, SCALE) == Ok(60)
    ensures DebtWorth(100, At(1, LoanPool(900, 100))) == Ok(100 * SCALE)
    ensures DebtWorth(60, At(1, LoanPool(940, 60))) == Ok(60 * SCALE)
  {
    assert DebtAt(100, SCALE) == Ok(100) && DebtAt(60, SCALE) == Ok(60);
    hide DebtAt;
    assert TenPow(0) == Ok(1);
  }

  lemma FortySixSharesForForty()
    ensures SeizeShares(40 * SCALE, RiskyPool(), SCALE) == Ok(46)
  {
    assert DebtAt(0, SCALE) == Ok(0);
    assert RiskyPool().TotalLiquidity() == Ok(1_000) by { hide DebtAt; }
    hide ReserveState.TotalLiquidity;
    assert TenPow(0) == Ok(1);
    assert MulDivFloor(40 * SCALE, 1_500, BPS) == Ok(6 * SCALE);
    assert ValueToAmount(46 * SCALE, 0, SCALE, Down) == Ok(46);
    assert MulDiv(46, 1_000, 1_000, Down) == Ok(46);
  }

  lemma FiftyMayBeRepaid()
    ensures MaxRepay(Underwater(), 0, LoanPool(900, 100)) == Ok(50)
  {
    LoanDebts();
    hide DebtAt;
    assert Underwater().HealthFactorBps() == Ok(Some(9_900));
  }

  /** The position once forty are repaid for forty-six shares. */
  function Liquidated(): ObligationState {
    Underwater().(deposits := [Collateral(0, 54, 100 * SCALE)], borrows := [Liability(1, 60, 100 * SCALE)],
                  stale := true)
  }

  lemma FortyAreTaken()
    ensures TakeCollateral(Underwater().deposits, 0, 46) == Liquidated().deposits
    ensures TakePrincipal(Underwater().borrows, 0, 40) == Liquidated().borrows
    ensures CollateralIndex(Underwater().deposits, 0) == 0 && BorrowIndex(Underwater().borrows, 1) == 0
  {
  }

  lemma FortyAreReceived()
    ensures Receive(LoanPool(900, 100), 100, 40) == Ok(Received(LoanPool(940, 60), 40))
  {
    assert MulDivFloor(40, SCALE, SCALE) == Ok(40);
  }

  lemma FortyAreRepaid()
    ensures LiquidateStep(Underwater(), 1, LoanPool(900, 100), 0, RiskyPool(), Market().oracle, Market().oracle, 0, 40,
                          1)
        == Ok(Liquidation(Liquidated(), LoanPool(940, 60), 40, 40, 46, 0, 46))
  {
    FortySixSharesForForty();
    FiftyMayBeRepaid();
    FortyAreTaken();
    FortyAreReceived();
    assert MarketValue(40, 0, SCALE, Down) == Ok(40 * SCALE) by { assert TenPow(0) == Ok(1); }
    assert SplitSeized(46, 1_500, 0) == Ok((0, 46));
    hide SeizeShares, MaxRepay, MarketValue, Receive, SplitSeized, TakeCollateral, TakePrincipal, CollateralIndex,
      BorrowIndex;
    var plan := PlanLiquidation(Underwater(), 1, LoanPool(900, 100), 0, RiskyPool(), Market().oracle, Market().oracle,
                                40, 1);
    assert plan == Ok(Plan(0, 0, 40, 46));
    hide PlanLiquidation;
  }

  lemma RefreshedBothTimes()
    ensures Refreshed(Underwater(), [At(0, RiskyPool()), At(1, LoanPool(900, 100))], 1) == Ok(Underwater())
    ensures var after := Refreshed(Liquidated(), [At(0, RiskyPool()), At(1, LoanPool(940, 60))], 1);
      after.Ok? && after.value.borrowedValue == 60 * SCALE && after.value.unhealthyBorrowValue == FIFTY_FOUR.unhealthy
  {
    RiskyShares();
    LoanDebts();
    hide SharesWorth, DebtWorth, Refreshed;
    DebtorRevalued(Underwater(), At(0, RiskyPool()), At(1, LoanPool(900, 100)), HUNDRED, 100 * SCALE);
    DebtorRevalued(Liquidated(), At(0, RiskyPool()), At(1, LoanPool(940, 60)), FIFTY_FOUR, 60 * SCALE);
  }

  lemma RiskyTerms()
    ensures Risky().Valid() && !BonusCovered(Risky()) && WellFormed(Underwater())
  {
  }

  lemma Allowance()
    ensures CeilValue(CeilDiv(SCALE, SCALE), At(1, LoanPool(900, 100))) == SCALE
  {
    assert CeilDiv(SCALE, SCALE) == 1 && Pow10(0) == 1;
  }

  lemma UnderwaterFields()
    ensures Underwater().unhealthyBorrowValue == 99 * SCALE && Underwater().borrowedValue == 100 * SCALE
    ensures LoanPool(900, 100).borrowIndex == SCALE
  {
  }

  /** The debt ends further past the line than the roundings of `LiquidationRecovers` explain. */
  lemma LiquidationMayWorsen()
    ensures Risky().Valid() && !BonusCovered(Risky())
    ensures WellFormed(Underwater())
    ensures Refreshed(Underwater(), [At(0, RiskyPool()), At(1, LoanPool(900, 100))], 1) == Ok(Underwater())
    ensures var o, rp, cp := Underwater(), At(1, LoanPool(900, 100)), At(0, RiskyPool());
      var l := LiquidateStep(o, 1, rp.reserve, 0, cp.reserve, rp.oracle, cp.oracle, 0, 40, 1);
      && l.Ok?
      && var recomputed := Refreshed(l.value.obligation, [cp, At(1, l.value.reserve)], 1);
         && recomputed.Ok?
         && recomputed.value.borrowedValue + o.unhealthyBorrowValue
              > o.borrowedValue + recomputed.value.unhealthyBorrowValue
                + CeilValue(CeilDiv(rp.reserve.borrowIndex, SCALE), rp) + 1
  {
    hide Refreshed, LiquidateStep, CeilValue, CeilDiv, Liquidated, Underwater, LoanPool, RiskyPool, BonusCovered, Risky,
      WellFormed, ReserveConfig.Valid;
    RiskyTerms();
    FortyAreRepaid();
    RefreshedBothTimes();
    Allowance();
    UnderwaterFields();
  }
}
