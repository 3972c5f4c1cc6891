/** What a liquidation may take, and who gets it. */
module LiquidationLaws {
  import opened Wrappers
  import opened FixedPoint
  import opened Debts
  import opened Reserves
  import opened PoolSteps
  import opened Health
  import opened Obligations
  import opened Lending
  import opened BorrowLaws

  /** Down through value, amount and shares and back up again, nothing is gained: shares
      seized for `repayValue` redeem for at most that value and its floored bonus. */
  lemma SeizureWithinBonus(repayValue: u128, c: ReserveState, price: u128)
    requires SeizeShares(repayValue, c, price).Ok? && c.shareMintSupply > 0
    ensures Backed(c)
    ensures RedeemedValue(SeizeShares(repayValue, c, price).value, c, price)
         <= repayValue + FloorDiv(repayValue * c.config.liquidationBonusBps, BPS)
  {
    var bonus := MulDivFloor(repayValue, c.config.liquidationBonusBps, BPS).value;
    var bought := ValueToAmount(repayValue + bonus, c.liquidityDecimals, price, Down).value;
    BoughtAmount(repayValue + bonus, c.liquidityDecimals, price);
    MintedShares(bought, c);
    NothingGained(repayValue + bonus, Pow10(c.liquidityDecimals), price, c.Total(), c.shareMintSupply);
    hide FloorDiv, ValueToAmount, ReserveState.LiquidityToShares, ReserveState.Total, Backed, Pow10;
  }

  lemma BoughtAmount(value: nat, decimals: u8, price: nat)
    requires ValueToAmount(value, decimals, price, Down).Ok?
    ensures price > 0 && ValueToAmount(value, decimals, price, Down).value == FloorDiv(value * Pow10(decimals), price)
  {
    hide FloorDiv, Pow10;
  }

  lemma MintedShares(liquidity: u64, c: ReserveState)
    requires c.LiquidityToShares(liquidity, Down).Ok? && c.shareMintSupply > 0
    ensures Backed(c)
    ensures c.LiquidityToShares(liquidity, Down).value == FloorDiv(liquidity * c.shareMintSupply, Max(c.Total(), 1))
  {
    TotalLiquidityIsTotal(c);
    var total := c.TotalLiquidity().value;
    assert Backed(c) && total == c.Total();
    hide FloorDiv, ReserveState.TotalLiquidity, ReserveState.Total, Backed;
    assert MulDivFloor(liquidity, c.shareMintSupply, Max(total, 1)) == Ok(c.LiquidityToShares(liquidity, Down).value);
  }

  lemma NothingGained(value: nat, ten: nat, price: nat, total: nat, supply: nat)
    requires ten > 0 && price > 0 && supply > 0
    ensures var shares := FloorDiv(FloorDiv(value * ten, price) * supply, Max(total, 1));
      FloorDiv(FloorDiv(shares * total, supply) * price, ten) <= value
  {
    hide FloorDiv;
    var bought := FloorDiv(value * ten, price);
    var shares := FloorDiv(bought * supply, Max(total, 1));
    SharesRedeemAtMost(shares, total, supply, bought);
    var liquidity := FloorDiv(shares * total, supply);
    MulMono(liquidity, bought, price);
    FloorMono(liquidity * price, value * ten, ten);
    WholeQuotient(value, ten);
  }

  lemma SharesRedeemAtMost(shares: nat, total: nat, supply: nat, liquidity: nat)
    requires supply > 0 && shares == FloorDiv(liquidity * supply, Max(total, 1))
    ensures FloorDiv(shares * total, supply) <= liquidity
  {
    hide FloorDiv;
    MulMono(total, Max(total, 1), shares);
    FloorIsLargest(liquidity + 1, shares * total, supply);
    assert (liquidity + 1) * supply == liquidity * supply + supply;
  }

  /** What the rounded-down cut of a bonus leaves on both sides. */
  lemma CutIsFair(seized: nat, share: nat, bonus: nat)
    requires share <= bonus
    ensures var d := BPS + bonus;
      var cut := FloorDiv(seized * share, d);
      && cut <= seized
      && cut * d <= seized * share < (cut + 1) * d
      && (seized - cut) * d >= seized * BPS
  {
    hide FloorDiv;
    var d := BPS + bonus;
    var cut := FloorDiv(seized * share, d);
    assert (cut + 1) * d == cut * d + d;
    MulMono(share, bonus, seized);
    assert seized * d == seized * BPS + seized * bonus;
    assert (seized + 1) * d == seized * d + d;
    if cut > seized { MulMono(seized + 1, cut, d); }
    assert (seized - cut) * d == seized * d - cut * d;
  }

  /** The split conserves the seizure; the protocol stays within its share of the bonus, by
      less than one share; the liquidator keeps at least the principal's part. It never fails. */
  lemma SplitIsFair(seized: u64, bonusBps: u16, shareBps: u16)
    ensures SplitSeized(seized, bonusBps, shareBps).Ok?
    ensures var (protocol, liquidator) := SplitSeized(seized, bonusBps, shareBps).value;
      && protocol + liquidator == seized
      && protocol * (BPS + bonusBps) <= seized * Min(shareBps, bonusBps) < (protocol + 1) * (BPS + bonusBps)
      && liquidator * (BPS + bonusBps) >= seized * BPS
  {
    hide FloorDiv;
    var share := Min(shareBps, bonusBps);
    CutIsFair(seized, share, bonusBps);
    SplitIsCut(seized, bonusBps, shareBps);
  }

  lemma SplitIsCut(seized: u64, bonusBps: u16, shareBps: u16)
    requires FloorDiv(seized * Min(shareBps, bonusBps), BPS + bonusBps) <= seized
    ensures var cut := FloorDiv(seized * Min(shareBps, bonusBps), BPS + bonusBps);
      SplitSeized(seized, bonusBps, shareBps) == Ok((cut, seized - cut))
  {
    hide FloorDiv;
    var share := Min(shareBps, bonusBps);
    MulMono(share, 0x1_0000, seized);
    if share == 0 {
      assert seized * share == 0;
      FloorIsLargest(1, 0, BPS + bonusBps);
    }
  }

  /** Within the close factor, and so within the debt. */
  lemma MaxRepayWithinDebt(o: ObligationState, i: nat, r: ReserveState)
    requires i < |o.borrows| && MaxRepay(o, i, r).Ok? && r.config.closeFactorBps <= BPS
    ensures MaxRepay(o, i, r).value <= Owed(o.borrows[i].borrowedPrincipal, r.borrowIndex)
  {
    hide FloorDiv, CeilDiv;
    var debt, factor := DebtAt(o.borrows[i].borrowedPrincipal, r.borrowIndex).value, EffectiveCloseFactor(o, r).value;
    CutWithinInterest(debt, factor);
  }

  /** What an accepted liquidation has established before anything moves. */
  lemma PlanIsBounded(o: ObligationState, repayKey: Key, r: ReserveState, collateralKey: Key, c: ReserveState,
                      repayOracle: Quote, collateralOracle: Quote, amount: u64, slot: u64)
    requires PlanLiquidation(o, repayKey, r, collateralKey, c, repayOracle, collateralOracle, amount, slot).Ok?
    requires r.config.closeFactorBps <= BPS
    ensures var plan := PlanLiquidation(o, repayKey, r, collateralKey, c, repayOracle, collateralOracle, amount,
                                        slot).value;
      && o.borrowedValue > o.unhealthyBorrowValue
      && plan.borrow == BorrowIndex(o.borrows, repayKey) && plan.deposit == CollateralIndex(o.deposits, collateralKey)
      && plan.repaid <= Owed(o.borrows[plan.borrow].borrowedPrincipal, r.borrowIndex)
      && MarketValue(plan.repaid, r.liquidityDecimals, repayOracle.effectiveRate, Down).Ok?
      && SeizeShares(MarketValue(plan.repaid, r.liquidityDecimals, repayOracle.effectiveRate, Down).value, c,
                     collateralOracle.effectiveRate) == Ok(plan.seized)
  {
    hide MaxRepay, SeizeShares, MarketValue, Owed;
    MaxRepayWithinDebt(o, BorrowIndex(o.borrows, repayKey), r);
  }

  lemma AcceptedLiquidation(o: ObligationState, repayKey: Key, r: ReserveState, collateralKey: Key, c: ReserveState,
                            repayOracle: Quote, collateralOracle: Quote, shareBps: u16, amount: u64, slot: u64)
    requires LiquidateStep(o, repayKey, r, collateralKey, c, repayOracle, collateralOracle, shareBps, amount, slot).Ok?
    ensures var l := LiquidateStep(o, repayKey, r, collateralKey, c, repayOracle, collateralOracle, shareBps, amount,
                                   slot).value;
      var plan := PlanLiquidation(o, repayKey, r, collateralKey, c, repayOracle, collateralOracle, amount, slot);
      && plan.Ok? && l.repaid == plan.value.repaid && l.seized == plan.value.seized
      && SplitSeized(l.seized, c.config.liquidationBonusBps, shareBps) == Ok((l.toProtocol, l.toLiquidator))
      && Receive(r, o.borrows[plan.value.borrow].borrowedPrincipal, l.repaid) == Ok(Received(l.reserve, l.principal))
      && l.principal <= o.borrows[plan.value.borrow].borrowedPrincipal
      && l.obligation.borrows == TakePrincipal(o.borrows, plan.value.borrow, l.principal)
      && l.obligation.deposits == TakeCollateral(o.deposits, plan.value.deposit, l.seized)
  {
    hide PlanLiquidation, SplitSeized;
  }

  /** Liquidation, the debt side. It needs debt past the liquidation line and repays at most
      the entry's debt; entry and reserve lose the same principal; the debt falls by no more
      than the payment, and short of it by at most one unit of principal's worth. */
  lemma LiquidationRepaysDebt(o: ObligationState, repayKey: Key, r: ReserveState, collateralKey: Key, c: ReserveState,
                              repayOracle: Quote, collateralOracle: Quote, shareBps: u16, amount: u64, slot: u64)
    requires WellFormed(o) && r.config.closeFactorBps <= BPS
    requires LiquidateStep(o, repayKey, r, collateralKey, c, repayOracle, collateralOracle, shareBps, amount, slot).Ok?
    ensures var l := LiquidateStep(o, repayKey, r, collateralKey, c, repayOracle, collateralOracle, shareBps, amount,
                                   slot).value;
      var before, after := RecordedPrincipal(o.borrows, repayKey), RecordedPrincipal(l.obligation.borrows, repayKey);
      && o.borrowedValue > o.unhealthyBorrowValue
      && 0 < l.repaid <= amount && l.repaid <= Owed(before, r.borrowIndex)
      && r.borrowedPrincipal - l.reserve.borrowedPrincipal == l.principal == before - after
      && Owed(before, r.borrowIndex) <= Owed(after, r.borrowIndex) + l.repaid
           <= Owed(before, r.borrowIndex) + CeilDiv(r.borrowIndex, SCALE)
  {
    AcceptedLiquidation(o, repayKey, r, collateralKey, c, repayOracle, collateralOracle, shareBps, amount, slot);
    PlanIsBounded(o, repayKey, r, collateralKey, c, repayOracle, collateralOracle, amount, slot);
    var l := LiquidateStep(o, repayKey, r, collateralKey, c, repayOracle, collateralOracle, shareBps, amount,
                           slot).value;
    var i := PlanLiquidation(o, repayKey, r, collateralKey, c, repayOracle, collateralOracle, amount,
                             slot).value.borrow;
    hide LiquidateStep, PlanLiquidation, FloorDiv, CeilDiv, MarketValue, SeizeShares, SplitSeized, TakePrincipal,
      TakeCollateral, WellFormed;
    EntryIsRecord(o, i);
    TakePrincipalRecords(o.borrows, i, l.principal, repayKey);
    OwedAfterPayment(o.borrows[i].borrowedPrincipal, l.repaid, r.borrowIndex);
  }

  /** Value of redeeming `shares`, every step rounded down. */
  function RedeemedValue(shares: nat, c: ReserveState, price: nat): nat
    requires c.shareMintSupply > 0 && Backed(c)
  {
    FloorDiv(FloorDiv(shares * c.Total(), c.shareMintSupply) * price, Pow10(c.liquidityDecimals))
  }

  /** Floored value of repaying `amount`, and the floored bonus on top of it. */
  function RewardedValue(amount: nat, r: ReserveState, price: nat, bonusBps: nat): nat {
    var value := FloorDiv(amount * price, Pow10(r.liquidityDecimals));
    value + FloorDiv(value * bonusBps, BPS)
  }

  /** Liquidation, the collateral side. The seized shares leave the entry and its vault,
      divided without loss between protocol and liquidator, and redeem for at most the
      repayment and its bonus. */
  lemma LiquidationSeizesFairly(o: ObligationState, repayKey: Key, r: ReserveState, collateralKey: Key, c: ReserveState,
                                repayOracle: Quote, collateralOracle: Quote, shareBps: u16, amount: u64, slot: u64)
    requires WellFormed(o) && r.config.closeFactorBps <= BPS && c.shareMintSupply > 0
    requires LiquidateStep(o, repayKey, r, collateralKey, c, repayOracle, collateralOracle, shareBps, amount, slot).Ok?
    ensures var l := LiquidateStep(o, repayKey, r, collateralKey, c, repayOracle, collateralOracle, shareBps, amount,
                                   slot).value;
      && Backed(c)
      && RedeemedValue(l.seized, c, collateralOracle.effectiveRate)
           <= RewardedValue(l.repaid, r, repayOracle.effectiveRate, c.config.liquidationBonusBps)
      && l.toProtocol + l.toLiquidator == l.seized
      && RecordedShares(l.obligation.deposits, collateralKey) + l.seized == RecordedShares(o.deposits, collateralKey)
      && WellFormed(l.obligation)
  {
    AcceptedLiquidation(o, repayKey, r, collateralKey, c, repayOracle, collateralOracle, shareBps, amount, slot);
    PlanIsBounded(o, repayKey, r, collateralKey, c, repayOracle, collateralOracle, amount, slot);
    var l := LiquidateStep(o, repayKey, r, collateralKey, c, repayOracle, collateralOracle, shareBps, amount,
                           slot).value;
    var plan := PlanLiquidation(o, repayKey, r, collateralKey, c, repayOracle, collateralOracle, amount, slot).value;
    LiquidationKeepsForm(o, l.obligation, plan.borrow, l.principal, plan.deposit, l.seized);
    hide LiquidateStep, PlanLiquidation, FloorDiv, SeizeShares, SplitSeized, TakePrincipal, TakeCollateral, WellFormed,
      RedeemedValue;
    SplitIsFair(l.seized, c.config.liquidationBonusBps, shareBps);
    TakeCollateralRecords(o.deposits, plan.deposit, l.seized, collateralKey);
    SeizureWithinBonus(MarketValue(l.repaid, r.liquidityDecimals, repayOracle.effectiveRate, Down).value, c,
                       collateralOracle.effectiveRate);
  }

  lemma LiquidationKeepsForm(o: ObligationState, after: ObligationState, i: nat, principal: u128, j: nat, shares: u64)
    requires WellFormed(o) && i < |o.borrows| && principal <= o.borrows[i].borrowedPrincipal
    requires j < |o.deposits| && shares <= o.deposits[j].depositedShares
    requires after.borrows == TakePrincipal(o.borrows, i, principal)
      && after.deposits == TakeCollateral(o.deposits, j, shares)
    ensures WellFormed(after)
  {
    TakePrincipalKept(o, i, principal);
    hide TakePrincipal, TakeCollateral;
    TakeCollateralKept(o.(borrows := after.borrows), j, shares);
  }

  /** The borrower's loss does not depend on the protocol's share: only the division does. */
  lemma LossIgnoresShare(o: ObligationState, repayKey: Key, r: ReserveState, collateralKey: Key, c: ReserveState,
                         repayOracle: Quote, collateralOracle: Quote, amount: u64, slot: u64, share: u16, other: u16)
    requires LiquidateStep(o, repayKey, r, collateralKey, c, repayOracle, collateralOracle, share, amount, slot).Ok?
    ensures LiquidateStep(o, repayKey, r, collateralKey, c, repayOracle, collateralOracle, other, amount, slot).Ok?
    ensures var l := LiquidateStep(o, repayKey, r, collateralKey, c, repayOracle, collateralOracle, share, amount,
                                   slot).value;
      var m := LiquidateStep(o, repayKey, r, collateralKey, c, repayOracle, collateralOracle, other, amount,
                             slot).value;
      && m.obligation == l.obligation && m.reserve == l.reserve && m.repaid == l.repaid && m.seized == l.seized
      && (share <= other ==> l.toProtocol <= m.toProtocol)
  {
    var plan := PlanLiquidation(o, repayKey, r, collateralKey, c, repayOracle, collateralOracle, amount, slot).value;
    hide PlanLiquidation, Receive;
    SplitIsFair(plan.seized, c.config.liquidationBonusBps, other);
    if share <= other { SplitIsMonotone(plan.seized, c.config.liquidationBonusBps, share, other); }
  }

  lemma SplitIsMonotone(seized: u64, bonusBps: u16, share: u16, other: u16)
    requires share <= other && SplitSeized(seized, bonusBps, share).Ok? && SplitSeized(seized, bonusBps, other).Ok?
    ensures SplitSeized(seized, bonusBps, share).value.0 <= SplitSeized(seized, bonusBps, other).value.0
  {
    hide FloorDiv, Min;
    assert Min(share, bonusBps) <= Min(other, bonusBps) <= bonusBps by { MinMono(share, other, bonusBps); }
    CutIsFair(seized, Min(share, bonusBps), bonusBps);
    CutIsFair(seized, Min(other, bonusBps), bonusBps);
    SplitIsCut(seized, bonusBps, share);
    SplitIsCut(seized, bonusBps, other);
    hide SplitSeized;
    MulMono(Min(share, bonusBps), Min(other, bonusBps), seized);
    FloorMono(seized * Min(share, bonusBps), seized * Min(other, bonusBps), BPS + bonusBps);
  }

  lemma MinMono(a: nat, b: nat, cap: nat)
    requires a <= b
    ensures Min(a, cap) <= Min(b, cap) <= cap
  {
  }
}
