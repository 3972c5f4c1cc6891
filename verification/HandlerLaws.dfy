/** What each instruction charges, pays and mints, to the unit. */
module HandlerLaws {
  import opened Wrappers
  import opened FixedPoint
  import opened Debts
  import opened Reserves
  import opened PoolSteps
  import opened Obligations
  import opened Lending
  import opened BorrowLaws

  // ---------- suppliers ----------

  /** The supplier gets the largest number of shares that is worth no more than the deposit;
      the very first gets one share a unit. */
  lemma SupplyMintsTheFloor(r: ReserveState, amount: u64, slot: u64)
    requires Supply(r, amount, slot).Ok?
    ensures var Supplied(s, shares) := Supply(r, amount, slot).value;
      && 0 < shares && s == r.(availableLiquidity := r.availableLiquidity + amount,
                               shareMintSupply := r.shareMintSupply + shares)
      && if r.shareMintSupply == 0 then shares == amount
         else shares * Max(r.Total(), 1) <= amount * r.shareMintSupply < (shares + 1) * Max(r.Total(), 1)
  {
    TotalLiquidityIsTotal(r);
    hide FloorDiv, ReserveState.TotalLiquidity, ReserveState.Total;
    var shares := Supply(r, amount, slot).value.shares;
    if r.shareMintSupply > 0 {
      var total := Max(r.Total(), 1);
      assert shares == FloorDiv(amount * r.shareMintSupply, total);
      assert (shares + 1) * total == shares * total + total;
    }
  }

  /** The holder gets the largest amount the burned shares are worth, out of the vault. */
  lemma RedeemPaysTheFloor(r: ReserveState, shares: u64, slot: u64)
    requires Redeem(r, shares, slot).Ok?
    ensures var Redeemed(s, out) := Redeem(r, shares, slot).value;
      && 0 < shares <= r.shareMintSupply && out <= r.availableLiquidity && Backed(r)
      && s == r.(availableLiquidity := r.availableLiquidity - out, shareMintSupply := r.shareMintSupply - shares)
      && out * r.shareMintSupply <= shares * r.Total() < (out + 1) * r.shareMintSupply
  {
    var out := Redeem(r, shares, slot).value.liquidity;
    RedeemedAmount(r, shares);
    hide FloorDiv, ReserveState.Total, Backed, ReserveState.SharesToLiquidity;
    assert (out + 1) * r.shareMintSupply == out * r.shareMintSupply + r.shareMintSupply;
  }

  lemma RedeemedAmount(r: ReserveState, shares: u64)
    requires r.shareMintSupply > 0 && r.SharesToLiquidity(shares, Down).Ok?
    ensures Backed(r) && r.SharesToLiquidity(shares, Down).value == FloorDiv(shares * r.Total(), r.shareMintSupply)
  {
    TotalLiquidityIsTotal(r);
    var total := r.TotalLiquidity().value;
    assert Backed(r) && total == r.Total();
    hide FloorDiv, ReserveState.TotalLiquidity, ReserveState.Total, Backed;
    assert MulDivFloor(shares, total, r.shareMintSupply) == Ok(r.SharesToLiquidity(shares, Down).value);
  }

  // ---------- borrowers ----------

  /** The borrower owes the whole amount and is paid it less the floored fee, which the
      protocol is owed; the principal booked is the smallest that covers the amount. */
  lemma LendChargesTheFee(r: ReserveState, amount: u64)
    requires Lend(r, amount).Ok?
    ensures var Lent(s, principal, paidOut) := Lend(r, amount).value;
      var fee := amount - paidOut;
      && 0 < paidOut <= amount <= r.availableLiquidity
      && fee * BPS <= amount * r.config.originationFeeBps < (fee + 1) * BPS
      && s == r.(availableLiquidity := r.availableLiquidity - paidOut, accruedFees := r.accruedFees + fee,
                 borrowedPrincipal := r.borrowedPrincipal + principal)
      && (forall p: nat :: amount * SCALE <= p * r.borrowIndex <==> principal <= p)
  {
    hide FloorDiv, CeilDiv;
    var principal := Lend(r, amount).value.principal;
    forall p: nat ensures amount * SCALE <= p * r.borrowIndex <==> principal <= p {
      CeilIsSmallest(p, amount * SCALE, r.borrowIndex);
    }
  }

  // ---------- interest ----------

  /** An accrual adds the interest to the pool's assets and nothing else; the protocol is owed
      the floored share of it. */
  lemma AccrualSharesInterest(r: ReserveState, slot: u64)
    requires Accrued(r, slot).Ok?
    ensures var s := Accrued(r, slot).value;
      var interest, cut := s.Debt() - r.Debt(), s.accruedFees - r.accruedFees;
      && s == r.(borrowIndex := s.borrowIndex, accruedFees := s.accruedFees, lastUpdateSlot := slot)
      && 0 <= interest && 0 <= cut && cut * BPS <= interest * r.config.reserveFactorBps < (cut + 1) * BPS
      && s.Gross() == r.Gross() + interest
  {
    var s := Accrued(r, slot).value;
    if slot == r.lastUpdateSlot || r.borrowedPrincipal == 0 {
      NoPrincipalNoInterest(r, s);
    } else {
      IndexOnlyGrows(r, slot - r.lastUpdateSlot);
      OwedMono(r.borrowedPrincipal, r.borrowedPrincipal, r.borrowIndex, s.borrowIndex);
      hide ReserveState.GrownIndex, Owed, FloorDiv;
    }
  }

  lemma NoPrincipalNoInterest(r: ReserveState, s: ReserveState)
    requires s == r.(lastUpdateSlot := s.lastUpdateSlot)
    ensures s.Debt() == r.Debt()
  {
  }

  /** The rate of the kinked curve at a utilization, to the unit: a floored part of the way
      from its lower end to the kink, or from the kink to its upper end. */
  predicate OnCurve(rate: nat, c: ReserveConfig, utilization: nat)
    requires c.Valid()
  {
    var k := c.optimalUtilizationBps;
    if utilization <= k then
      && c.minBorrowRateBps <= rate
      && IsFloor(rate - c.minBorrowRateBps, c.optimalBorrowRateBps - c.minBorrowRateBps, utilization, k)
    else
      && c.optimalBorrowRateBps <= rate
      && IsFloor(rate - c.optimalBorrowRateBps, c.maxBorrowRateBps - c.optimalBorrowRateBps, utilization - k,
                 BPS - k)
  }

  /** The borrow rate is the curve's, on both sides of the kink, and never fails; it stays
      between the curve's ends, and meets the kink at the optimum. */
  lemma RateStaysOnCurve(c: ReserveConfig, utilization: nat)
    requires c.Valid() && utilization <= BPS
    ensures CurveRate(c, utilization).Ok?
    ensures OnCurve(CurveRate(c, utilization).value, c, utilization)
    ensures c.minBorrowRateBps <= CurveRate(c, utilization).value <= c.maxBorrowRateBps
    ensures utilization <= c.optimalUtilizationBps ==> CurveRate(c, utilization).value <= c.optimalBorrowRateBps
    ensures utilization >= c.optimalUtilizationBps ==> CurveRate(c, utilization).value >= c.optimalBorrowRateBps
  {
    hide FloorDiv;
    var k := c.optimalUtilizationBps;
    if utilization <= k {
      var range := c.optimalBorrowRateBps - c.minBorrowRateBps;
      PartOfRange(range, utilization, k);
      MulMono(range, 0x1_0000, utilization);
      assert CurveRate(c, utilization).value == c.minBorrowRateBps + FloorDiv(range * utilization, k);
    } else {
      var range := c.maxBorrowRateBps - c.optimalBorrowRateBps;
      PartOfRange(range, utilization - k, BPS - k);
      MulMono(range, 0x1_0000, utilization - k);
      assert CurveRate(c, utilization).value == c.optimalBorrowRateBps + FloorDiv(range * (utilization - k), BPS - k);
    }
  }

  lemma PartOfRange(range: nat, part: nat, whole: nat)
    requires part <= whole && whole > 0
    ensures FloorDiv(range * part, whole) <= range
    ensures part == whole ==> FloorDiv(range * part, whole) == range
  {
    hide FloorDiv;
    MulMono(part, whole, range);
    assert (range + 1) * whole == range * whole + whole;
    FloorIsLargest(range + 1, range * part, whole);
    FloorIsLargest(range, range * whole, whole);
  }

  // ---------- liquidation ----------

  /** The reported health factor drops below one exactly when the position is liquidatable. */
  lemma HealthFactorAgrees(o: ObligationState)
    requires o.HealthFactorBps().Ok?
    ensures match o.HealthFactorBps().value
      case None => o.borrowedValue == 0 && !o.IsLiquidatable()
      case Some(hf) => hf < BPS <==> o.IsLiquidatable()
  {
    hide FloorDiv;
    if o.borrowedValue > 0 {
      FloorIsLargest(BPS, o.unhealthyBorrowValue * BPS, o.borrowedValue);
      if o.borrowedValue <= o.unhealthyBorrowValue {
        MulMono(o.borrowedValue, o.unhealthyBorrowValue, BPS);
      } else {
        MulMono(o.unhealthyBorrowValue + 1, o.borrowedValue, BPS);
      }
    }
  }

  /** `bps` basis points of `n`, floored. */
  function PartOf(n: nat, bps: nat): nat { FloorDiv(n * bps, BPS) }

  /** Below a health factor of 0.95 the whole debt may be repaid at once, and from there up
      the floored close factor of it. */
  lemma CloseFactorSplits(o: ObligationState, i: nat, r: ReserveState)
    requires i < |o.borrows| && o.borrowedValue > 0 && MaxRepay(o, i, r).Ok?
    ensures var debt := Owed(o.borrows[i].borrowedPrincipal, r.borrowIndex);
      MaxRepay(o, i, r).value ==
        if o.unhealthyBorrowValue * BPS < FULL_CLOSE_HEALTH_FACTOR_BPS * o.borrowedValue then debt
        else PartOf(debt, r.config.closeFactorBps)
  {
    hide FloorDiv, Owed;
    FloorIsLargest(FULL_CLOSE_HEALTH_FACTOR_BPS, o.unhealthyBorrowValue * BPS, o.borrowedValue);
    var debt := Owed(o.borrows[i].borrowedPrincipal, r.borrowIndex);
    FloorIsLargest(debt, debt * BPS, BPS);
    FloorIsLargest(debt + 1, debt * BPS, BPS);
  }

  // ---------- bad debt ----------

  lemma {:induction false} NoSharesNoEntries(o: ObligationState)
    requires WellFormed(o) && AllShares(o.deposits) == 0
    ensures o.deposits == []
  {
  }

  /** Only a position without any collateral is written off: its whole entry for the reserve
      goes, exactly that principal leaves the reserve, and the other entries stay. */
  lemma AbsorptionIsExact(o: ObligationState, key: Key, r: ReserveState, slot: u64)
    requires WellFormed(o) && AbsorbStep(o, key, r, slot).Ok?
    ensures var a := AbsorbStep(o, key, r, slot).value;
      && o.deposits == [] && a.principal > 0
      && a.principal == RecordedPrincipal(o.borrows, key) && RecordedPrincipal(a.obligation.borrows, key) == 0
      && (forall other: Key :: other != key ==>
            RecordedPrincipal(a.obligation.borrows, other) == RecordedPrincipal(o.borrows, other))
      && a.reserve == r.(borrowedPrincipal := r.borrowedPrincipal - a.principal)
      && a.owed == Owed(a.principal, r.borrowIndex)
  {
    var a, i := AbsorbStep(o, key, r, slot).value, BorrowIndex(o.borrows, key);
    NoSharesNoEntries(o);
    EntryIsRecord(o, i);
    assert TakePrincipal(o.borrows, i, a.principal) == a.obligation.borrows;
    hide TakePrincipal, DropAt, CeilDiv, WellFormed;
    forall other: Key { TakePrincipalRecords(o.borrows, i, a.principal, other); }
  }
}
