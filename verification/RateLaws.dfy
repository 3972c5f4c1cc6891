/** What a borrower is charged, to the unit.

The functions here are the exact quantities, each tied to its inputs by its contract alone;
the program computes them in bounded arithmetic, or fails. */
module RateLaws {
  import opened Wrappers
  import opened FixedPoint
  import opened Debts
  import opened Reserves
  import opened AccrualSchedule
  import opened HandlerLaws

  /** Debt in basis points of the whole pool, floored; zero for an empty pool. */
  function Utilization(debt: nat, idle: nat): (u: nat)
    ensures if idle + debt == 0 then u == 0 else IsFloor(u, debt, BPS, idle + debt)
    ensures u <= BPS
  {
    if idle + debt == 0 then 0 else ShareWithinWhole(debt, idle + debt); FloorDiv(debt * BPS, idle + debt)
  }

  /** The curve's rate at a utilization, in basis points a year. */
  function CurvePoint(c: ReserveConfig, u: nat): (rate: nat)
    requires c.Valid() && u <= BPS
    ensures OnCurve(rate, c, u)
  {
    var k := c.optimalUtilizationBps;
    if u <= k then c.minBorrowRateBps + Floored(c.optimalBorrowRateBps - c.minBorrowRateBps, u, k)
    else c.optimalBorrowRateBps + Floored(c.maxBorrowRateBps - c.optimalBorrowRateBps, u - k, BPS - k)
  }

  /** The same for one slot, scaled. */
  function SlotRate(c: ReserveConfig, debt: nat, idle: nat): (x: nat)
    requires c.Valid()
    ensures IsFloor(x, CurvePoint(c, Utilization(debt, idle)), SCALE, BPS * c.slotsPerYear)
  {
    Floored(CurvePoint(c, Utilization(debt, idle)), SCALE, BPS * c.slotsPerYear)
  }

  /** An index after `elapsed` slots of simple interest. */
  function IndexAfter(index: nat, x: nat, elapsed: nat): (i: nat)
    ensures IsFloor(i, index, SCALE + x * elapsed, SCALE)
  {
    Floored(index, SCALE + x * elapsed, SCALE)
  }

  /** Principal at an index can be reported as a debt. */
  predicate DebtFits(principal: nat, index: nat) { principal * index <= U128_MAX && Owed(principal, index) <= U64_MAX }

  lemma UtilizationIsExact(r: ReserveState)
    ensures r.UtilizationBps().Ok? <==> DebtFits(r.borrowedPrincipal, r.borrowIndex)
    ensures r.UtilizationBps().Ok? ==>
      r.UtilizationBps().value == Utilization(Owed(r.borrowedPrincipal, r.borrowIndex), r.availableLiquidity)
  {
    hide FloorDiv, Owed;
  }

  lemma CurvePointIsExact(c: ReserveConfig, u: nat)
    requires c.Valid() && u <= BPS
    ensures CurveRate(c, u) == Ok(CurvePoint(c, u)) && CurvePoint(c, u) < 0x1_0000
  {
    RateStaysOnCurve(c, u);
    hide FloorDiv, ReserveConfig.Valid;
  }

  /** The rate for one slot fails only with the debt. */
  lemma SlotRateIsExact(r: ReserveState)
    requires r.config.Valid()
    ensures r.BorrowRatePerSlot().Ok? <==> DebtFits(r.borrowedPrincipal, r.borrowIndex)
    ensures var x := SlotRate(r.config, Owed(r.borrowedPrincipal, r.borrowIndex), r.availableLiquidity);
      r.BorrowRatePerSlot().Ok? ==> r.BorrowRatePerSlot().value == x
  {
    UtilizationIsExact(r);
    if DebtFits(r.borrowedPrincipal, r.borrowIndex) { CurvePointIsExact(r.config, r.UtilizationBps().value); }
    hide FloorDiv, CurveRate, CurvePoint, Utilization, Owed, ReserveState.UtilizationBps, DebtFits;
  }

  lemma GrownIndexIsExact(r: ReserveState, elapsed: u64)
    requires r.config.Valid()
    ensures var x := SlotRate(r.config, Owed(r.borrowedPrincipal, r.borrowIndex), r.availableLiquidity);
      && (r.GrownIndex(elapsed).Ok? <==>
          && DebtFits(r.borrowedPrincipal, r.borrowIndex)
          && SCALE + x * elapsed <= U128_MAX && r.borrowIndex * (SCALE + x * elapsed) <= U128_MAX)
      && (r.GrownIndex(elapsed).Ok? ==> r.GrownIndex(elapsed).value == IndexAfter(r.borrowIndex, x, elapsed))
  {
    SlotRateIsExact(r);
    hide FloorDiv, SlotRate, Owed, ReserveState.BorrowRatePerSlot, DebtFits, ReserveConfig.Valid;
  }

  /** The whole accrual. It fails for a slot in the past and for widths, and leaves the index
      alone in the same slot and without principal. Otherwise the new index follows from the
      debt, the idle liquidity and the configuration, and the protocol is owed its floored
      share of what the debt grew by. */
  lemma AccrualIsExact(r: ReserveState, slot: u64)
    requires r.config.Valid()
    ensures var p := r.borrowedPrincipal;
      var x := SlotRate(r.config, Owed(p, r.borrowIndex), r.availableLiquidity);
      var idle := slot <= r.lastUpdateSlot || p == 0;
      var growth := if idle then SCALE else SCALE + x * (slot - r.lastUpdateSlot);
      var index := if idle then r.borrowIndex else IndexAfter(r.borrowIndex, x, slot - r.lastUpdateSlot);
      var fees := r.accruedFees + PartOf(SaturatingSub(Owed(p, index), Owed(p, r.borrowIndex)),
                                         r.config.reserveFactorBps);
      && (Accrued(r, slot).Ok? <==>
          && r.lastUpdateSlot <= slot
          && (idle || (&& DebtFits(p, r.borrowIndex) && DebtFits(p, index)
                       && growth <= U128_MAX && r.borrowIndex * growth <= U128_MAX && fees <= U64_MAX)))
      && (Accrued(r, slot).Ok? ==>
          var s := Accrued(r, slot).value;
          && s == r.(borrowIndex := s.borrowIndex, accruedFees := s.accruedFees, lastUpdateSlot := slot)
          && s.borrowIndex == index && s.accruedFees == fees)
  {
    if slot > r.lastUpdateSlot && r.borrowedPrincipal > 0 { GrownIndexIsExact(r, slot - r.lastUpdateSlot); }
    NothingOfNothing(r.config.reserveFactorBps);
    hide FloorDiv, SlotRate, Owed, ReserveState.GrownIndex, ReserveConfig.Valid, IndexAfter;
  }

  lemma NothingOfNothing(bps: nat)
    ensures PartOf(0, bps) == 0
  {
    assert 0 * bps == 0;
  }
}
