/** Interest does not depend on who cranks it when.

Cutting one stretch of slots into n accruals gives a borrow index no more than n - 1
units below the index of a single accrual. The bound is reached, so "splitting never
charges less" is not a law of the program; it is one when the reserve starts from an index
whose per-slot growth is whole, as every reserve does at index one. */
module AccrualSchedule {
  import opened Wrappers
  import opened FixedPoint
  import opened Debts
  import opened Reserves

  /** The reserve after accruing at each slot in turn. */
  function AccruedAlong(r: ReserveState, slots: seq<u64>): Result<ReserveState> {
    if slots == [] then Ok(r) else
    var s :- AccruedAlong(r, slots[..|slots| - 1]);
    Accrued(s, slots[|slots| - 1])
  }

  /** Interest units one accrual of `elapsed` slots adds to the index. */
  function Growth(index: nat, rate: nat, elapsed: nat): nat { FloorDiv(index * (rate * elapsed), SCALE) }

  lemma GrownIndexAddsGrowth(r: ReserveState, elapsed: u64)
    requires r.GrownIndex(elapsed).Ok?
    ensures r.BorrowRatePerSlot().Ok?
    ensures r.GrownIndex(elapsed).value == r.borrowIndex + Growth(r.borrowIndex, r.BorrowRatePerSlot().value, elapsed)
  {
    hide ReserveState.BorrowRatePerSlot;
    var accrued := r.BorrowRatePerSlot().value * elapsed;
    assert r.borrowIndex * (SCALE + accrued) == r.borrowIndex * SCALE + r.borrowIndex * accrued;
  }

  lemma NoGrowthWithoutTime(i: nat, p: nat)
    ensures Growth(i, p, 0) == 0
  {
    assert i * (p * 0) == 0;
  }

  lemma GrowthMono(i: nat, j: nat, p: nat, q: nat, elapsed: nat)
    requires i <= j && p <= q
    ensures Growth(i, p, elapsed) <= Growth(j, q, elapsed)
  {
    MulMono(p, q, elapsed);
    MulMono(i, j, p * elapsed);
    MulMono(p * elapsed, q * elapsed, j);
    FloorMono(i * (p * elapsed), j * (q * elapsed), SCALE);
  }

  lemma GrowthOfSum(i: nat, p: nat, d: nat, e: nat)
    ensures Growth(i, p, d + e) <= Growth(i, p, d) + Growth(i, p, e) + 1
    ensures i * p % SCALE == 0 ==> Growth(i, p, d + e) == Growth(i, p, d) + Growth(i, p, e)
  {
    assert i * (p * (d + e)) == i * (p * d) + i * (p * e);
    FloorOfSum(i * (p * d), i * (p * e), SCALE);
    if i * p % SCALE == 0 {
      WholeGrowth(i, p, d);
      WholeGrowth(i, p, e);
      WholeGrowth(i, p, d + e);
      assert i * p / SCALE * (d + e) == i * p / SCALE * d + i * p / SCALE * e;
    }
  }

  lemma WholeGrowth(i: nat, p: nat, e: nat)
    requires i * p % SCALE == 0
    ensures Growth(i, p, e) == i * p / SCALE * e
  {
    var k := i * p / SCALE;
    assert i * (p * e) == (i * p) * e == (k * SCALE) * e == (k * e) * SCALE;
  }

  // ---------- the rate never falls as debt grows ----------

  lemma UtilizationMono(debt: nat, more: nat, idle: nat)
    requires debt <= more
    requires UtilizationOf(debt, idle + debt).Ok? && UtilizationOf(more, idle + more).Ok?
    ensures UtilizationOf(debt, idle + debt).value <= UtilizationOf(more, idle + more).value <= BPS
  {
    hide FloorDiv;
    if idle + more > 0 { ShareWithinWhole(more, idle + more); }
    if idle + debt > 0 {
      var u := FloorDiv(debt * BPS, idle + debt);
      ShareWithinWhole(debt, idle + debt);
      MulMono(u, BPS, more - debt);
      assert u * (idle + more) == u * (idle + debt) + u * (more - debt);
      FloorIsLargest(u, more * BPS, idle + more);
    }
  }

  lemma ShareWithinWhole(part: nat, whole: nat)
    requires part <= whole && whole > 0
    ensures FloorDiv(part * BPS, whole) <= BPS
  {
    hide FloorDiv;
    FloorMono(part * BPS, whole * BPS, whole);
    FloorIsLargest(BPS + 1, whole * BPS, whole);
  }

  /** A slope climbs with its argument, and no further than its range. */
  lemma SlopeClimbs(range: nat, u: nat, v: nat, width: nat)
    requires u <= v <= width && width > 0
    ensures FloorDiv(range * u, width) <= FloorDiv(range * v, width) <= range
  {
    hide FloorDiv;
    MulMono(u, v, range);
    MulMono(v, width, range);
    FloorMono(range * u, range * v, width);
    assert (range + 1) * width == range * width + width;
    FloorIsLargest(range + 1, range * v, width);
  }

  /** The kinked curve rises with utilization, through the kink. */
  lemma CurveMono(c: ReserveConfig, u: nat, v: nat)
    requires c.Valid() && u <= v <= BPS && CurveRate(c, u).Ok? && CurveRate(c, v).Ok?
    ensures CurveRate(c, u).value <= CurveRate(c, v).value
  {
    hide FloorDiv;
    var k := c.optimalUtilizationBps;
    if v <= k {
      SlopeClimbs(c.optimalBorrowRateBps - c.minBorrowRateBps, u, v, k);
    } else if u <= k {
      SlopeClimbs(c.optimalBorrowRateBps - c.minBorrowRateBps, u, k, k);
    } else {
      SlopeClimbs(c.maxBorrowRateBps - c.optimalBorrowRateBps, u - k, v - k, BPS - k);
    }
  }

  lemma RateMono(r: ReserveState, s: ReserveState)
    requires r.config == s.config && r.config.Valid()
    requires r.availableLiquidity == s.availableLiquidity && r.borrowedPrincipal == s.borrowedPrincipal
    requires r.borrowIndex <= s.borrowIndex
    requires r.BorrowRatePerSlot().Ok? && s.BorrowRatePerSlot().Ok?
    ensures r.BorrowRatePerSlot().value <= s.BorrowRatePerSlot().value
  {
    OwedMono(r.borrowedPrincipal, s.borrowedPrincipal, r.borrowIndex, s.borrowIndex);
    UtilizationMono(r.Debt(), s.Debt(), r.availableLiquidity);
    CurveMono(r.config, r.UtilizationBps().value, s.UtilizationBps().value);
    FloorMono(r.BorrowRateBps().value * SCALE, s.BorrowRateBps().value * SCALE, BPS * r.config.slotsPerYear);
  }

  // ---------- the schedule ----------

  /** What the reserve looks like part of the way along: only its index, fees and slot have
      moved, and the index has lost at most one unit per accrual after the first. */
  ghost predicate AlongTheWay(r: ReserveState, s: ReserveState, loss: nat)
    requires r.BorrowRatePerSlot().Ok?
  {
    && s == r.(borrowIndex := s.borrowIndex, accruedFees := s.accruedFees, lastUpdateSlot := s.lastUpdateSlot)
    && r.lastUpdateSlot <= s.lastUpdateSlot
    && r.borrowIndex <= s.borrowIndex
    && s.borrowIndex + loss >=
       r.borrowIndex + Growth(r.borrowIndex, r.BorrowRatePerSlot().value, s.lastUpdateSlot - r.lastUpdateSlot)
    && (r.borrowIndex * r.BorrowRatePerSlot().value % SCALE == 0 ==>
        s.borrowIndex >=
        r.borrowIndex + Growth(r.borrowIndex, r.BorrowRatePerSlot().value, s.lastUpdateSlot - r.lastUpdateSlot))
  }

  lemma FirstAccrual(r: ReserveState, slot: u64)
    requires r.borrowedPrincipal > 0 && r.BorrowRatePerSlot().Ok? && Accrued(r, slot).Ok?
    ensures AlongTheWay(r, Accrued(r, slot).value, 0)
  {
    hide FloorDiv, CeilDiv, ReserveState.BorrowRatePerSlot, ReserveState.GrownIndex, Growth;
    NoGrowthWithoutTime(r.borrowIndex, r.BorrowRatePerSlot().value);
    if slot > r.lastUpdateSlot { GrownIndexAddsGrowth(r, slot - r.lastUpdateSlot); }
  }

  lemma NextAccrual(r: ReserveState, s: ReserveState, loss: nat, slot: u64)
    requires r.config.Valid() && r.borrowedPrincipal > 0 && r.BorrowRatePerSlot().Ok?
    requires AlongTheWay(r, s, loss) && Accrued(s, slot).Ok?
    ensures AlongTheWay(r, Accrued(s, slot).value, loss + 1)
  {
    hide FloorDiv, CeilDiv, ReserveState.BorrowRatePerSlot, ReserveState.GrownIndex, Growth, ReserveConfig.Valid;
    var rate, elapsed := r.BorrowRatePerSlot().value, slot - s.lastUpdateSlot;
    GrowthOfSum(r.borrowIndex, rate, s.lastUpdateSlot - r.lastUpdateSlot, elapsed);
    if elapsed > 0 {
      GrownIndexAddsGrowth(s, elapsed);
      RateMono(r, s);
      GrowthMono(r.borrowIndex, s.borrowIndex, rate, s.BorrowRatePerSlot().value, elapsed);
    } else {
      NoGrowthWithoutTime(r.borrowIndex, rate);
    }
  }

  lemma {:induction false} SplitKeepsGrowth(r: ReserveState, slots: seq<u64>)
    requires slots != [] && r.config.Valid() && r.borrowedPrincipal > 0 && r.BorrowRatePerSlot().Ok?
    requires AccruedAlong(r, slots).Ok?
    ensures AlongTheWay(r, AccruedAlong(r, slots).value, |slots| - 1)
  {
    var before := slots[..|slots| - 1];
    hide AlongTheWay, Accrued, ReserveConfig.Valid, ReserveState.BorrowRatePerSlot;
    if before == [] {
      FirstAccrual(r, slots[0]);
    } else {
      SplitKeepsGrowth(r, before);
      NextAccrual(r, AccruedAlong(r, before).value, |before| - 1, slots[|slots| - 1]);
    }
  }

  /** Splitting the same slots into n accruals loses at most n - 1 index units against one
      accrual, and loses none when the starting index times the rate is whole. */
  lemma SplittingAccrual(r: ReserveState, slots: seq<u64>)
    requires slots != [] && r.config.Valid()
    requires AccruedAlong(r, slots).Ok? && Accrued(r, slots[|slots| - 1]).Ok?
    ensures var split, once := AccruedAlong(r, slots).value, Accrued(r, slots[|slots| - 1]).value;
      && split.lastUpdateSlot == once.lastUpdateSlot
      && split.borrowIndex + (|slots| - 1) >= once.borrowIndex
      && (r.BorrowRatePerSlot().Ok? && r.borrowIndex * r.BorrowRatePerSlot().value % SCALE == 0 ==>
          split.borrowIndex >= once.borrowIndex)
  {
    hide FloorDiv, CeilDiv, ReserveState.BorrowRatePerSlot, ReserveState.GrownIndex, Growth, ReserveConfig.Valid;
    var last := slots[|slots| - 1];
    if r.borrowedPrincipal == 0 {
      IdleReserveKeepsIndex(r, slots);
    } else if last == r.lastUpdateSlot {
      SlotsAdvance(r, slots);
    } else {
      GrownIndexAddsGrowth(r, last - r.lastUpdateSlot);
      SplitKeepsGrowth(r, slots);
    }
  }

  lemma {:induction false} IdleReserveKeepsIndex(r: ReserveState, slots: seq<u64>)
    requires r.borrowedPrincipal == 0 && AccruedAlong(r, slots).Ok?
    ensures AccruedAlong(r, slots).value == r.(lastUpdateSlot := AccruedAlong(r, slots).value.lastUpdateSlot)
  {
    if slots != [] { IdleReserveKeepsIndex(r, slots[..|slots| - 1]); }
  }

  /** Accruals only move forward, and the index with them. */
  lemma {:induction false} SlotsAdvance(r: ReserveState, slots: seq<u64>)
    requires AccruedAlong(r, slots).Ok?
    ensures AccruedAlong(r, slots).value.lastUpdateSlot == if slots == [] then r.lastUpdateSlot else slots[|slots| - 1]
    ensures AccruedAlong(r, slots).value.lastUpdateSlot >= r.lastUpdateSlot
    ensures AccruedAlong(r, slots).value.borrowIndex >= r.borrowIndex
  {
    if slots != [] {
      var s := AccruedAlong(r, slots[..|slots| - 1]).value;
      SlotsAdvance(r, slots[..|slots| - 1]);
      var elapsed := slots[|slots| - 1] - s.lastUpdateSlot;
      if elapsed > 0 && s.borrowedPrincipal > 0 { GrownIndexAddsGrowth(s, elapsed); }
    }
  }

  /** The COOK reserve at its launch parameters, with a sliver lent out at `index`. */
  function LaunchReserve(index: u128, slot: u64, fees: u64): ReserveState {
    ReserveState(9, 999, 1_000, 1, index, slot, fees,
      ReserveConfig(0, 0, 800, 5_000, 0, 6_000, 200, 1_000, 9_000, 1_500, 15, 0, 0, true, false, false, 69_313_098))
  }

  lemma LaunchRate(index: u128, slot: u64, fees: u64)
    requires SCALE < index <= 2 * SCALE
    ensures LaunchReserve(index, slot, fees).BorrowRatePerSlot() == Ok(291_431_209)
    ensures LaunchReserve(index, slot, fees).CurrentBorrowedAmount() == Ok(2)
  {
    var r := LaunchReserve(index, slot, fees);
    assert r.GrossLiquidity() == Ok(1_001);
    assert r.UtilizationBps() == Ok(19);
    assert CurveRate(r.config, 19) == Ok(202);
  }

  /** At the launch parameters, from index 1.1, two one-slot accruals charge one unit less
      than a single two-slot accrual. */
  lemma SplittingMayForgiveOneUnit()
    ensures var r := LaunchReserve(1_100_000_000_000_000_000, 0, 0);
      && r.config.Valid()
      && Accrued(r, 2) == Ok(LaunchReserve(1_100_000_000_641_148_659, 2, 0))
      && AccruedAlong(r, [1, 2]) == Ok(LaunchReserve(1_100_000_000_641_148_658, 2, 0))
  {
    var r, s := LaunchReserve(1_100_000_000_000_000_000, 0, 0), LaunchReserve(1_100_000_000_320_574_329, 1, 0);
    LaunchAccrual(r.borrowIndex, 0, 2, 1_100_000_000_641_148_659);
    LaunchAccrual(r.borrowIndex, 0, 1, s.borrowIndex);
    LaunchAccrual(s.borrowIndex, 1, 1, 1_100_000_000_641_148_658);
    hide Accrued;
    assert [1, 2][..1] == [1] && [1][..0] == [];
    assert AccruedAlong(r, [1]) == Accrued(r, 1) == Ok(s);
  }

  lemma LaunchAccrual(index: u128, slot: u64, elapsed: u64, next: u128)
    requires SCALE < index <= next <= 2 * SCALE && 0 < elapsed && slot + elapsed <= U64_MAX
    requires next == index + FloorDiv(index * (291_431_209 * elapsed), SCALE)
    requires elapsed <= 1_000
    ensures Accrued(LaunchReserve(index, slot, 0), slot + elapsed) == Ok(LaunchReserve(next, slot + elapsed, 0))
  {
    var r := LaunchReserve(index, slot, 0);
    LaunchRate(index, slot, 0);
    LaunchRate(next, slot, 0);
    MulMono(index, 2 * SCALE, SCALE + 291_431_209 * elapsed);
    assert r.GrownIndex(elapsed) == Ok(next) by {
      hide ReserveState.BorrowRatePerSlot;
      assert index * (SCALE + 291_431_209 * elapsed) == index * SCALE + index * (291_431_209 * elapsed);
    }
    hide ReserveState.GrownIndex, ReserveState.CurrentBorrowedAmount;
    assert r.(borrowIndex := next) == LaunchReserve(next, slot, 0);
  }
}
