/** One asset's pool (state/reserve.rs): configuration, the kinked rate curve, interest
accrual and the conversions between shares and liquidity.

`ReserveState` is the account's value; its functions are the program's, with their
overflow failures. `Debt`, `Gross` and `Total` are the exact quantities those functions
compute when they do not fail. `Reserve` is the account updated in place. */
module Reserves {
  import opened Wrappers
  import opened FixedPoint
  import opened Debts

  datatype ReserveConfig = ReserveConfig(
    loanToValueBps: u16,
    liquidationThresholdBps: u16,
    liquidationBonusBps: u16,
    closeFactorBps: u16,
    collateralHaircutBps: u16,
    optimalUtilizationBps: u16,
    minBorrowRateBps: u16,
    optimalBorrowRateBps: u16,
    maxBorrowRateBps: u16,
    reserveFactorBps: u16,
    originationFeeBps: u16,
    supplyCap: u64,
    borrowCap: u64,
    borrowEnabled: bool,
    collateralEnabled: bool,
    isolated: bool,
    slotsPerYear: u64)
  {
    /** What `validate` accepts, hard maxima included. */
    predicate Valid() {
      && loanToValueBps <= 7_500
      && liquidationThresholdBps <= BPS
      && liquidationBonusBps <= 1_500
      && 0 < closeFactorBps <= BPS
      && collateralHaircutBps <= BPS
      && (collateralEnabled ==> collateralHaircutBps >= 100)
      && reserveFactorBps <= 3_000
      && originationFeeBps <= 50
      && 0 < optimalUtilizationBps < BPS
      && loanToValueBps <= liquidationThresholdBps
      && minBorrowRateBps <= optimalBorrowRateBps <= maxBorrowRateBps
      && slotsPerYear > 0
      && !(supplyCap > 0 && borrowCap > supplyCap)
    }
  }

  /** The kinked curve as a function of utilization alone. */
  function CurveRate(c: ReserveConfig, utilization: nat): Result<u128> {
    if utilization <= c.optimalUtilizationBps then
      var range :- CheckedSub(c.optimalBorrowRateBps, c.minBorrowRateBps);
      var climbed :- MulDivFloor(range, utilization, c.optimalUtilizationBps);
      ToU128(c.minBorrowRateBps + climbed)
    else
      var range :- CheckedSub(c.maxBorrowRateBps, c.optimalBorrowRateBps);
      var width :- CheckedSub(BPS, c.optimalUtilizationBps);
      var climbed :- MulDivFloor(range, utilization - c.optimalUtilizationBps, width);
      ToU128(c.optimalBorrowRateBps + climbed)
  }

  /** Utilization of a pool with `debt` lent out of `gross`. */
  function UtilizationOf(debt: nat, gross: nat): Result<u128> {
    if gross == 0 then Ok(0) else MulDivFloor(debt, BPS, gross)
  }

  datatype ReserveState = ReserveState(
    liquidityDecimals: u8,
    availableLiquidity: u64,
    shareMintSupply: u64,
    borrowedPrincipal: u128,
    borrowIndex: u128,
    lastUpdateSlot: u64,
    accruedFees: u64,
    config: ReserveConfig)
  {
    /** Live debt, rounded up. */
    function Debt(): nat { Owed(borrowedPrincipal, borrowIndex) }

    function Gross(): nat { availableLiquidity + Debt() }

    /** What the share token is a claim on. Negative exactly when `TotalLiquidity` fails
        for lack of assets rather than for width. */
    function Total(): int { Gross() - accruedFees }

    function CurrentBorrowedAmount(): Result<u64> { DebtAt(borrowedPrincipal, borrowIndex) }

    function GrossLiquidity(): Result<u128> {
      var debt :- CurrentBorrowedAmount();
      ToU128(availableLiquidity + debt)
    }

    function TotalLiquidity(): Result<u128> {
      var gross :- GrossLiquidity();
      CheckedSub(gross, accruedFees)
    }

    function UtilizationBps(): Result<u128> {
      var gross :- GrossLiquidity();
      var debt :- CurrentBorrowedAmount();
      UtilizationOf(debt, gross)
    }

    function BorrowRateBps(): Result<u128> {
      var utilization :- UtilizationBps();
      CurveRate(config, utilization)
    }

    function BorrowRatePerSlot(): Result<u128> {
      var apr :- BorrowRateBps();
      var denominator :- ToU128(BPS * config.slotsPerYear);
      MulDivFloor(apr, SCALE, denominator)
    }

    /** The index after `elapsed` slots at the current rate. */
    function GrownIndex(elapsed: u64): Result<u128> {
      var rate :- BorrowRatePerSlot();
      var accrued :- ToU128(rate * elapsed);
      var growth :- ToU128(SCALE + accrued);
      MulDivFloor(borrowIndex, growth, SCALE)
    }

    function SharesToLiquidity(shares: u64, rounding: Rounding): Result<u64> {
      var total :- TotalLiquidity();
      var amount :- MulDiv(shares, total, Max(shareMintSupply, 1), rounding);
      ToU64(amount)
    }

    function LiquidityToShares(liquidity: u64, rounding: Rounding): Result<u64> {
      if shareMintSupply == 0 then Ok(liquidity) else
      var total :- TotalLiquidity();
      var amount :- MulDiv(liquidity, shareMintSupply, Max(total, 1), rounding);
      ToU64(amount)
    }

    function RequireAccrued(slot: u64): Result<()> { Need(lastUpdateSlot == slot, ReserveStale) }
  }

  /** The account after `accrue_interest`: one multiply of the index, and the protocol's
      floored cut of the interest carved out as fees. */
  function Accrued(r: ReserveState, slot: u64): Result<ReserveState> {
    var elapsed :- CheckedSub(slot, r.lastUpdateSlot);
    if elapsed == 0 || r.borrowedPrincipal == 0 then Ok(r.(lastUpdateSlot := slot)) else
    var before :- r.CurrentBorrowedAmount();
    var index :- r.GrownIndex(elapsed);
    var after :- r.(borrowIndex := index).CurrentBorrowedAmount();
    var cut :- MulDivFloor(SaturatingSub(after, before), r.config.reserveFactorBps, BPS);
    var fees :- ToU64(r.accruedFees + cut);
    Ok(r.(borrowIndex := index, accruedFees := fees, lastUpdateSlot := slot))
  }

  /** The reserve account, updated in place. */
  class Reserve {
    var liquidityDecimals: u8
    var availableLiquidity: u64
    var shareMintSupply: u64
    var borrowedPrincipal: u128
    var borrowIndex: u128
    var lastUpdateSlot: u64
    var accruedFees: u64
    var config: ReserveConfig

    /** A new reserve is empty, with its index at one. */
    constructor (decimals: u8, config: ReserveConfig, slot: u64)
      ensures State() == ReserveState(decimals, 0, 0, 0, SCALE, slot, 0, config)
    {
      liquidityDecimals, availableLiquidity, shareMintSupply := decimals, 0, 0;
      borrowedPrincipal, borrowIndex := 0, SCALE;
      lastUpdateSlot, accruedFees, this.config := slot, 0, config;
    }

    function State(): ReserveState
      reads this
    {
      ReserveState(liquidityDecimals, availableLiquidity, shareMintSupply, borrowedPrincipal,
                   borrowIndex, lastUpdateSlot, accruedFees, config)
    }

    method AccrueInterest(currentSlot: u64) returns (outcome: Result<()>)
      modifies this
      ensures outcome.Ok? <==> Accrued(old(State()), currentSlot).Ok?
      ensures State() == if outcome.Ok? then Accrued(old(State()), currentSlot).value else old(State())
    {
      var elapsed :- CheckedSub(currentSlot, lastUpdateSlot);
      if elapsed > 0 && borrowedPrincipal > 0 {
        var borrowedBefore :- State().CurrentBorrowedAmount();
        var index :- State().GrownIndex(elapsed);
        var borrowedAfter :- State().(borrowIndex := index).CurrentBorrowedAmount();
        var interest := SaturatingSub(borrowedAfter, borrowedBefore);
        var cut :- MulDivFloor(interest, config.reserveFactorBps, BPS);
        var fees :- ToU64(accruedFees + cut);
        borrowIndex, accruedFees := index, fees;
      }
      lastUpdateSlot := currentSlot;
      return Ok(());
    }
  }

  // ---------- the computed quantities are the exact ones ----------

  /** `total_liquidity` is the exact total, and fails exactly when the debt leaves its
      width or the fees outgrow the assets. */
  lemma TotalLiquidityIsTotal(r: ReserveState)
    ensures r.TotalLiquidity().Ok? <==>
            r.borrowedPrincipal * r.borrowIndex <= U128_MAX && r.Debt() <= U64_MAX && r.accruedFees <= r.Gross()
    ensures r.TotalLiquidity().Ok? ==> r.TotalLiquidity().value == r.Total()
  {
  }
}
