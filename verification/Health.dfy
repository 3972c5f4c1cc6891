/** The five oracle states, what each permits (oracle/breaker.rs), and the part of an
oracle account the lending handlers read (state/oracle.rs). */
module Health {
  import opened Wrappers
  import opened FixedPoint

  datatype OracleHealth = Healthy | RateWarning | BorrowFrozen | Emergency | Bootstrapping
  {
    predicate Permits(action: RiskAction) {
      match action
      case Repay | DepositCollateral | SupplyLiquidity | Liquidate => true
      case WithdrawLiquidity => !Emergency?
      case Borrow | WithdrawCollateral => Healthy? || RateWarning?
    }

    /** The account stores the state as this number; a larger one counts as worse. */
    function Rank(): nat {
      match this
      case Healthy => 0
      case RateWarning => 1
      case BorrowFrozen => 2
      case Emergency => 3
      case Bootstrapping => 4
    }

    function Refusal(): Error {
      match this
      case Emergency => OracleEmergency
      case Bootstrapping => OracleBootstrapping
      case _ => OracleBorrowFrozen
    }
  }

  datatype RiskAction =
    | Borrow | WithdrawCollateral | WithdrawLiquidity | SupplyLiquidity
    | Repay | DepositCollateral | Liquidate

  /** An oracle account as a lending handler sees it. A zero rate reads as "not set". */
  datatype Quote = Quote(lastRefreshSlot: u64, effectiveRate: u128, health: OracleHealth)
  {
    function RequireFresh(slot: u64): Result<()> { Need(lastRefreshSlot == slot, OracleStale) }

    function RequirePermits(action: RiskAction): Result<()> { Need(health.Permits(action), health.Refusal()) }

    function Rate(): Result<u128> {
      if effectiveRate > 0 then Ok(effectiveRate) else Err(InvalidOraclePrice)
    }

    /** The price of a handler that requires freshness and permission first. */
    function PriceFor(action: RiskAction, slot: u64): Result<u128> {
      var _ :- RequireFresh(slot);
      var _ :- RequirePermits(action);
      Rate()
    }
  }
}
