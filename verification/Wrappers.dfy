/** Failure-compatible results, and the errors the modelled instructions return.

An instruction that returns an error is rolled back by the runtime, so a model step
that yields `Err` leaves every account as it was.
*/
module Wrappers {

  datatype Error =
    | MathOverflow
    | InvalidConfig
    | ZeroAmount
    | DepositTooSmall
    | ReserveStale
    | ObligationStale
    | OracleStale
    | OracleBorrowFrozen
    | OracleBootstrapping
    | OracleEmergency
    | BorrowNotEnabled
    | CollateralNotEnabled
    | SupplyCapExceeded
    | BorrowCapExceeded
    | PerWalletCapExceeded
    | PerWalletBorrowCapExceeded
    | ProtocolPaused
    | BorrowPaused
    | BorrowTooLarge
    | WithdrawTooLarge
    | ObligationHealthy
    | ObligationHasCollateral
    | NoBadDebt
    | InsufficientReserveLiquidity
    | LiquidationTooLarge
    | TooManyReserves
    | ReserveNotFound
    | InvalidObligationAccount
    | NothingToCollect
    | InvalidOraclePrice
    | InvalidOracleConfig
    | UnknownOracleSource
    | ObservationTooSoon
    | OracleAccountMismatch
    | OracleOwnerMismatch
    | OracleProgramDataMismatch
    | OracleAccountMalformed
    | OracleMintMismatch
    | OracleWithdrawalFeeTooHigh
    | OracleZeroSupply
    | OracleZeroBacking
    | OracleRateBelowFloor
    | OracleRateAboveCeiling
    | OracleProgramUpgraded
    | OracleAuthorityChanged
    | TransferRefused
    | UnknownAccount

  datatype Option<+T> = None | Some(value: T)

  datatype Result<+T> = Ok(value: T) | Err(error: Error) {
    predicate IsFailure() { Err? }

    function PropagateFailure<U>(): Result<U>
      requires Err?
    {
      Err(error)
    }

    function Extract(): T
      requires Ok?
    {
      value
    }
  }

  /** The `require!` of the program: go on, or fail with the given error. */
  function Need(condition: bool, error: Error): Result<()> {
    if condition then Ok(()) else Err(error)
  }
}
