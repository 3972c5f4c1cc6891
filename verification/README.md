# Aera, verified

A Dafny model of the Aera lending program, with proofs of what it keeps. It covers three
machines that meet in one place, the price a position is valued at.

- **The pool.** A reserve lends what suppliers put in and borrowers owe index-scaled
  principal. Positions lock shares of reserves as collateral, are refreshed, borrow against a
  limit, repay, withdraw, are liquidated and, hopeless, written off.
- **The market-price oracle.** Two pools' reserves give a price, spaced observations go into a
  ring of 32, a time-weighted average is taken, and a breaker rations rises.
- **The exchange-rate oracle.** A stake-pool account is parsed tag by tag, the rate is judged
  against the last accepted one, and a five-state health decides what is permitted.

## How it is laid out

Every entity the program keeps in an account has two forms here. A datatype holds the account's
value, and a pure function of it is the step an instruction takes, with the program's checks in
the program's order and its overflow failures. A class holds the same fields and is updated in
place by methods, loops included, each proved equal to its step. The laws are about the steps,
so they hold of the methods.

| file | what it holds |
|---|---|
| Wrappers, FixedPoint, Sums, Powers, Bytes | results and errors, rounding, sums, powers, byte strings |
| Debts, Reserves, PoolSteps | index-scaled debt, one reserve, what each instruction does to it |
| AccrualSchedule | interest whoever accrues it when |
| Obligations, Valuation, Lending | a position, what it is worth, the instructions on it |
| HandlerLaws, PositionLaws, BorrowLaws, LiquidationLaws, Recovery | what those instructions promise |
| RateLaws, Admission, LiquidationTerms, RefreshLaws | when each goes through and exactly what it writes |
| Scenario, LiquidationEscape, PoolHistory | concrete positions and reserves, in and out of the conditions of those promises |
| Books, Ledger, TokenFlows, LedgerLaws, Solvency, Churn | all reserves, positions and token balances, over whole runs |
| MarketHistory, MarketBreaker, MarketRefresh, MarketRuns, MarketReading, MarketEscape | the market-price oracle |
| Health, StakePool, PinnedProgram, NativeSource, RateBreaker, OracleAccount, OracleRuns, RateReading, BootstrapEscape | the exchange-rate oracle |

An instruction that fails is rolled back by the runtime, so a failing step changes nothing. The
clock, the prices an instruction reads, the reserves of the two market pools and the bytes of
the stake-pool account are parameters. Several instructions in one transaction are consecutive
steps of a run in one slot.

## Where the code and its documentation differ

The model follows the code. A lemma gives an input in each case, and another says when the
documented behaviour holds. The inputs of the two
oracles are runs of newly configured accounts.

- Splitting an accrual may forgive interest, at most one index unit for each extra accrual
  (`SplittingMayForgiveOneUnit`, `SplittingAccrual`); programs/aera/tests/audit_rounding.rs
  says it never does and samples starts at index one.
- A borrow checked against its limit may be recomputed past it, since principal is rounded up
  and debt rounded up again (`BorrowMayPassItsLimit`, `DrawMayExceedAmount`). The recomputed
  debt stays within the projection that was checked exactly when the index divides the draw
  (`DrawProjectsIff`, `FirstBorrowStaysProjectedIff`), and otherwise past the limit by no more
  than one unit of principal is worth (`BorrowStaysNearLimit`).
- A write-off may leave fees without assets, and the share price undefined
  (`WriteOffMayStrandFees`, `WriteOffCutsGross`).
- A bootstrapping rate oracle is said to wait for a later epoch. A refused or unreadable
  refresh overwrites the health that records the wait (`EscapesWithinOneEpoch`,
  `SameEpochEscapesIff`).
- Capped rises are said to converge. They stand still while the limit is worth less than one
  unit of price, and below an average too near the end of 128 bits (`RiseMayStandStill`,
  `ConvergesIff`). There the measured movement saturates and one rise may pass its limit
  (`RiseEscapesItsLimit`, `RiseIsBoundedIff`), and a capped rise may lower the price
  (`RiseHalvesTheReference`, `RiseNeverLowersIff`).
- A market price of zero unsets the reference, and the next average is not rationed
  (`PriceMayBeZero`, `ZeroPriceEscapesTheBound`). The reference stays set exactly while the
  average is positive (`StaysSetIff`), and prices in range keep it so (`RiseOverTime`).
- A refresh of the rate oracle is said to fail on a wrong account and never on a bad source. A
  wrong account for the source's program is recorded as an emergency (`EscapesWithinOneEpoch`,
  `ForeignProgramFreezes`), and a movement too large to be measured fails
  (`ImmeasurableReadFails`, `RefreshFailsIff`).
- The share price is kept only while shares are outstanding (`PriceMayFallAtAnEmptyPool`,
  `EmptyPoolForgetsItsPrice`).
- A liquidation is said to improve solvency. Under terms of the collateral that do not cover the
  bonus, which the program accepts, it may leave a position further past its line
  (`LiquidationMayWorsen`, `BonusCoveredIff`); under others it does not (`LiquidationRecovers`).

## Model

| member | source | states |
|---|---|---|
| `Debts.DebtAt` | programs/aera/src/state/obligation.rs:180-192 | a debt is reported exactly when product and ceiling fit their widths, and is then the exact ceiling |
| `Debts.OwedOfSum` | programs/aera/src/state/reserve.rs:317-337 | debts rounded up apart exceed the joint debt by at most one unit |
| `Debts.OwedAfterDraw` | programs/aera/src/instructions/borrow.rs:128-134 | a draw raises the debt by at least the amount and by at most the amount plus one unit of principal |
| `Debts.OwedAfterPayment` | programs/aera/src/instructions/repay.rs:35-37 | a payment lowers the debt by at most itself and falls short by at most one unit of principal |
| `Debts.FullPaymentClears` | programs/aera/src/instructions/repay.rs:31-37 | all principal is bought iff the payment covers its exact worth; paying the debt always does |
| `Reserves.TotalLiquidityIsTotal` | programs/aera/src/state/reserve.rs:317-358 | total liquidity is the exact total, and fails iff the debt leaves its width or the fees outgrow the assets |
| `Reserves.Reserve.AccrueInterest` | programs/aera/src/state/reserve.rs:438-475 | the in-place accrual equals the specified step, which `AccrualIsExact` gives in full, or leaves the account as it was |
| `HandlerLaws.AccrualSharesInterest` | programs/aera/src/state/reserve.rs:438-475 | an accrual adds the interest to the assets and nothing else, and the fees are its floored share, to the unit |
| `HandlerLaws.RateStaysOnCurve` | programs/aera/src/state/reserve.rs:382-409 | the borrow rate never fails on a valid curve, is the floored part of the way up its side of the kink to the unit, and stays between the curve's ends |
| `RateLaws.SlotRateIsExact` | programs/aera/src/state/reserve.rs:362-431 | the rate of a slot follows, floor by floor, from debt, idle liquidity and configuration, and fails iff the debt does |
| `RateLaws.AccrualIsExact` | programs/aera/src/state/reserve.rs:362-475 | an accrual succeeds iff its slot is not past and its numbers fit; the new index and fees then follow to the unit from debt, idle liquidity, elapsed slots and configuration |
| `AccrualSchedule.UtilizationMono` | programs/aera/src/state/reserve.rs:362-375 | utilization rises with debt |
| `AccrualSchedule.CurveMono` | programs/aera/src/state/reserve.rs:382-409 | the kinked curve rises with utilization, across the kink |
| `AccrualSchedule.RateMono` | programs/aera/src/state/reserve.rs:382-431 | a reserve with a grown index charges no lower rate |
| `AccrualSchedule.SplittingAccrual` | programs/aera/src/state/reserve.rs:425-475 | any n accruals over the same slots give an index at least the one-shot index less n - 1, and no less when the scaled rate is whole |
| `AccrualSchedule.SplittingMayForgiveOneUnit` | programs/aera/tests/audit_rounding.rs:215-248 | a concrete reserve at launch parameters where two accruals charge one unit less than one |
| `HandlerLaws.SupplyMintsTheFloor` | programs/aera/src/instructions/supply.rs:31-42 | shares minted are the most that are worth no more than the deposit; one a unit into an empty pool |
| `HandlerLaws.RedeemPaysTheFloor` | programs/aera/src/instructions/withdraw.rs:24-41 | liquidity paid is the most the burned shares are worth, from a vault that has it |
| `HandlerLaws.LendChargesTheFee` | programs/aera/src/instructions/borrow.rs:123-169 | principal is the least that covers the amount, the fee is floored and owed to the protocol, the rest is paid out |
| `Admission.SupplyIsOpen` | programs/aera/src/instructions/supply.rs:20-49 | a supply goes through iff amount, slot, both caps, a defined pool, at least one share and the widths allow; then shares, reserve and wallet record are the exact ones |
| `Admission.RedemptionIsOpen` | programs/aera/src/instructions/withdraw.rs:17-48 | a withdrawal goes through iff the shares exist, the slot is current, the pool is defined and the vault holds their floored worth; then it pays exactly that |
| `Admission.CollectionIsOpen` | programs/aera/src/instructions/admin/collect_fees.rs:15-37 | fees are paid iff some are owed and the vault holds anything: all of them, or all it holds |
| `PoolSteps.SupplyKeepsPrice` | programs/aera/src/instructions/supply.rs:31-42 | a supply does not lower the exact share price |
| `PoolSteps.RedeemKeepsPrice` | programs/aera/src/instructions/withdraw.rs:28-41 | a withdrawal does not lower the exact share price |
| `PoolSteps.LendKeepsPrice` | programs/aera/src/instructions/borrow.rs:130-169 | a borrow does not lower the pool's total or the share price |
| `PoolSteps.ReceiveKeepsPrice` | programs/aera/src/instructions/repay.rs:35-49 | a repayment does not lower the share price and leaves fees covered |
| `PoolSteps.AccrualKeepsPrice` | programs/aera/src/state/reserve.rs:438-475 | an accrual does not lower the share price, and the index only grows |
| `PoolSteps.CollectFeesKeepsPrice` | programs/aera/src/instructions/admin/collect_fees.rs:20-37 | paying fees leaves the suppliers' total unchanged |
| `PoolSteps.WriteOffCutsGross` | programs/aera/src/instructions/absorb_bad_debt.rs:140-155 | a write-off cuts gross liquidity by the amount owed or one less, and leaves the price defined iff the rest covers the fees |
| `PoolHistory.WriteOffMayStrandFees` | programs/aera/src/state/reserve.rs:348-358 | a concrete reserve, followed from its creation, whose total liquidity fails after a write-off |
| `Lending.HandleSupply` | programs/aera/src/instructions/supply.rs:20-49 | reserve and wallet record after a supply equal the specified step, pause switch and both caps included; failures change nothing |
| `Lending.HandleWithdraw` | programs/aera/src/instructions/withdraw.rs:17-48 | the same for a withdrawal, which gives the wallet its room under the cap back |
| `Lending.HandleBorrow` | programs/aera/src/instructions/borrow.rs:23-179 | the same for a borrow behind both pause switches, over both accounts; `BorrowIsOpen` and `BorrowIsExact` give the step |
| `Lending.ReceiveInto` | programs/aera/src/instructions/liquidate.rs:134-147 | crediting a payment moves principal and liquidity as specified, and never more than the entry holds |
| `Lending.HandleRepay` | programs/aera/src/instructions/repay.rs:20-60 | the same for a repayment |
| `Lending.HandleDepositCollateral` | programs/aera/src/instructions/deposit_collateral.rs:20-41 | the same for locking shares, behind the pause switch |
| `Lending.HandleWithdrawCollateral` | programs/aera/src/instructions/withdraw_collateral.rs:21-81 | the same for releasing shares, behind the pause switch |
| `Lending.HandleLiquidate` | programs/aera/src/instructions/liquidate.rs:31-165 | the same for a liquidation, with what is repaid and who gets the seizure; `LiquidationIsOpen` and `LiquidationIsExact` give the step |
| `Lending.HandleAbsorbBadDebt` | programs/aera/src/instructions/absorb_bad_debt.rs:103-169 | the same for a write-off |
| `Lending.HandleCollectFees` | programs/aera/src/instructions/admin/collect_fees.rs:15-37 | the same for paying out fees |
| `Admission.SwitchesStop` | programs/aera/src/state/global.rs:89-99 | behind a switch a step happens iff it is of something, nothing is paused, for a borrow neither switch, and the step itself goes through |
| `Admission.BorrowIsOpen` | programs/aera/src/instructions/borrow.rs:23-179 | a borrow goes through iff every condition on the accounts' fields holds: amount, slots, enabled, no stress, a price of this slot that is healthy or a rate warning, limit, both caps, vault, fee, entry room and widths |
| `Admission.BorrowIsExact` | programs/aera/src/instructions/borrow.rs:123-200 | it then writes the rounded-up principal to reserve and entry, pays out the amount less the floored fee, owes the fee to the protocol and makes the position stale |
| `Admission.RepayIsExact` | programs/aera/src/instructions/repay.rs:20-60 | a repayment takes the lesser of amount and debt, buys the rounded-down principal up to the entry's, and moves reserve and entry by exactly that |
| `Admission.DepositIsOpen` | programs/aera/src/instructions/deposit_collateral.rs:20-41 | shares are locked iff the reserve is collateral, an isolated one joins no other, and there is room; one record grows by them |
| `Admission.WithdrawalIsOpen` | programs/aera/src/instructions/withdraw_collateral.rs:21-81 | shares are released iff slots are current, the price permits new risk, the entry holds them and the debt stays within the limit less the power leaving, four ceilings to the unit |
| `Admission.AbsorptionIsOpen` | programs/aera/src/instructions/absorb_bad_debt.rs:103-169 | a debt is written off iff position and reserve are current, no collateral is left anywhere, the entry owes something that fits, and the books hold it |
| `Obligations.Obligation.UpsertCollateral` | programs/aera/src/state/obligation.rs:131-145 | the entry for the reserve, pushed empty if there is room, else an error and no change |
| `Obligations.Obligation.UpsertBorrow` | programs/aera/src/state/obligation.rs:149-163 | the same for a debt entry |
| `Obligations.Obligation.ReleasePrincipal` | programs/aera/src/instructions/repay.rs:51-60 | principal leaves the entry, and an emptied entry is removed |
| `Obligations.Obligation.ReleaseShares` | programs/aera/src/instructions/withdraw_collateral.rs:74-80 | shares leave the entry, and an emptied entry is removed |
| `Obligations.PutPrincipalRecords` | programs/aera/src/instructions/borrow.rs:171-179 | a draw changes the record of its reserve by its principal and no other |
| `Obligations.TakeCollateralRecords` | programs/aera/src/instructions/liquidate.rs:157-162 | a seizure changes the record of its reserve by its shares and no other |
| `Obligations.TakePrincipalKept` | programs/aera/src/state/obligation.rs:131-163 | entries stay unique per reserve, positive and at most four when principal is taken |
| `Obligations.PutCollateralKept` | programs/aera/src/state/obligation.rs:131-163 | and when shares are added |
| `HandlerLaws.HealthFactorAgrees` | programs/aera/src/state/obligation.rs:107-127 | the floored health factor is below one iff the position is liquidatable |
| `Valuation.WalkDeposits` | programs/aera/src/instructions/refresh_obligation.rs:37-79 | the deposits loop computes the specified valuation, one pair an entry |
| `Valuation.WalkBorrows` | programs/aera/src/instructions/refresh_obligation.rs:81-113 | the borrows loop continues where the deposits stopped |
| `Valuation.RefreshObligation` | programs/aera/src/instructions/refresh_obligation.rs:24-129 | only a complete walk over exactly the given pairs commits, and commits exactly the sums |
| `PositionLaws.DepositsLoopSums` | programs/aera/src/instructions/refresh_obligation.rs:37-79 | the deposits loop succeeds iff every entry can be read and valued and the four sums fit, and yields those sums |
| `BorrowLaws.BorrowsLoopSums` | programs/aera/src/instructions/refresh_obligation.rs:81-113 | the borrows loop yields the sum of the entries' rounded-up values |
| `RefreshLaws.WorthIsExact` | programs/aera/src/instructions/refresh_obligation.rs:47-79 | an entry is valued iff pool, haircut and widths allow, and then at the exact floors of liquidity, face, haircut, loan to value and threshold |
| `RefreshLaws.DebtWorthIsExact` | programs/aera/src/instructions/refresh_obligation.rs:92-113 | a debt is valued at the ceiling of its rounded-up amount, iff the widths allow |
| `RefreshLaws.RefreshIsOpen` | programs/aera/src/instructions/refresh_obligation.rs:24-129 | a refresh succeeds iff it is handed exactly one readable pair for every entry, in order, and the five sums fit |
| `RefreshLaws.ReadsIff` | programs/aera/src/instructions/refresh_obligation.rs:139-194 | a pair is readable iff it is the entry's own, its reserve accrued and its oracle refreshed this slot at a price that is set |
| `RefreshLaws.RefreshWrites` | programs/aera/src/instructions/refresh_obligation.rs:115-129 | it writes those sums, every entry's own value, a fresh slot, and the mark of stress iff some oracle read is neither healthy nor a rate warning |
| `PositionLaws.RefreshIsIdempotent` | programs/aera/src/instructions/refresh_obligation.rs:24-129 | refreshing twice with the same accounts changes nothing |
| `PositionLaws.RemovalIsCovered` | programs/aera/src/instructions/withdraw_collateral.rs:41-60 | through four nested roundings the borrow power removed is never underestimated |
| `PositionLaws.WithdrawalLeavesPositionHealthy` | programs/aera/src/instructions/withdraw_collateral.rs:44-81 | if the simulation accepts, a full refresh succeeds and finds debt <= allowed <= unhealthy, for any list of entries |
| `Scenario.SaverWithdraws` | programs/aera/src/instructions/withdraw_collateral.rs:41-81 | a concrete position that the theorem applies to |
| `BorrowLaws.BorrowStaysNearLimit` | programs/aera/src/instructions/borrow.rs:52-65 | after an accepted borrow a full recompute finds the debt within the limit plus the value of one unit of principal, and within the limit when the index divides the draw |
| `BorrowLaws.BorrowRecomputesIff` | programs/aera/src/instructions/refresh_obligation.rs:37-113 | that recompute succeeds iff the deposits can still be valued, which those in other reserves always can, and the drawn debt and the sum of debts fit their widths |
| `Scenario.SaverBorrows` | programs/aera/src/instructions/borrow.rs:52-65 | a concrete borrow that the theorem applies to |
| `BorrowLaws.BorrowGrowsDebt` | programs/aera/src/instructions/borrow.rs:128-179 | the borrower's real debt grows by at least the amount |
| `BorrowLaws.DrawIsExactIff` | programs/aera/src/instructions/borrow.rs:128-134 | the debt of every borrower grows by exactly the amount iff the index divides the scaled amount |
| `BorrowLaws.DrawMayExceedAmount` | programs/aera/src/instructions/borrow.rs:128-134 | a concrete draw of one unit that is owed as two |
| `BorrowLaws.DrawProjectsIff` | programs/aera/src/instructions/borrow.rs:52-65 | whatever was owed before, the recomputed value of the debt grows by at most the value the limit was checked with, iff the index divides the scaled amount |
| `BorrowLaws.FirstBorrowStaysProjectedIff` | programs/aera/src/instructions/borrow.rs:52-65 | after a first borrow from a reserve a full recompute finds the debt within the projection the limit was checked with, iff the index divides the scaled amount |
| `Scenario.BorrowMayPassItsLimit` | programs/aera/src/instructions/borrow.rs:52-65 | a concrete borrow, of a position and a reserve followed from their creation, that is accepted and recomputed past its limit |
| `BorrowLaws.RepayRoundTrip` | programs/aera/src/instructions/repay.rs:28-60 | repaying the debt removes the entry exactly; less leaves debt - paid to that plus one unit of principal; entry and reserve lose the same principal |
| `BorrowLaws.RepayIsOpen` | programs/aera/src/instructions/repay.rs:20-60 | a repayment fails only for a zero amount, a stale reserve, a missing entry or a width |
| `LiquidationLaws.LiquidationRepaysDebt` | programs/aera/src/instructions/liquidate.rs:70-165 | liquidation needs debt past the line, repays at most the debt, and takes the same principal from entry and reserve |
| `LiquidationLaws.LiquidationSeizesFairly` | programs/aera/src/instructions/liquidate.rs:74-165 | while shares are outstanding the seized ones redeem for at most the repayment and its floored bonus, and are divided without loss |
| `LiquidationLaws.SeizureWithinBonus` | programs/aera/src/risk.rs:260-281 | seized shares redeem for at most the repaid value and its floored bonus; `SeizureIsExact` is the other side |
| `LiquidationTerms.SeizureIsExact` | programs/aera/src/risk.rs:260-281 | a seizure is the most shares worth no more than the most units that value and floored bonus buy, one a unit without shares, and fails only without a price, in an undefined pool and for widths |
| `LiquidationTerms.LiquidationIsOpen` | programs/aera/src/instructions/liquidate.rs:31-165 | a liquidation goes through iff every condition on the accounts' fields holds: slots, prices set, past the line, both entries, something repaid, something seized and held, and widths; no price is refused for its health |
| `LiquidationTerms.LiquidationIsExact` | programs/aera/src/instructions/liquidate.rs:74-165 | repaid, principal, seized, the protocol's and the liquidator's shares are each given to the unit |
| `LiquidationTerms.LiquidationWrites` | programs/aera/src/instructions/liquidate.rs:134-165 | reserve and entries move by exactly those, nothing else does, and the position is stale |
| `LiquidationTerms.RepayLimitIsExact` | programs/aera/src/risk.rs:162-180 | the most that may be repaid is all of the debt below a health factor of 0.95, else the floored close factor of it, and fails only for widths |
| `LiquidationLaws.SplitIsFair` | programs/aera/src/risk.rs:219-254 | the split conserves, gives the protocol its share of the bonus to the unit, leaves the principal's part, and never fails |
| `LiquidationLaws.SplitIsMonotone` | programs/aera/src/risk.rs:219-254 | a larger share gives the protocol no less |
| `LiquidationLaws.LossIgnoresShare` | programs/aera/src/instructions/liquidate.rs:89-132 | the borrower's loss does not depend on the protocol share |
| `Recovery.BonusCoveredIff` | programs/aera/src/risk.rs:260-280 | no liquidation takes more off the line than off the debt, to one unit of value, iff the threshold after the haircut times one and the bonus is at most one |
| `Recovery.LiquidationRecovers` | programs/aera/src/instructions/liquidate.rs:74-165 | under such terms a full recompute finds the debt no further past the line, but for one unit of principal and one of value, for any lists of entries |
| `LiquidationEscape.LiquidationMayWorsen` | programs/aera/src/instructions/liquidate.rs:74-165 | a concrete liquidation under other accepted terms that leaves the debt further past the line than that |
| `Scenario.DebtorRecovers` | programs/aera/src/instructions/liquidate.rs:74-165 | a concrete liquidation that the recovery theorem applies to |
| `Scenario.DebtorPaysTheBonus` | programs/aera/src/instructions/liquidate.rs:74-165 | and that the seizure theorem applies to |
| `HandlerLaws.CloseFactorSplits` | programs/aera/src/risk.rs:162-179 | below a health factor of 0.95 all of the debt may be repaid, otherwise the floored close factor of it |
| `HandlerLaws.AbsorptionIsExact` | programs/aera/src/instructions/absorb_bad_debt.rs:114-169 | only a position without collateral is written off; its whole entry goes, from the books as well, and other entries stay |
| `Books.BookStepConserves` | programs/aera/src/instructions/supply.rs:34-82 | no operation on a reserve loses a token, unbalances vault or share supply, or touches what positions record |
| `Books.VaultIsNeverShort` | programs/aera/src/instructions/withdraw.rs:62-77 | a balanced vault never fails a payout of recorded liquidity |
| `Ledger.PositionStepConserves` | programs/aera/src/instructions/borrow.rs:155-200 | every instruction on a position moves reserve, vaults and entries by the same amounts, for one reserve only |
| `Ledger.RefreshKeepsRecords` | programs/aera/src/instructions/refresh_obligation.rs:24-129 | a refresh changes valuations, never what is recorded |
| `TokenFlows.SupplyMoves` | programs/aera/src/instructions/supply.rs:31-82 | a supply moves the supplier's tokens into the vault and mints the shares to the supplier, and changes no other balance |
| `TokenFlows.RedeemMoves` | programs/aera/src/instructions/withdraw.rs:24-80 | a withdrawal burns the holder's shares and pays that holder out of the vault, and changes no other balance |
| `TokenFlows.FeesMove` | programs/aera/src/instructions/admin/collect_fees.rs:15-37 | fees go from the vault to their owner and nowhere else |
| `TokenFlows.DrawMoves` | programs/aera/src/instructions/borrow.rs:181-199 | a borrow pays the borrower alone, out of the vault |
| `TokenFlows.PayBackMoves` | programs/aera/src/instructions/repay.rs:20-60 | a repayment moves the payer's tokens into the vault |
| `TokenFlows.SharesMove` | programs/aera/src/instructions/deposit_collateral.rs:43-60 | locked shares go from their owner into this position's vault alone, and released ones back |
| `TokenFlows.LiquidationMoves` | programs/aera/src/instructions/liquidate.rs:181-285 | a liquidation moves the repayment from the liquidator to the repaid vault, and out of the position's vault the liquidator's shares to the liquidator and the protocol's to the fee owner, in no other book |
| `LedgerLaws.LiquidationKeepsReconciled` | programs/aera/src/instructions/liquidate.rs:134-285 | a liquidation keeps the whole ledger reconciled, its two reserves the same or not |
| `LedgerLaws.RunKeepsReconciled` | programs/aera/src/state/obligation.rs:131-163 | every instruction keeps the joint invariant, in any order |
| `LedgerLaws.ReachableIsReconciled` | programs/aera/src/instructions/deposit_collateral.rs:35-41 | in every reachable state principal, vaults, share supply and share vaults agree with the positions' entries, which stay in form, and no token is made or lost |
| `LedgerLaws.RepayIsAlwaysOpen` | programs/aera/src/instructions/repay.rs:3-60 | in every reachable state a debt can be repaid: the books never underflow, and nothing but a zero amount, a stale reserve, a missing debt or a 64-bit width stops it |
| `LedgerLaws.ReachableLiquidationIsFair` | programs/aera/src/instructions/liquidate.rs:74-165 | in every reachable state an accepted liquidation is past the line, repays at most the debt, and takes held and outstanding shares worth at most the repayment and its bonus |
| `Solvency.StepKeepsPrice` | programs/aera/src/state/reserve.rs:488-510 | no instruction but bad-debt absorption lowers a share price or uncovers the fees |
| `Solvency.RunKeepsPrice` | programs/aera/src/state/reserve.rs:488-510 | nor does any run of them, while shares are outstanding |
| `Solvency.EmptyPoolForgetsItsPrice` | programs/aera/src/state/reserve.rs:499-503 | into an empty pool a supply keeps the price iff nothing was left in it |
| `PoolHistory.PriceMayFallAtAnEmptyPool` | programs/aera/src/state/reserve.rs:499-503 | a concrete reserve, followed from its creation, whose last share is redeemed and whose price falls at the next supply |
| `Solvency.DebtsCoverJointDebt` | programs/aera/src/state/obligation.rs:180-192 | debts rounded up one by one cover the joint debt, by less than one unit a borrower |
| `Solvency.ReachableIsSolvent` | programs/aera/src/state/reserve.rs:317-358 | in every reachable state all floored redemptions and the fees are within liquidity and debt, and the borrowers' debts cover the reserve's |
| `Churn.ChurnStepIsFair` | programs/aera/src/instructions/withdraw.rs:24-41 | a group's own supply or withdrawal never raises its wealth, an outsider's never lowers it |
| `Churn.ChurnNeverPays` | programs/aera/src/instructions/supply.rs:31-42 | no interleaving of a group's supplies and withdrawals leaves it richer |
| `Churn.ChurnNeverCosts` | programs/aera/src/instructions/supply.rs:31-42 | no interleaving of the others' lowers a group's claim |
| `MarketHistory.MarketOracle.Record` | programs/aera/src/instructions/refresh_market_oracle.rs:254-260 | the ring grows until full and then overwrites its oldest place |
| `MarketHistory.PushHolds` | programs/aera/src/instructions/refresh_market_oracle.rs:246-261 | the rotated ring stays the last min(n, 32) recordings |
| `MarketHistory.OrderedIsRecent` | programs/aera/src/state/market_oracle.rs:226-235 | sorting the ring gives those in order, and its last is the newest, wrapped around or not |
| `MarketHistory.SortIsStable` | programs/aera/src/state/market_oracle.rs:226-235 | whatever the readings, sorting orders them by time and keeps those of one time, all of them, in the order they had |
| `MarketHistory.MarketOracle.Twap` | programs/aera/src/state/market_oracle.rs:256-321 | the average of any readings is the floored weighted one, and in time the per-second one |
| `MarketHistory.WeighReadings` | programs/aera/src/state/market_oracle.rs:263-307 | for any readings the loop gives all prices by the seconds each stood, and fails iff the whole sum overflows |
| `MarketHistory.NewestWeighs` | programs/aera/src/state/market_oracle.rs:277-320 | there is always a weight to divide by, so the guard after the loop never fires |
| `MarketHistory.TimeWeightedIsAverage` | programs/aera/src/state/market_oracle.rs:246-321 | on readings in increasing time up to now, weighing is averaging the standing price over every second of the window |
| `MarketHistory.AverageBetween` | programs/aera/src/state/market_oracle.rs:256-321 | the average lies between the least and greatest price that stood in the window |
| `MarketRuns.BootstrapTakesElapsedTime` | programs/aera/src/state/market_oracle.rs:323-331 | bootstrapped iff enough recent recordings span enough time |
| `MarketBreaker.FallsAlwaysApply` | programs/aera/src/oracle/market_breaker.rs:141-181 | falls apply whatever the information, degraded information never raises, nothing overshoots |
| `MarketRuns.FallsReachTheReference` | programs/aera/src/instructions/refresh_market_oracle.rs:311-351 | a fall reaches the reference at once, recorded or not; a degraded reading and one too soon can only lower it |
| `MarketBreaker.PermitsExactlyWhenSound` | programs/aera/src/oracle/market_breaker.rs:105-222 | borrowing is permitted iff confirmed, recent, undegraded and within the limit |
| `MarketBreaker.RiseIsBoundedIff` | programs/aera/src/oracle/market_breaker.rs:63-69 | every average raises the price by less than the limit and one basis point iff the limit's product fits 128 bits or the price is too near the end |
| `MarketBreaker.RiseMayEscapeItsLimit` | programs/aera/src/oracle/market_breaker.rs:63-69 | a concrete price that doubles under a ten per cent limit |
| `MarketEscape.RiseEscapesItsLimit` | programs/aera/src/instructions/refresh_market_oracle.rs:89-351 | a concrete run of two recorded refreshes of new accounts in which it does |
| `MarketBreaker.CapRaisesIff` | programs/aera/src/oracle/market_breaker.rs:214-217 | a capped rise makes progress iff the limit is worth a unit and the price is not at the width's end |
| `MarketBreaker.ConvergesIff` | programs/aera/src/oracle/market_breaker.rs:194-222 | repeated evaluation reaches a higher average iff it is within the limit, or the limit is worth a unit and the average is within it at the ceiling of every cap |
| `MarketBreaker.ClimbsToAverage` | programs/aera/src/oracle/market_breaker.rs:194-222 | and then within as many evaluations as the gap has units |
| `MarketBreaker.RiseMayStandStill` | programs/aera/src/oracle/market_breaker.rs:194-222 | two concrete prices that never reach an average twice as high |
| `MarketBreaker.RiseNeverLowersIff` | programs/aera/src/oracle/market_breaker.rs:194-222 | a higher average does not lower the price iff it is within the limit or the price is at most the ceiling of every cap |
| `MarketBreaker.RiseMayHalveThePrice` | programs/aera/src/oracle/market_breaker.rs:214-217 | a concrete price that an average twice as high more than halves |
| `MarketEscape.RiseHalvesTheReference` | programs/aera/src/instructions/refresh_market_oracle.rs:89-351 | a concrete run of two recorded refreshes of new accounts in which it does |
| `MarketRefresh.PoolPriceIsExact` | programs/aera/src/instructions/refresh_market_oracle.rs:465-510 | cancelling the decimals first gives the floor of the full formula |
| `MarketRefresh.PoolsAreSymmetric` | programs/aera/src/instructions/refresh_market_oracle.rs:157-208 | which pool is named first makes no difference to the reading that `ReadingIsExact` gives |
| `MarketReading.ReadingIsExact` | programs/aera/src/instructions/refresh_market_oracle.rs:153-208 | two pools read as the lower price and the saturated depth of both; shallow iff either is, in disagreement iff twice their gap is a basis point over the limit of their sum; and it fails only for an empty vault, two zero prices and widths |
| `MarketReading.VerdictIsExact` | programs/aera/src/oracle/market_breaker.rs:82-222 | the breaker's price, state and movement as functions of price, average, season, age and degradation |
| `MarketReading.RefreshMarketIsOpen` | programs/aera/src/instructions/refresh_market_oracle.rs:89-263 | a market refresh goes through iff the account is a market oracle's, the pools can be read, the clock has not run back and the window's prices add up within 128 bits |
| `MarketReading.RefreshMarketWrites` | programs/aera/src/instructions/refresh_market_oracle.rs:235-351 | the observation joins the ring iff due, the average is the floor over the window, and price, state and movement follow from them |
| `MarketReading.RefreshPermitsIff` | programs/aera/src/instructions/refresh_market_oracle.rs:153-351 | it permits new risk iff a price was set, enough recordings span enough time, the newest before it is recent, neither pool is shallow, they agree, and the average did not rise too fast |
| `MarketRefresh.RecordAndAverage` | programs/aera/src/instructions/refresh_market_oracle.rs:235-263 | recording and averaging equal the specified step, or are rolled back |
| `MarketRefresh.HandleRefreshMarketOracle` | programs/aera/src/instructions/refresh_market_oracle.rs:89-351 | ring and oracle after a refresh equal the specified step, which `RefreshMarketWrites` gives, or neither changes |
| `MarketRuns.RunRefinesHistory` | programs/aera/src/instructions/refresh_market_oracle.rs:235-261 | after any run of a new account the sorted ring is the last min(n, 32) recordings in strictly increasing order |
| `MarketRuns.AppendsAreRationed` | programs/aera/src/instructions/refresh_market_oracle.rs:241-246 | T seconds admit at most T / spacing + 1 recordings |
| `MarketRuns.PokeRise` | programs/aera/src/instructions/refresh_market_oracle.rs:330-351 | a recording raises the reference by less than the limit and a basis point, any other refresh not at all |
| `MarketRuns.RunRise` | programs/aera/src/oracle/market_breaker.rs:141-222 | from a set reference, with all prices in range, k recordings raise it by less than the k-th power and it stays set |
| `MarketRuns.RiseOverTime` | programs/aera/src/instructions/refresh_market_oracle.rs:315-333 | so T seconds raise it by less than the power T / spacing + 1, whatever the calling pattern |
| `MarketRuns.StaysSetIff` | programs/aera/src/instructions/refresh_market_oracle.rs:296-351 | a successful refresh leaves a set reference set iff the average it judged is positive |
| `MarketRuns.PokeStaysInRange` | programs/aera/src/instructions/refresh_market_oracle.rs:315-351 | reference, ring and pool prices in range keep reference and ring in range |
| `MarketEscape.ZeroPriceEscapesTheBound` | programs/aera/src/instructions/refresh_market_oracle.rs:89-351 | a concrete run of three recorded refreshes of new accounts: one sets the reference, a zero price unsets it, and the next average is past the bound |
| `MarketEscape.PriceMayBeZero` | programs/aera/src/instructions/refresh_market_oracle.rs:492-509 | concrete reserves whose price floors to zero |
| `RateBreaker.AcceptedMoveIsBounded` | programs/aera/src/oracle/breaker.rs:331-425 | an acceptance stays strictly inside the emergency band and within its direction's allowance times the clamped epochs |
| `RateBreaker.AcceptsIff` | programs/aera/src/oracle/breaker.rs:331-425 | an observation is accepted iff its move is strictly inside the emergency band and inside the clamped allowance of its direction |
| `RateBreaker.BootstrapAcceptsIff` | programs/aera/src/oracle/breaker.rs:284-323 | a first observation is taken iff the source's previous epoch explains it, and permits nothing by itself |
| `RateReading.VerdictIsExact` | programs/aera/src/oracle/breaker.rs:331-425 | against a reference, acceptance, state and movement follow from the two rates, the epochs between them and the configuration |
| `RateReading.FirstRefreshIsExact` | programs/aera/src/oracle/breaker.rs:284-323 | from the fields of the pool account, a first refresh is taken and waits iff there is no previous epoch, it was worth nothing, or the rate moved from it by no more than an epoch allows; else it is refused as an emergency |
| `RateReading.LaterRefreshIsExact` | programs/aera/src/instructions/refresh_oracle.rs:95-159 | from those fields, a later refresh writes exactly this reference, state and movement |
| `RateReading.RightAccountsIff` | programs/aera/src/instructions/refresh_oracle.rs:57-83 | a refresh is handed the right accounts iff it needs none, or the first of two is the configured source under its program, read-only and alive |
| `RateReading.UnobservableFreezes` | programs/aera/src/instructions/refresh_oracle.rs:57-93 | handed a pool account in form that is not observable, a refresh records an emergency and nothing else |
| `OracleAccount.OracleState.Record` | programs/aera/src/state/oracle.rs:177-198 | diagnostics follow the observation, the reference only an accepted one |
| `OracleAccount.OracleState.Refresh` | programs/aera/src/instructions/refresh_oracle.rs:34-159 | the account after a refresh equals the specified step, which `FirstRefreshIsExact` and `LaterRefreshIsExact` give; a wrong account fails, a bad read is an emergency that does not |
| `OracleAccount.OracleState.Reset` | programs/aera/src/instructions/refresh_oracle.rs:182-240 | the account after a reset equals the specified step; a wrong account and a bad read both fail |
| `OracleAccount.OracleState.Configure` | programs/aera/src/instructions/admin/init_oracle.rs:151-219 | the account after a reconfiguration equals the specified step |
| `OracleRuns.RunStaysInBand` | programs/aera/src/oracle/breaker.rs:348-425 | n acceptances keep the rate strictly within the n-th power of the emergency band, whatever was refused between |
| `OracleRuns.ReachableIsAnchored` | programs/aera/src/instructions/refresh_oracle.rs:95-148 | from a first configuration on, in every reachable state of a unit or stake-pool oracle, permitting new risk means a set reference equal to the last reading |
| `OracleRuns.LaterEpochConfirms` | programs/aera/src/oracle/breaker.rs:383-400 | stepping straight out of bootstrapping takes a strictly later source epoch |
| `OracleRuns.RefreshFailsIff` | programs/aera/src/instructions/refresh_oracle.rs:13-25 | a refresh fails iff it is handed the wrong source account or reads a movement too large to be measured; all else is recorded |
| `OracleRuns.ForeignProgramFreezes` | programs/aera/src/instructions/refresh_oracle.rs:22-25 | handed another account for the program's, a refresh records an emergency |
| `BootstrapEscape.ImmeasurableReadFails` | programs/aera/src/instructions/refresh_oracle.rs:13-25 | a concrete account that reads and whose refresh fails |
| `OracleRuns.SameEpochEscapesIff` | programs/aera/src/state/oracle.rs:128-131 | within one epoch a bootstrapping oracle comes to permit new risk iff the last refresh was accepted and an earlier one was not |
| `BootstrapEscape.EscapesWithinOneEpoch` | programs/aera/src/instructions/refresh_oracle.rs:95-148 | a concrete run of a newly configured account that does, by a refresh handed the wrong account for the program's |
| `OracleRuns.RefusalHoldsLastPrice` | programs/aera/src/oracle/breaker.rs:122-169 | a refusal stops borrowing and withdrawal of collateral and leaves liquidation on the last trusted price |
| `OracleRuns.NewSourceStartsOver` | programs/aera/src/instructions/admin/init_oracle.rs:166-216 | a change of source clears the reference, and the first reading permits no new risk |
| `OracleRuns.ReconfiguringKeepsTheBand` | programs/aera/src/instructions/admin/init_oracle.rs:151-219 | with the same source a reconfiguration permits nothing, and the next refresh moves the reference inside the new band or not at all |
| `OracleRuns.ResetAnchorsToSource` | programs/aera/src/instructions/refresh_oracle.rs:229-239 | a reset succeeds iff the source reads, and anchors to what it says inside the absolute band |
| `StakePool.ParseStakePool` | programs/aera/src/oracle/native_bcook.rs:196-260 | the parser with its one moving offset computes the specified parse |
| `StakePool.FeeBpsFit` | programs/aera/src/oracle/native_bcook.rs:110-127 | a proper fee in basis points is at most the whole and is never understated |
| `StakePool.WalkFollowsParts` | programs/aera/src/oracle/native_bcook.rs:129-152 | walking a written account stops at the start of every field, for every tag combination |
| `StakePool.ParseUndoesSerialize` | programs/aera/src/oracle/native_bcook.rs:196-260 | parsing returns what was written, fees rounded up, and fails iff a withdrawal fee exceeds the whole |
| `StakePool.ParsesExactlyAccounts` | programs/aera/src/oracle/native_bcook.rs:133-152 | the parser accepts exactly the bytes of accounts with proper fees: any other tag, type or length fails |
| `StakePool.LongestTailEndsAtTheEnd` | programs/aera/src/oracle/native_bcook.rs:52-75 | every tag combination fits, and reaches byte 611 iff every optional field is there |
| `PinnedProgram.ReadsExactlyHeaders` | programs/aera/src/oracle/deployment.rs:92-155 | a deployment is read iff it is the loader's account for the program and begins with that deployment's header |
| `PinnedProgram.PinOnlyTightens` | programs/aera/src/oracle/deployment.rs:157-187 | accepted deployments never lead to a redeploy or a new authority |
| `NativeSource.ObservedIsBacked` | programs/aera/src/oracle/native_bcook.rs:264-412 | an observation comes from the configured account of the configured program under the pinned deployment, of the priced asset; its rate, the previous epoch's and the net of the higher fee are the account's to the unit, in the band, and never credit more than a redeemer keeps |
| `NativeSource.ObservesIff` | programs/aera/src/oracle/native_bcook.rs:332-412 | an account in form is observed iff it, its program and their deployment are the configured ones, asset and fee fit, and its rate is in the band and worth something net |

## Left out

- Account plumbing: address derivation, signer seeds, token-program calls, events, rent, and checks that an account is the one named. A token transfer is one balance move.
- Who may sign: the runs of `Ledger` let anyone act on any position, which includes the program's runs.
- In the runs, pause switches and the per-wallet supply cap, and everywhere admin rotation and timelocks: further refusals, which the runs include by doing nothing.
- Configuration changes other than to a validated configuration, and creating reserves and positions mid-run: an unused one is as good as one not yet created.
- Shares sent straight into a position's vault: the model has no such move, so vault and record are equal.
- The supply rate, which only reports.
- Timestamps are unbounded integers; saturation at the ends of 64 bits is not modelled.
- Pool byte offsets and identity checks of the market oracle: flat equality checks. The derivation of a program's data address is a hash, so the address is a parameter of a reading.
- Prices enter `Ledger` as arbitrary quotes, so its results hold for any oracle; the oracle modules say which quotes their oracles give.
- AccrualIsExact: is for a configuration that `validate` accepts, as are the rate laws it builds on.
- LiquidationIsOpen: is for a close factor of at most the whole, which `validate` sees to.
- SplittingAccrual: the condition for losing nothing goes one way, because compounding may make up for a lost unit on some schedules and not on others.
- BorrowStaysNearLimit: is about a recomputation that succeeds; `BorrowRecomputesIff` says when it does.
- DrawProjectsIff: is for a unit worth at least one unit of value. Below that the value's own ceiling may hide an extra unit owed, and only the direction in `BorrowStaysNearLimit` is stated.
- FirstBorrowStaysProjectedIff: is for such a unit as well, and about a recomputation that succeeds.
- SeizureWithinBonus: is stated while collateral shares are outstanding; without any the program mints one for one and prices them by the whole pool.
- LiquidationSeizesFairly: the same; `ReachableLiquidationIsFair` needs no such condition.
- LiquidationRecovers: is stated while collateral shares are outstanding, which every reachable state has them be. Its recomputation succeeds whenever the position holds no shares of the repaid reserve; otherwise the richer pool may value them past their width.
- HandleRefreshMarketOracle: takes the vault balances of the two pools; that the program behind them is the pinned deployment and that the accounts are the configured pools is not part of this model.
- RunRise: is for one configuration and for prices whose product with the limit fits 128 bits, which can be checked before the run.
- RiseOverTime: the same.
- HandleLiquidate: takes the protocol share as a parameter, zero where the reserve has no risk configuration.
- HandleBorrow: takes the reserve's per-wallet borrow cap as a parameter, zero where it is unlimited.
- HandleSupply: takes the reserve's per-wallet supply cap as a parameter, zero where it is unlimited.
