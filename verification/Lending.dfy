/** The instructions that touch a borrower: borrow, repay, collateral in and out,
liquidation and the bad-debt write-off. Each is first a function from the accounts before
to the accounts after, then the handler that updates the account objects in place.

A handler computes and checks everything before it writes. The program interleaves the
two, and relies on the runtime to discard the writes of an instruction that fails. */
module Lending {
  import opened Wrappers
  import opened FixedPoint
  import opened Debts
  import opened Reserves
  import opened PoolSteps
  import opened Health
  import opened Obligations

  datatype Supplying = Supplying(reserve: ReserveState, shares: u64, supplied: u64)
  datatype Borrowing = Borrowing(obligation: ObligationState, reserve: ReserveState, principal: u128, paidOut: u64)
  datatype Repayment = Repayment(obligation: ObligationState, reserve: ReserveState, principal: u128, paid: u64)
  datatype Absorption = Absorption(obligation: ObligationState, reserve: ReserveState, principal: u128, owed: u64)

  /** Who gets what in a liquidation: `seized` leaves the borrower and is divided. */
  datatype Liquidation = Liquidation(
    obligation: ObligationState, reserve: ReserveState, principal: u128, repaid: u64,
    seized: u64, toProtocol: u64, toLiquidator: u64)

  // ---------- pause switches ----------

  datatype Switches = Switches(paused: bool, borrowPaused: bool)
  {
    function RequireNotPaused(): Result<()> { Need(!paused, ProtocolPaused) }

    function RequireBorrowEnabled(): Result<()> {
      var _ :- RequireNotPaused();
      Need(!borrowPaused, BorrowPaused)
    }
  }

  /** A step behind a switch; a zero amount is refused before the switch is looked at. */
  function Behind<T>(switch: Result<()>, amount: u64, step: Result<T>): Result<T> {
    var _ :- Need(amount > 0, ZeroAmount);
    var _ :- switch;
    step
  }

  // ---------- borrow ----------

  function CheckBorrowCap(r: ReserveState, adding: u64): Result<()> {
    if r.config.borrowCap == 0 then Ok(()) else
    var debt :- r.CurrentBorrowedAmount();
    Need(debt + adding <= r.config.borrowCap, BorrowCapExceeded)
  }

  /** Live debt of the entry for `key`, zero without one. */
  function AlreadyOwed(o: ObligationState, key: Key, index: u128): Result<u64> {
    var i := BorrowIndex(o.borrows, key);
    if i < |o.borrows| then DebtAt(o.borrows[i].borrowedPrincipal, index) else Ok(0)
  }

  /** Everything that can refuse a borrow before money moves. `walletCap` is the reserve's
      per-wallet limit; zero is unlimited. */
  function AdmitBorrow(o: ObligationState, key: Key, r: ReserveState, oracle: Quote, walletCap: u64, amount: u64,
                       slot: u64)
    : Result<()>
  {
    var _ :- Need(amount > 0, ZeroAmount);
    var _ :- o.RequireRefreshed(slot);
    var _ :- r.RequireAccrued(slot);
    var _ :- Need(r.config.borrowEnabled, BorrowNotEnabled);
    var _ :- Need(!o.pricesStressed, OracleBorrowFrozen);
    var price :- oracle.PriceFor(Borrow, slot);
    var value :- MarketValue(amount, r.liquidityDecimals, price, Up);
    var projected :- ToU128(o.borrowedValue + value);
    var _ :- Need(projected <= o.allowedBorrowValue, BorrowTooLarge);
    var _ :- CheckBorrowCap(r, amount);
    var owed :- AlreadyOwed(o, key, r.borrowIndex);
    Need(walletCap == 0 || owed + amount <= walletCap, PerWalletBorrowCapExceeded)
  }

  function BorrowStep(o: ObligationState, key: Key, r: ReserveState, oracle: Quote, walletCap: u64, amount: u64,
                      slot: u64)
    : Result<Borrowing>
  {
    var _ :- AdmitBorrow(o, key, r, oracle, walletCap, amount, slot);
    var lent :- Lend(r, amount);
    var borrows :- PutPrincipal(o.borrows, key, lent.principal);
    Ok(Borrowing(o.(borrows := borrows, stale := true), lent.reserve, lent.principal, lent.paidOut))
  }

  lemma LentFields(r: ReserveState, amount: u64)
    requires Lend(r, amount).Ok?
    ensures var l := Lend(r, amount).value;
      && l.paidOut <= r.availableLiquidity
      && l.reserve == r.(borrowedPrincipal := l.reserve.borrowedPrincipal, accruedFees := l.reserve.accruedFees,
                         availableLiquidity := r.availableLiquidity - l.paidOut)
  {
  }

  method HandleBorrow(switches: Switches, obligation: Obligation, key: Key, reserve: Reserve, oracle: Quote,
                      walletCap: u64, amount: u64, slot: u64)
    returns (outcome: Result<u64>)
    modifies obligation, reserve
    ensures match Behind(switches.RequireBorrowEnabled(), amount,
                         BorrowStep(old(obligation.State()), key, old(reserve.State()), oracle, walletCap, amount,
                                    slot))
      case Ok(b) => outcome == Ok(b.paidOut) && obligation.State() == b.obligation && reserve.State() == b.reserve
      case Err(e) => outcome == Err(e) && obligation.State() == old(obligation.State())
                     && reserve.State() == old(reserve.State())
  {
    hide AdmitBorrow, PutPrincipal;
    var _ :- Need(amount > 0, ZeroAmount);
    var _ :- switches.RequireBorrowEnabled();
    var _ :- AdmitBorrow(obligation.State(), key, reserve.State(), oracle, walletCap, amount, slot);
    var lent :- Lend(reserve.State(), amount);
    LentFields(reserve.State(), amount);
    hide Lend;
    var _ :- obligation.AddPrincipal(key, lent.principal);
    obligation.stale := true;
    reserve.borrowedPrincipal := lent.reserve.borrowedPrincipal;
    reserve.availableLiquidity := reserve.availableLiquidity - lent.paidOut;
    reserve.accruedFees := lent.reserve.accruedFees;
    return Ok(lent.paidOut);
  }

  // ---------- repay ----------

  function RepayStep(o: ObligationState, key: Key, r: ReserveState, amount: u64, slot: u64): Result<Repayment> {
    var _ :- Need(amount > 0, ZeroAmount);
    var _ :- r.RequireAccrued(slot);
    var i :- o.FindBorrow(key);
    var principal := o.borrows[i].borrowedPrincipal;
    var debt :- DebtAt(principal, r.borrowIndex);
    var paid := Min(amount, debt);
    var _ :- Need(paid > 0, ZeroAmount);
    var received :- Receive(r, principal, paid);
    Ok(Repayment(o.(borrows := TakePrincipal(o.borrows, i, received.principal), stale := true),
                 received.reserve, received.principal, paid))
  }

  /** Credits a payment to the reserve and tells how much principal it bought. */
  method ReceiveInto(reserve: Reserve, principal: u128, amount: u64) returns (outcome: Result<u128>)
    modifies reserve
    ensures match Receive(old(reserve.State()), principal, amount)
      case Ok(d) => outcome == Ok(d.principal) && d.principal <= principal && reserve.State() == d.reserve
      case Err(e) => outcome == Err(e) && reserve.State() == old(reserve.State())
  {
    var removed :- PrincipalRemoved(amount, principal, reserve.borrowIndex);
    var rest :- CheckedSub(reserve.borrowedPrincipal, removed);
    var available :- ToU64(reserve.availableLiquidity + amount);
    reserve.borrowedPrincipal, reserve.availableLiquidity := rest, available;
    return Ok(removed);
  }

  method HandleRepay(obligation: Obligation, key: Key, reserve: Reserve, amount: u64, slot: u64)
    returns (outcome: Result<u64>)
    modifies obligation, reserve
    ensures match RepayStep(old(obligation.State()), key, old(reserve.State()), amount, slot)
      case Ok(p) => outcome == Ok(p.paid) && obligation.State() == p.obligation && reserve.State() == p.reserve
      case Err(e) => outcome == Err(e) && obligation.State() == old(obligation.State())
                     && reserve.State() == old(reserve.State())
  {
    var _ :- Need(amount > 0, ZeroAmount);
    var _ :- reserve.State().RequireAccrued(slot);
    var i :- obligation.State().FindBorrow(key);
    var principal := obligation.borrows[i].borrowedPrincipal;
    var debt :- DebtAt(principal, reserve.borrowIndex);
    var paid := Min(amount, debt);
    var _ :- Need(paid > 0, ZeroAmount);
    var received := ReceiveInto(reserve, principal, paid);
    var removed :- received;
    obligation.ReleasePrincipal(i, removed);
    obligation.stale := true;
    return Ok(paid);
  }

  // ---------- collateral in and out ----------

  /** An isolated collateral may not join another one. */
  function CheckIsolation(o: ObligationState, key: Key, r: ReserveState): Result<()> {
    Need(!(r.config.isolated && exists d :: d in o.deposits && d.reserve != key && d.depositedShares > 0),
         CollateralNotEnabled)
  }

  function DepositCollateralStep(o: ObligationState, key: Key, r: ReserveState, shares: u64): Result<ObligationState> {
    var _ :- Need(shares > 0, ZeroAmount);
    var _ :- Need(r.config.collateralEnabled, CollateralNotEnabled);
    var _ :- CheckIsolation(o, key, r);
    var deposits :- PutCollateral(o.deposits, key, shares);
    Ok(o.(deposits := deposits, stale := true))
  }

  method HandleDepositCollateral(switches: Switches, obligation: Obligation, key: Key, reserve: Reserve, shares: u64)
    returns (outcome: Result<()>)
    modifies obligation
    ensures match Behind(switches.RequireNotPaused(), shares,
                         DepositCollateralStep(old(obligation.State()), key, reserve.State(), shares))
      case Ok(o) => outcome.Ok? && obligation.State() == o
      case Err(e) => outcome == Err(e) && obligation.State() == old(obligation.State())
  {
    var _ :- Need(shares > 0, ZeroAmount);
    var _ :- switches.RequireNotPaused();
    var _ :- Need(reserve.config.collateralEnabled, CollateralNotEnabled);
    var _ :- CheckIsolation(obligation.State(), key, reserve.State());
    var _ :- obligation.AddShares(key, shares);
    obligation.stale := true;
    return Ok(());
  }

  /** Borrow power that leaves with `shares`, every step rounded up. */
  function RemovedAllowed(shares: u64, r: ReserveState, price: u128): Result<u128> {
    var liquidity :- r.SharesToLiquidity(shares, Up);
    var face :- MarketValue(liquidity, r.liquidityDecimals, price, Up);
    var keep :- CheckedSub(BPS, r.config.collateralHaircutBps);
    var effective :- MulDivCeil(face, keep, BPS);
    MulDivCeil(effective, r.config.loanToValueBps, BPS)
  }

  function WithdrawCollateralStep(o: ObligationState, key: Key, r: ReserveState, oracle: Quote, shares: u64, slot: u64)
    : Result<ObligationState>
  {
    var _ :- Need(shares > 0, ZeroAmount);
    var _ :- o.RequireRefreshed(slot);
    var _ :- r.RequireAccrued(slot);
    var price :- oracle.PriceFor(WithdrawCollateral, slot);
    var i :- o.FindCollateral(key);
    var _ :- Need(shares <= o.deposits[i].depositedShares, WithdrawTooLarge);
    var removed :- RemovedAllowed(shares, r, price);
    var _ :- Need(o.borrowedValue <= SaturatingSub(o.allowedBorrowValue, removed), WithdrawTooLarge);
    Ok(o.(deposits := TakeCollateral(o.deposits, i, shares), stale := true))
  }

  method HandleWithdrawCollateral(switches: Switches, obligation: Obligation, key: Key, reserve: Reserve,
                                  oracle: Quote, shares: u64, slot: u64)
    returns (outcome: Result<()>)
    modifies obligation
    ensures match Behind(switches.RequireNotPaused(), shares,
                         WithdrawCollateralStep(old(obligation.State()), key, reserve.State(), oracle, shares, slot))
      case Ok(o) => outcome.Ok? && obligation.State() == o
      case Err(e) => outcome == Err(e) && obligation.State() == old(obligation.State())
  {
    var _ :- Need(shares > 0, ZeroAmount);
    var _ :- switches.RequireNotPaused();
    var _ :- obligation.State().RequireRefreshed(slot);
    var _ :- reserve.State().RequireAccrued(slot);
    var price :- oracle.PriceFor(WithdrawCollateral, slot);
    var i :- obligation.State().FindCollateral(key);
    var _ :- Need(shares <= obligation.deposits[i].depositedShares, WithdrawTooLarge);
    var removed :- RemovedAllowed(shares, reserve.State(), price);
    var newAllowed := SaturatingSub(obligation.allowedBorrowValue, removed);
    var _ :- Need(obligation.borrowedValue <= newAllowed, WithdrawTooLarge);
    obligation.ReleaseShares(i, shares);
    obligation.stale := true;
    return Ok(());
  }

  // ---------- liquidation ----------

  /** Half of a debt, say, until the position is nearly insolvent; then all of it. */
  function EffectiveCloseFactor(o: ObligationState, r: ReserveState): Result<u16> {
    var hf :- o.HealthFactorBps();
    match hf
    case Some(h) => Ok(if h < FULL_CLOSE_HEALTH_FACTOR_BPS then BPS else r.config.closeFactorBps)
    case None => Ok(r.config.closeFactorBps)
  }

  function MaxRepay(o: ObligationState, i: nat, r: ReserveState): Result<u64>
    requires i < |o.borrows|
  {
    var debt :- DebtAt(o.borrows[i].borrowedPrincipal, r.borrowIndex);
    var factor :- EffectiveCloseFactor(o, r);
    var capped :- MulDivFloor(debt, factor, BPS);
    ToU64(capped)
  }

  /** Collateral shares for repaying `repayValue`: the bonus, the amount and the shares each
      rounded down. */
  function SeizeShares(repayValue: u128, c: ReserveState, price: u128): Result<u64> {
    var bonus :- MulDivFloor(repayValue, c.config.liquidationBonusBps, BPS);
    var value :- ToU128(repayValue + bonus);
    var liquidity :- ValueToAmount(value, c.liquidityDecimals, price, Down);
    c.LiquidityToShares(liquidity, Down)
  }

  /** The protocol's cut of the seizure, carved from the bonus; the liquidator takes the rest. */
  function SplitSeized(seized: u64, bonusBps: u16, shareBps: u16): Result<(u64, u64)> {
    var share := Min(shareBps, bonusBps);
    if share == 0 then Ok((0, seized)) else
    var cut :- MulDivFloor(seized, share, BPS + bonusBps);
    var protocol :- ToU64(cut);
    var liquidator :- CheckedSub(seized, protocol);
    Ok((protocol, liquidator))
  }

  /** The entries a liquidation acts on, what it repays and what it seizes. */
  datatype Plan = Plan(borrow: nat, deposit: nat, repaid: u64, seized: u64)

  function PlanLiquidation(o: ObligationState, repayKey: Key, r: ReserveState, collateralKey: Key, c: ReserveState,
                           repayOracle: Quote, collateralOracle: Quote, amount: u64, slot: u64)
    : (plan: Result<Plan>)
    ensures plan.Ok? ==>
      && plan.value.borrow < |o.borrows| && o.borrows[plan.value.borrow].reserve == repayKey
      && plan.value.deposit < |o.deposits| && o.deposits[plan.value.deposit].reserve == collateralKey
      && 0 < plan.value.seized <= o.deposits[plan.value.deposit].depositedShares
      && 0 < plan.value.repaid <= amount
  {
    var _ :- Need(amount > 0, ZeroAmount);
    var _ :- o.RequireRefreshed(slot);
    var _ :- r.RequireAccrued(slot);
    var _ :- c.RequireAccrued(slot);
    var _ :- Need(o.IsLiquidatable(), ObligationHealthy);
    var repayPrice :- repayOracle.PriceFor(Liquidate, slot);
    var collateralPrice :- collateralOracle.PriceFor(Liquidate, slot);
    var i :- o.FindBorrow(repayKey);
    var j :- o.FindCollateral(collateralKey);
    var maxRepay :- MaxRepay(o, i, r);
    var repaid := Min(amount, maxRepay);
    var _ :- Need(repaid > 0, ZeroAmount);
    var value :- MarketValue(repaid, r.liquidityDecimals, repayPrice, Down);
    var seized :- SeizeShares(value, c, collateralPrice);
    var _ :- Need(seized > 0, ZeroAmount);
    var _ :- Need(seized <= o.deposits[j].depositedShares, LiquidationTooLarge);
    Ok(Plan(i, j, repaid, seized))
  }

  function LiquidateStep(o: ObligationState, repayKey: Key, r: ReserveState, collateralKey: Key, c: ReserveState,
                         repayOracle: Quote, collateralOracle: Quote, shareBps: u16, amount: u64, slot: u64)
    : Result<Liquidation>
  {
    var plan :- PlanLiquidation(o, repayKey, r, collateralKey, c, repayOracle, collateralOracle, amount, slot);
    var split :- SplitSeized(plan.seized, c.config.liquidationBonusBps, shareBps);
    var received :- Receive(r, o.borrows[plan.borrow].borrowedPrincipal, plan.repaid);
    Ok(Liquidation(o.(borrows := TakePrincipal(o.borrows, plan.borrow, received.principal),
                      deposits := TakeCollateral(o.deposits, plan.deposit, plan.seized), stale := true),
                   received.reserve, received.principal, plan.repaid, plan.seized, split.0, split.1))
  }

  /** `shareBps` is the collateral reserve's protocol share, zero without a risk config. */
  method HandleLiquidate(obligation: Obligation, repayKey: Key, repayReserve: Reserve, collateralKey: Key,
                         collateralReserve: Reserve, repayOracle: Quote, collateralOracle: Quote, shareBps: u16,
                         amount: u64, slot: u64)
    returns (outcome: Result<(u64, u64, u64)>)
    modifies obligation, repayReserve
    ensures match LiquidateStep(old(obligation.State()), repayKey, old(repayReserve.State()), collateralKey,
                                old(collateralReserve.State()), repayOracle, collateralOracle, shareBps, amount, slot)
      case Ok(l) => outcome == Ok((l.repaid, l.toProtocol, l.toLiquidator)) && obligation.State() == l.obligation
                    && repayReserve.State() == l.reserve
      case Err(e) => outcome == Err(e) && obligation.State() == old(obligation.State())
                     && repayReserve.State() == old(repayReserve.State())
  {
    var plan :- PlanLiquidation(obligation.State(), repayKey, repayReserve.State(), collateralKey,
                                collateralReserve.State(), repayOracle, collateralOracle, amount, slot);
    var Plan(i, j, repaid, seized) := plan;
    var principal := obligation.borrows[i].borrowedPrincipal;
    var split :- SplitSeized(seized, collateralReserve.config.liquidationBonusBps, shareBps);
    var received := ReceiveInto(repayReserve, principal, repaid);
    var removed :- received;
    obligation.ReleasePrincipal(i, removed);
    obligation.ReleaseShares(j, seized);
    obligation.stale := true;
    return Ok((repaid, split.0, split.1));
  }

  // ---------- bad debt ----------

  /** All shares the position holds, in any reserve. */
  function AllShares(ds: seq<Collateral>): nat {
    if ds == [] then 0 else ds[0].depositedShares + AllShares(ds[1..])
  }

  function AbsorbStep(o: ObligationState, key: Key, r: ReserveState, slot: u64): Result<Absorption> {
    var _ :- o.RequireRefreshed(slot);
    var _ :- r.RequireAccrued(slot);
    var _ :- Need(AllShares(o.deposits) == 0, ObligationHasCollateral);
    var i :- o.FindBorrow(key);
    var principal := o.borrows[i].borrowedPrincipal;
    var _ :- Need(principal > 0, NoBadDebt);
    var owed :- MulDivCeil(principal, r.borrowIndex, SCALE);
    var owed64 :- ToU64(owed);
    var reserve :- WriteOff(r, principal);
    Ok(Absorption(o.(borrows := DropAt(o.borrows, i), stale := true), reserve, principal, owed64))
  }

  method HandleAbsorbBadDebt(obligation: Obligation, key: Key, reserve: Reserve, slot: u64)
    returns (outcome: Result<u64>)
    modifies obligation, reserve
    ensures match AbsorbStep(old(obligation.State()), key, old(reserve.State()), slot)
      case Ok(a) => outcome == Ok(a.owed) && obligation.State() == a.obligation && reserve.State() == a.reserve
      case Err(e) => outcome == Err(e) && obligation.State() == old(obligation.State())
                     && reserve.State() == old(reserve.State())
  {
    var _ :- obligation.State().RequireRefreshed(slot);
    var _ :- reserve.State().RequireAccrued(slot);
    var _ :- Need(AllShares(obligation.deposits) == 0, ObligationHasCollateral);
    var i :- obligation.State().FindBorrow(key);
    var principal := obligation.borrows[i].borrowedPrincipal;
    var _ :- Need(principal > 0, NoBadDebt);
    var owed :- MulDivCeil(principal, reserve.borrowIndex, SCALE);
    var owed64 :- ToU64(owed);
    var rest :- CheckedSub(reserve.borrowedPrincipal, principal);
    reserve.borrowedPrincipal := rest;
    obligation.borrows := DropAt(obligation.borrows, i);
    obligation.stale := true;
    return Ok(owed64);
  }

  // ---------- supplier instructions on the reserve account ----------

  /** A wallet's account at a reserve: the net liquidity it supplied, which its cap counts. */
  class SupplyPosition {
    var suppliedLiquidity: u64
  }

  /** Zero is unlimited. */
  function CheckWalletCap(cap: u64, supplied: u64, adding: u64): Result<()> {
    if cap == 0 then Ok(()) else
    var after :- ToU64(supplied + adding);
    Need(after <= cap, PerWalletCapExceeded)
  }

  /** A supply by a wallet that has supplied `supplied` so far, and what it has then. */
  function SupplyStep(r: ReserveState, supplied: u64, walletCap: u64, amount: u64, slot: u64): Result<Supplying> {
    var _ :- r.RequireAccrued(slot);
    var _ :- CheckSupplyCap(r, amount);
    var _ :- CheckWalletCap(walletCap, supplied, amount);
    var s :- Supply(r, amount, slot);
    var after :- ToU64(supplied + amount);
    Ok(Supplying(s.reserve, s.shares, after))
  }

  method HandleSupply(switches: Switches, reserve: Reserve, position: SupplyPosition, walletCap: u64, amount: u64,
                      slot: u64)
    returns (outcome: Result<u64>)
    modifies reserve, position
    ensures match Behind(switches.RequireNotPaused(), amount,
                         SupplyStep(old(reserve.State()), old(position.suppliedLiquidity), walletCap, amount, slot))
      case Ok(s) => outcome == Ok(s.shares) && reserve.State() == s.reserve && position.suppliedLiquidity == s.supplied
      case Err(e) => outcome == Err(e) && reserve.State() == old(reserve.State())
                     && position.suppliedLiquidity == old(position.suppliedLiquidity)
  {
    var _ :- Need(amount > 0, ZeroAmount);
    var _ :- switches.RequireNotPaused();
    var _ :- reserve.State().RequireAccrued(slot);
    var _ :- CheckSupplyCap(reserve.State(), amount);
    var _ :- CheckWalletCap(walletCap, position.suppliedLiquidity, amount);
    var shares :- reserve.State().LiquidityToShares(amount, Down);
    var _ :- Need(shares > 0, DepositTooSmall);
    var available :- ToU64(reserve.availableLiquidity + amount);
    var supply :- ToU64(reserve.shareMintSupply + shares);
    var supplied :- ToU64(position.suppliedLiquidity + amount);
    reserve.availableLiquidity, reserve.shareMintSupply := available, supply;
    position.suppliedLiquidity := supplied;
    return Ok(shares);
  }

  /** A redemption gives the wallet its room under the cap back, and never more than it used. */
  method HandleWithdraw(switches: Switches, reserve: Reserve, position: SupplyPosition, shares: u64, slot: u64)
    returns (outcome: Result<u64>)
    modifies reserve, position
    ensures match Behind(switches.RequireNotPaused(), shares, Redeem(old(reserve.State()), shares, slot))
      case Ok(d) => outcome == Ok(d.liquidity) && reserve.State() == d.reserve
                    && position.suppliedLiquidity == SaturatingSub(old(position.suppliedLiquidity), d.liquidity)
      case Err(e) => outcome == Err(e) && reserve.State() == old(reserve.State())
                     && position.suppliedLiquidity == old(position.suppliedLiquidity)
  {
    var _ :- Need(shares > 0, ZeroAmount);
    var _ :- switches.RequireNotPaused();
    var _ :- reserve.State().RequireAccrued(slot);
    var _ :- Need(reserve.shareMintSupply > 0, InsufficientReserveLiquidity);
    var liquidity :- reserve.State().SharesToLiquidity(shares, Down);
    var _ :- Need(liquidity <= reserve.availableLiquidity, InsufficientReserveLiquidity);
    var supply :- CheckedSub(reserve.shareMintSupply, shares);
    reserve.availableLiquidity, reserve.shareMintSupply := reserve.availableLiquidity - liquidity, supply;
    position.suppliedLiquidity := SaturatingSub(position.suppliedLiquidity, liquidity);
    return Ok(liquidity);
  }

  method HandleCollectFees(reserve: Reserve, slot: u64) returns (outcome: Result<u64>)
    modifies reserve
    ensures match CollectFees(old(reserve.State()), slot)
      case Ok(d) => outcome == Ok(d.liquidity) && reserve.State() == d.reserve
      case Err(e) => outcome == Err(e) && reserve.State() == old(reserve.State())
  {
    var _ :- reserve.State().RequireAccrued(slot);
    var payable := Min(reserve.accruedFees, reserve.availableLiquidity);
    var _ :- Need(payable > 0, NothingToCollect);
    reserve.accruedFees := reserve.accruedFees - payable;
    reserve.availableLiquidity := reserve.availableLiquidity - payable;
    return Ok(payable);
  }
}
