/** When each instruction on the lending accounts goes through, and what it then writes: the
exact condition on the accounts' fields, so that no check is missing and none is added. */
module Admission {
  import opened Wrappers
  import opened FixedPoint
  import opened Debts
  import opened Reserves
  import opened PoolSteps
  import opened Health
  import opened Obligations
  import opened Lending
  import opened HandlerLaws
  import opened RateLaws

  /** A price read this slot, that is set. */
  predicate Shows(q: Quote, slot: u64) { q.lastRefreshSlot == slot && q.effectiveRate > 0 }

  /** The two states that permit new risk. */
  predicate Sound(q: Quote) { q.health == Healthy || q.health == RateWarning }

  lemma PriceForIff(q: Quote, slot: u64)
    ensures q.PriceFor(Borrow, slot).Ok? <==> Shows(q, slot) && Sound(q)
    ensures q.PriceFor(WithdrawCollateral, slot).Ok? <==> Shows(q, slot) && Sound(q)
    ensures q.PriceFor(Liquidate, slot).Ok? <==> Shows(q, slot)
    ensures forall a :: q.PriceFor(a, slot).Ok? ==> q.PriceFor(a, slot).value == q.effectiveRate
  {
  }

  /** A product and its rounding fit 128 bits. */
  predicate CeilFits(a: nat, b: nat, d: nat) { d > 0 && a * b + (d - 1) <= U128_MAX }

  /** An amount has a rounded-up value at a price. */
  predicate ValueFits(amount: nat, decimals: nat, price: nat) {
    Pow10(decimals) <= U128_MAX && CeilFits(amount, price, Pow10(decimals))
  }

  /** The assets behind the shares can be told, and cover the fees. */
  predicate PoolIsDefined(r: ReserveState) {
    DebtFits(r.borrowedPrincipal, r.borrowIndex)
    && r.accruedFees <= r.availableLiquidity + Owed(r.borrowedPrincipal, r.borrowIndex)
  }

  // ---------- switches ----------

  lemma SwitchesStop<T>(s: Switches, amount: u64, step: Result<T>)
    ensures Behind(s.RequireNotPaused(), amount, step).Ok? <==> amount > 0 && !s.paused && step.Ok?
    ensures Behind(s.RequireBorrowEnabled(), amount, step).Ok? <==>
      amount > 0 && !s.paused && !s.borrowPaused && step.Ok?
    ensures forall w :: Behind(w, amount, step).Ok? ==> Behind(w, amount, step) == step
  {
  }

  // ---------- borrowing ----------

  /** A borrow goes through exactly when it is of something, position, reserve and price are
      of this slot, nothing is frozen or under stress, the drawn value keeps the cached debt
      within the limit, both caps leave room, the vault holds the amount, the fee leaves
      something to pay out, there is room for the entry, and the numbers fit. */
  lemma BorrowIsOpen(o: ObligationState, key: Key, r: ReserveState, oracle: Quote, walletCap: u64, amount: u64,
                     slot: u64)
    ensures var debt, i := Owed(r.borrowedPrincipal, r.borrowIndex), BorrowIndex(o.borrows, key);
      var held := if i < |o.borrows| then o.borrows[i].borrowedPrincipal else 0;
      BorrowStep(o, key, r, oracle, walletCap, amount, slot).Ok? <==>
      && amount > 0
      && !o.stale && o.lastUpdateSlot == slot && r.lastUpdateSlot == slot
      && r.config.borrowEnabled && !o.pricesStressed
      && Shows(oracle, slot) && Sound(oracle)
      && ValueFits(amount, r.liquidityDecimals, oracle.effectiveRate)
      && o.borrowedValue + CeilDiv(amount * oracle.effectiveRate, Pow10(r.liquidityDecimals)) <= o.allowedBorrowValue
      && (r.config.borrowCap > 0 ==>
            DebtFits(r.borrowedPrincipal, r.borrowIndex) && debt + amount <= r.config.borrowCap)
      && DebtFits(held, r.borrowIndex) && (walletCap > 0 ==> Owed(held, r.borrowIndex) + amount <= walletCap)
      && amount <= r.availableLiquidity && r.config.originationFeeBps < BPS
      && CeilFits(amount, SCALE, r.borrowIndex)
      && r.borrowedPrincipal + CeilDiv(amount * SCALE, r.borrowIndex) <= U128_MAX
      && held + CeilDiv(amount * SCALE, r.borrowIndex) <= U128_MAX
      && r.accruedFees + PartOf(amount, r.config.originationFeeBps) <= U64_MAX
      && (i < |o.borrows| || |o.borrows| < MAX_OBLIGATION_RESERVES)
  {
    PriceForIff(oracle, slot);
    AdmitsIff(o, key, r, oracle, walletCap, amount, slot);
    LendsIff(r, amount);
    hide AdmitBorrow, Lend, ValueFits, CeilFits, DebtFits, CeilDiv, FloorDiv, Owed, Pow10, PartOf, Shows, Sound;
  }

  lemma AdmitsIff(o: ObligationState, key: Key, r: ReserveState, oracle: Quote, walletCap: u64, amount: u64, slot: u64)
    ensures var debt, i := Owed(r.borrowedPrincipal, r.borrowIndex), BorrowIndex(o.borrows, key);
      var held := if i < |o.borrows| then o.borrows[i].borrowedPrincipal else 0;
      AdmitBorrow(o, key, r, oracle, walletCap, amount, slot).Ok? <==>
      && amount > 0
      && !o.stale && o.lastUpdateSlot == slot && r.lastUpdateSlot == slot
      && r.config.borrowEnabled && !o.pricesStressed
      && Shows(oracle, slot) && Sound(oracle)
      && ValueFits(amount, r.liquidityDecimals, oracle.effectiveRate)
      && o.borrowedValue + CeilDiv(amount * oracle.effectiveRate, Pow10(r.liquidityDecimals)) <= o.allowedBorrowValue
      && (r.config.borrowCap > 0 ==>
            DebtFits(r.borrowedPrincipal, r.borrowIndex) && debt + amount <= r.config.borrowCap)
      && DebtFits(held, r.borrowIndex) && (walletCap > 0 ==> Owed(held, r.borrowIndex) + amount <= walletCap)
  {
    PriceForIff(oracle, slot);
    ValueIsExact(amount, r.liquidityDecimals, oracle.effectiveRate);
    NoPrincipalNoDebt(r.borrowIndex);
    hide MarketValue, ValueFits, CeilDiv, Owed, Pow10, Quote.PriceFor, Shows, Sound;
  }

  lemma ValueIsExact(amount: nat, decimals: u8, price: nat)
    ensures MarketValue(amount, decimals, price, Up).Ok? <==> ValueFits(amount, decimals, price)
    ensures MarketValue(amount, decimals, price, Up).Ok? ==>
      MarketValue(amount, decimals, price, Up).value == CeilDiv(amount * price, Pow10(decimals))
  {
    hide CeilDiv, Pow10;
  }

  lemma LendsIff(r: ReserveState, amount: u64)
    ensures Lend(r, amount).Ok? <==>
      && 0 < amount <= r.availableLiquidity && r.config.originationFeeBps < BPS
      && CeilFits(amount, SCALE, r.borrowIndex)
      && r.borrowedPrincipal + CeilDiv(amount * SCALE, r.borrowIndex) <= U128_MAX
      && r.accruedFees + PartOf(amount, r.config.originationFeeBps) <= U64_MAX
    ensures Lend(r, amount).Ok? ==> Lend(r, amount).value.principal == CeilDiv(amount * SCALE, r.borrowIndex)
  {
    FeeLeavesSome(amount, r.config.originationFeeBps);
    hide CeilDiv, FloorDiv;
  }

  lemma FeeLeavesSome(amount: u64, bps: u16)
    ensures amount * bps <= U128_MAX
    ensures PartOf(amount, bps) < amount <==> amount > 0 && bps < BPS
  {
    hide FloorDiv;
    MulMono(bps, 0x1_0000, amount);
    FloorIsLargest(amount, amount * bps, BPS);
    if bps >= BPS { MulMono(BPS, bps, amount); }
    if bps < BPS && amount > 0 { MulMono(bps, BPS - 1, amount); }
  }

  /** What an accepted borrow writes: the rounded-up principal, the amount less the floored fee
      out of the vault, the fee owed to the protocol, one entry, and a stale position. */
  lemma BorrowIsExact(o: ObligationState, key: Key, r: ReserveState, oracle: Quote, walletCap: u64, amount: u64,
                      slot: u64)
    requires BorrowStep(o, key, r, oracle, walletCap, amount, slot).Ok?
    ensures var b, fee := BorrowStep(o, key, r, oracle, walletCap, amount, slot).value,
                          PartOf(amount, r.config.originationFeeBps);
      && IsCeil(b.principal, amount, SCALE, r.borrowIndex) && b.paidOut == amount - fee
      && b.paidOut <= r.availableLiquidity
      && b.reserve == r.(borrowedPrincipal := r.borrowedPrincipal + b.principal, accruedFees := r.accruedFees + fee,
                         availableLiquidity := r.availableLiquidity - b.paidOut)
      && b.obligation == o.(borrows := b.obligation.borrows, stale := true)
      && forall k: Key :: RecordedPrincipal(b.obligation.borrows, k)
                          == RecordedPrincipal(o.borrows, k) + if k == key then b.principal else 0
  {
    var b := BorrowStep(o, key, r, oracle, walletCap, amount, slot).value;
    assert PutPrincipal(o.borrows, key, b.principal) == Ok(b.obligation.borrows) by { hide AdmitBorrow, Lend; }
    assert Lend(r, amount).Ok? && b.principal == Lend(r, amount).value.principal by { hide AdmitBorrow, PutPrincipal; }
    hide AdmitBorrow, PutPrincipal, CeilDiv, FloorDiv;
    forall k: Key { PutPrincipalRecords(o.borrows, key, b.principal, k); }
  }

  /** What an accepted repayment writes: the rounded-down principal, no more than the entry's,
      off the books and off the entry, and the payment into the vault. */
  lemma RepayIsExact(o: ObligationState, key: Key, r: ReserveState, amount: u64, slot: u64)
    requires RepayStep(o, key, r, amount, slot).Ok?
    ensures var p, i := RepayStep(o, key, r, amount, slot).value, BorrowIndex(o.borrows, key);
      && i < |o.borrows| && r.borrowIndex > 0
      && p.paid == Min(amount, Owed(o.borrows[i].borrowedPrincipal, r.borrowIndex))
      && p.principal == Min(FloorDiv(p.paid * SCALE, r.borrowIndex), o.borrows[i].borrowedPrincipal)
      && p.principal <= r.borrowedPrincipal && r.availableLiquidity + p.paid <= U64_MAX
      && p.reserve == r.(borrowedPrincipal := r.borrowedPrincipal - p.principal,
                         availableLiquidity := r.availableLiquidity + p.paid)
      && p.obligation == o.(borrows := p.obligation.borrows, stale := true)
      && forall k: Key :: RecordedPrincipal(p.obligation.borrows, k)
                          == RecordedPrincipal(o.borrows, k) - if k == key then p.principal else 0
  {
    var p, i := RepayStep(o, key, r, amount, slot).value, BorrowIndex(o.borrows, key);
    assert p.obligation.borrows == TakePrincipal(o.borrows, i, p.principal);
    hide TakePrincipal, CeilDiv, FloorDiv;
    forall k: Key { TakePrincipalRecords(o.borrows, i, p.principal, k); }
  }

  // ---------- collateral in and out ----------

  /** Shares are taken as collateral exactly when the reserve is collateral, an isolated one
      does not join shares of another, and there is room for the entry and its sum. */
  lemma DepositIsOpen(o: ObligationState, key: Key, r: ReserveState, shares: u64)
    ensures var i := CollateralIndex(o.deposits, key);
      DepositCollateralStep(o, key, r, shares).Ok? <==>
      && shares > 0 && r.config.collateralEnabled
      && (r.config.isolated ==> forall d :: d in o.deposits && d.reserve != key ==> d.depositedShares == 0)
      && (if i < |o.deposits| then o.deposits[i].depositedShares + shares <= U64_MAX
          else |o.deposits| < MAX_OBLIGATION_RESERVES)
    ensures DepositCollateralStep(o, key, r, shares).Ok? ==>
      var after := DepositCollateralStep(o, key, r, shares).value;
      && after == o.(deposits := after.deposits, stale := true)
      && forall k: Key :: RecordedShares(after.deposits, k)
                          == RecordedShares(o.deposits, k) + if k == key then shares else 0
  {
    if PutCollateral(o.deposits, key, shares).Ok? {
      forall k: Key { PutCollateralRecords(o.deposits, key, shares, k); }
    }
    hide RecordedShares;
  }

  /** Borrow power that leaves with shares: their liquidity, its face value, the value after
      the haircut and the part of it that may be borrowed, each rounded up. */
  datatype Leaving = Leaving(liquidity: nat, face: nat, effective: nat, allowed: nat)

  function PowerLeaving(shares: nat, r: ReserveState, price: nat): (l: Leaving)
    requires PoolIsDefined(r) && r.config.collateralHaircutBps <= BPS
    ensures IsCeil(l.liquidity, shares, r.Total(), Max(r.shareMintSupply, 1))
    ensures IsCeil(l.face, l.liquidity, price, Pow10(r.liquidityDecimals))
    ensures IsCeil(l.effective, l.face, BPS - r.config.collateralHaircutBps, BPS)
    ensures IsCeil(l.allowed, l.effective, r.config.loanToValueBps, BPS)
  {
    var liquidity := Ceiled(shares, r.Total(), Max(r.shareMintSupply, 1));
    var face := Ceiled(liquidity, price, Pow10(r.liquidityDecimals));
    var effective := Ceiled(face, BPS - r.config.collateralHaircutBps, BPS);
    Leaving(liquidity, face, effective, Ceiled(effective, r.config.loanToValueBps, BPS))
  }

  predicate LeavingFits(shares: nat, r: ReserveState, price: nat)
    requires PoolIsDefined(r) && r.config.collateralHaircutBps <= BPS
  {
    var l := PowerLeaving(shares, r, price);
    && CeilFits(shares, r.Total(), Max(r.shareMintSupply, 1)) && l.liquidity <= U64_MAX
    && ValueFits(l.liquidity, r.liquidityDecimals, price)
    && CeilFits(l.face, BPS - r.config.collateralHaircutBps, BPS)
    && CeilFits(l.effective, r.config.loanToValueBps, BPS)
  }

  lemma RemovedIsExact(shares: u64, r: ReserveState, price: u128)
    ensures RemovedAllowed(shares, r, price).Ok? <==>
      PoolIsDefined(r) && r.config.collateralHaircutBps <= BPS && LeavingFits(shares, r, price)
    ensures RemovedAllowed(shares, r, price).Ok? ==>
      RemovedAllowed(shares, r, price).value == PowerLeaving(shares, r, price).allowed
  {
    TotalLiquidityIsTotal(r);
    hide CeilDiv, Owed, Pow10, ReserveState.TotalLiquidity;
    if PoolIsDefined(r) {
      ValueIsExact(CeilDiv(shares * r.Total(), Max(r.shareMintSupply, 1)), r.liquidityDecimals, price);
    }
  }

  /** Shares are released exactly when position, reserve and price are of this slot, the price
      permits new risk, the entry holds them, and the debt stays within the limit less the
      power that leaves. */
  lemma WithdrawalIsOpen(o: ObligationState, key: Key, r: ReserveState, oracle: Quote, shares: u64, slot: u64)
    ensures var i := CollateralIndex(o.deposits, key);
      WithdrawCollateralStep(o, key, r, oracle, shares, slot).Ok? <==>
      && shares > 0
      && !o.stale && o.lastUpdateSlot == slot && r.lastUpdateSlot == slot
      && Shows(oracle, slot) && Sound(oracle)
      && i < |o.deposits| && shares <= o.deposits[i].depositedShares
      && PoolIsDefined(r) && r.config.collateralHaircutBps <= BPS && LeavingFits(shares, r, oracle.effectiveRate)
      && o.borrowedValue <= SaturatingSub(o.allowedBorrowValue,
                                          PowerLeaving(shares, r, oracle.effectiveRate).allowed)
    ensures WithdrawCollateralStep(o, key, r, oracle, shares, slot).Ok? ==>
      var after := WithdrawCollateralStep(o, key, r, oracle, shares, slot).value;
      && after == o.(deposits := after.deposits, stale := true)
      && forall k: Key :: RecordedShares(after.deposits, k)
                          == RecordedShares(o.deposits, k) - if k == key then shares else 0
  {
    PriceForIff(oracle, slot);
    RemovedIsExact(shares, r, oracle.effectiveRate);
    hide RemovedAllowed, PowerLeaving, LeavingFits, PoolIsDefined, TakeCollateral, Shows, Sound, Quote.PriceFor;
    var i := CollateralIndex(o.deposits, key);
    if i < |o.deposits| && shares <= o.deposits[i].depositedShares {
      forall k: Key { TakeCollateralRecords(o.deposits, i, shares, k); }
    }
  }

  // ---------- suppliers ----------

  /** Shares for a deposit: the floor, or one a unit into a pool without shares. */
  function SharesFor(amount: nat, r: ReserveState): (shares: nat)
    requires r.shareMintSupply > 0 ==> PoolIsDefined(r)
    ensures if r.shareMintSupply == 0 then shares == amount
            else IsFloor(shares, amount, r.shareMintSupply, Max(r.Total(), 1))
  {
    if r.shareMintSupply == 0 then amount else FloorDiv(amount * r.shareMintSupply, Max(r.Total(), 1))
  }

  lemma MintIsExact(amount: u64, r: ReserveState)
    ensures r.LiquidityToShares(amount, Down).Ok? <==>
      (r.shareMintSupply > 0 ==> PoolIsDefined(r)) && SharesFor(amount, r) <= U64_MAX
    ensures r.LiquidityToShares(amount, Down).Ok? ==>
      r.LiquidityToShares(amount, Down).value == SharesFor(amount, r)
  {
    TotalLiquidityIsTotal(r);
    WordsMultiply(amount, r.shareMintSupply);
    hide FloorDiv, Owed, ReserveState.TotalLiquidity;
  }

  lemma WordsMultiply(a: u64, b: u64)
    ensures a * b <= U128_MAX
  {
    MulMono(a, U64_MAX, b);
    MulMono(b, U64_MAX, U64_MAX);
  }

  /** A supply goes through exactly when it is of something, the reserve is of this slot, both
      caps leave room, the pool is defined, at least one share is minted, and the sums fit. */
  lemma SupplyIsOpen(r: ReserveState, supplied: u64, walletCap: u64, amount: u64, slot: u64)
    ensures SupplyStep(r, supplied, walletCap, amount, slot).Ok? <==>
      && amount > 0 && r.lastUpdateSlot == slot
      && (r.config.supplyCap > 0 ==>
            && DebtFits(r.borrowedPrincipal, r.borrowIndex)
            && r.availableLiquidity + Owed(r.borrowedPrincipal, r.borrowIndex) + amount <= r.config.supplyCap)
      && (walletCap > 0 ==> supplied + amount <= walletCap) && supplied + amount <= U64_MAX
      && (r.shareMintSupply > 0 ==> PoolIsDefined(r)) && SharesFor(amount, r) > 0
      && r.availableLiquidity + amount <= U64_MAX && r.shareMintSupply + SharesFor(amount, r) <= U64_MAX
    ensures SupplyStep(r, supplied, walletCap, amount, slot).Ok? ==>
      var s := SupplyStep(r, supplied, walletCap, amount, slot).value;
      && s.shares == SharesFor(amount, r) && s.supplied == supplied + amount
      && s.reserve == r.(availableLiquidity := r.availableLiquidity + amount,
                         shareMintSupply := r.shareMintSupply + s.shares)
  {
    MintIsExact(amount, r);
    hide SharesFor, Owed, PoolIsDefined, ReserveState.LiquidityToShares;
  }

  /** A redemption pays the floored worth of the shares exactly when the reserve is of this
      slot, the shares exist, the pool is defined and the vault holds that much. */
  lemma RedemptionIsOpen(r: ReserveState, shares: u64, slot: u64)
    ensures Redeem(r, shares, slot).Ok? <==>
      && 0 < shares <= r.shareMintSupply && r.lastUpdateSlot == slot
      && PoolIsDefined(r) && shares * r.Total() <= U128_MAX
      && FloorDiv(shares * r.Total(), r.shareMintSupply) <= r.availableLiquidity
    ensures Redeem(r, shares, slot).Ok? ==>
      var d := Redeem(r, shares, slot).value;
      && IsFloor(d.liquidity, shares, r.Total(), r.shareMintSupply) && d.liquidity <= r.availableLiquidity
      && d.reserve == r.(availableLiquidity := r.availableLiquidity - d.liquidity,
                         shareMintSupply := r.shareMintSupply - shares)
  {
    TotalLiquidityIsTotal(r);
    hide FloorDiv, Owed, ReserveState.TotalLiquidity;
  }

  // ---------- the protocol ----------

  /** Fees are paid exactly when some are owed and the vault holds anything: all of them, or
      all that it holds. */
  lemma CollectionIsOpen(r: ReserveState, slot: u64)
    ensures CollectFees(r, slot).Ok? <==> r.lastUpdateSlot == slot && r.accruedFees > 0 && r.availableLiquidity > 0
    ensures CollectFees(r, slot).Ok? ==>
      var d := CollectFees(r, slot).value;
      && d.liquidity <= r.accruedFees && d.liquidity <= r.availableLiquidity
      && (d.liquidity == r.accruedFees || d.liquidity == r.availableLiquidity)
      && d.reserve == r.(accruedFees := r.accruedFees - d.liquidity,
                         availableLiquidity := r.availableLiquidity - d.liquidity)
  {
  }

  lemma {:induction false} AllSharesIff(ds: seq<Collateral>)
    ensures AllShares(ds) == 0 <==> forall d :: d in ds ==> d.depositedShares == 0
  {
    if ds != [] {
      AllSharesIff(ds[1..]);
      assert ds[0] in ds && forall d :: d in ds ==> d == ds[0] || d in ds[1..];
    }
  }

  /** A debt is written off exactly when position and reserve are of this slot, no share of
      collateral is left anywhere, the entry owes something that fits, and the books hold its
      principal. */
  lemma AbsorptionIsOpen(o: ObligationState, key: Key, r: ReserveState, slot: u64)
    ensures var i := BorrowIndex(o.borrows, key);
      AbsorbStep(o, key, r, slot).Ok? <==>
      && !o.stale && o.lastUpdateSlot == slot && r.lastUpdateSlot == slot
      && (forall d :: d in o.deposits ==> d.depositedShares == 0)
      && i < |o.borrows| && 0 < o.borrows[i].borrowedPrincipal <= r.borrowedPrincipal
      && CeilFits(o.borrows[i].borrowedPrincipal, r.borrowIndex, SCALE)
      && Owed(o.borrows[i].borrowedPrincipal, r.borrowIndex) <= U64_MAX
  {
    AllSharesIff(o.deposits);
    hide AllShares, CeilDiv;
  }
}
