/** The exact terms of a liquidation: when it goes through, what is repaid, how many shares are
seized for it, and who gets them. */
module LiquidationTerms {
  import opened Wrappers
  import opened FixedPoint
  import opened Debts
  import opened Reserves
  import opened PoolSteps
  import opened Health
  import opened Obligations
  import opened Lending
  import opened HandlerLaws
  import opened RateLaws
  import opened LiquidationLaws
  import opened Admission

  // ---------- the seizure ----------

  /** What a repayment of some value takes: the floored bonus, the most base units that value
      and bonus buy, and the most shares worth no more, or one a unit without shares. */
  datatype Seizure = Seizure(bonus: nat, bought: nat, shares: nat)

  function SeizedFor(value: nat, c: ReserveState, price: nat): (s: Seizure)
    requires price > 0 && (c.shareMintSupply > 0 ==> PoolIsDefined(c))
    ensures IsFloor(s.bonus, value, c.config.liquidationBonusBps, BPS)
    ensures IsFloor(s.bought, value + s.bonus, Pow10(c.liquidityDecimals), price)
    ensures if c.shareMintSupply == 0 then s.shares == s.bought
            else IsFloor(s.shares, s.bought, c.shareMintSupply, Max(c.Total(), 1))
  {
    var bonus := Floored(value, c.config.liquidationBonusBps, BPS);
    var bought := Floored(value + bonus, Pow10(c.liquidityDecimals), price);
    Seizure(bonus, bought, SharesFor(bought, c))
  }

  predicate ProductFits(a: nat, b: nat) { a * b <= U128_MAX }

  predicate SeizureFits(value: nat, c: ReserveState, price: nat)
    requires price > 0 && (c.shareMintSupply > 0 ==> PoolIsDefined(c))
  {
    var s := SeizedFor(value, c, price);
    && ProductFits(value, c.config.liquidationBonusBps) && value + s.bonus <= U128_MAX
    && Pow10(c.liquidityDecimals) <= U128_MAX && ProductFits(value + s.bonus, Pow10(c.liquidityDecimals))
    && s.bought <= U64_MAX && s.shares <= U64_MAX
  }

  lemma OneFloor(q: nat, a: nat, b: nat, d: nat)
    requires d > 0 && q * d <= a * b < (q + 1) * d
    ensures q == Floored(a, b, d)
  {
    FloorIsLargest(q, a * b, d);
    FloorIsLargest(q + 1, a * b, d);
  }

  lemma FlooredIsExact(a: nat, b: nat, d: nat)
    requires d > 0
    ensures MulDivFloor(a, b, d).Ok? <==> ProductFits(a, b)
    ensures MulDivFloor(a, b, d).Ok? ==> MulDivFloor(a, b, d).value == Floored(a, b, d)
  {
    hide FloorDiv;
  }

  lemma PurchaseIsExact(value: nat, decimals: u8, price: nat)
    ensures ValueToAmount(value, decimals, price, Down).Ok? <==>
      && price > 0 && Pow10(decimals) <= U128_MAX && ProductFits(value, Pow10(decimals))
      && Floored(value, Pow10(decimals), price) <= U64_MAX
    ensures ValueToAmount(value, decimals, price, Down).Ok? ==>
      ValueToAmount(value, decimals, price, Down).value == Floored(value, Pow10(decimals), price)
  {
    hide Floored, Pow10, ProductFits;
    if price > 0 && Pow10(decimals) <= U128_MAX { FlooredIsExact(value, Pow10(decimals), price); }
  }

  /** The seizure is exactly that, and fails only without a price, in an undefined pool and for
      widths. */
  lemma SeizureIsExact(value: u128, c: ReserveState, price: u128)
    ensures SeizeShares(value, c, price).Ok? <==>
      price > 0 && (c.shareMintSupply > 0 ==> PoolIsDefined(c)) && SeizureFits(value, c, price)
    ensures SeizeShares(value, c, price).Ok? ==>
      SeizeShares(value, c, price).value == SeizedFor(value, c, price).shares
  {
    var bonus := Floored(value, c.config.liquidationBonusBps, BPS);
    FlooredIsExact(value, c.config.liquidationBonusBps, BPS);
    PurchaseIsExact(value + bonus, c.liquidityDecimals, price);
    if price > 0 {
      var bought := Floored(value + bonus, Pow10(c.liquidityDecimals), price);
      if bought <= U64_MAX { MintIsExact(bought, c); }
    }
    hide MulDivFloor, Floored, Pow10, ProductFits, SharesFor, PoolIsDefined, ReserveState.LiquidityToShares, IsFloor,
      ValueToAmount;
  }

  // ---------- the repayment ----------

  /** The most that may be repaid at once: everything below a health factor of 0.95, else the
      floored close factor of the debt. */
  function RepayLimit(o: ObligationState, debt: nat, closeFactorBps: nat): nat {
    if o.unhealthyBorrowValue * BPS < FULL_CLOSE_HEALTH_FACTOR_BPS * o.borrowedValue then debt
    else PartOf(debt, closeFactorBps)
  }

  lemma RepayLimitIsExact(o: ObligationState, i: nat, r: ReserveState)
    requires i < |o.borrows| && o.borrowedValue > 0 && r.config.closeFactorBps <= BPS
    ensures var p := o.borrows[i].borrowedPrincipal;
      && (MaxRepay(o, i, r).Ok? <==> DebtFits(p, r.borrowIndex) && o.unhealthyBorrowValue * BPS <= U128_MAX)
      && (MaxRepay(o, i, r).Ok? ==>
            MaxRepay(o, i, r).value == RepayLimit(o, Owed(p, r.borrowIndex), r.config.closeFactorBps))
  {
    if MaxRepay(o, i, r).Ok? { CloseFactorSplits(o, i, r); }
    var debt := Owed(o.borrows[i].borrowedPrincipal, r.borrowIndex);
    if debt <= U64_MAX {
      PartFits(debt, BPS);
      PartFits(debt, r.config.closeFactorBps);
    }
    hide FloorDiv, Owed, PartOf;
  }

  lemma PartFits(n: u64, bps: nat)
    requires bps <= BPS
    ensures n * bps <= U128_MAX && FloorDiv(n * bps, BPS) <= n
  {
    MulMono(bps, BPS, n);
    CutIsPart(n, bps);
  }

  lemma CutIsPart(n: nat, bps: nat)
    requires bps <= BPS
    ensures FloorDiv(n * bps, BPS) <= n
  {
    hide FloorDiv;
    MulMono(bps, BPS, n);
    FloorIsLargest(n + 1, n * bps, BPS);
  }

  // ---------- the liquidation ----------

  /** What a liquidation of some debt at most pays and takes. */
  datatype Terms = Terms(repaid: nat, value: nat, seizure: Seizure)

  predicate Priced(r: ReserveState, c: ReserveState, repayOracle: Quote, collateralOracle: Quote, slot: u64) {
    && r.lastUpdateSlot == slot && c.lastUpdateSlot == slot
    && Shows(repayOracle, slot) && Shows(collateralOracle, slot) && (c.shareMintSupply > 0 ==> PoolIsDefined(c))
  }

  function TermsOf(o: ObligationState, debt: nat, r: ReserveState, c: ReserveState, repayOracle: Quote,
                   collateralOracle: Quote, amount: nat, slot: u64): (t: Terms)
    requires Priced(r, c, repayOracle, collateralOracle, slot)
    ensures t.repaid == Min(amount, RepayLimit(o, debt, r.config.closeFactorBps))
    ensures IsFloor(t.value, t.repaid, repayOracle.effectiveRate, Pow10(r.liquidityDecimals))
    ensures t.seizure == SeizedFor(t.value, c, collateralOracle.effectiveRate)
  {
    var repaid := Min(amount, RepayLimit(o, debt, r.config.closeFactorBps));
    var value := Floored(repaid, repayOracle.effectiveRate, Pow10(r.liquidityDecimals));
    Terms(repaid, value, SeizedFor(value, c, collateralOracle.effectiveRate))
  }

  lemma PlansIff(o: ObligationState, repayKey: Key, r: ReserveState, collateralKey: Key, c: ReserveState,
                 repayOracle: Quote, collateralOracle: Quote, amount: u64, slot: u64)
    requires r.config.closeFactorBps <= BPS
    ensures var i, j := BorrowIndex(o.borrows, repayKey), CollateralIndex(o.deposits, collateralKey);
      var plan := PlanLiquidation(o, repayKey, r, collateralKey, c, repayOracle, collateralOracle, amount, slot);
      && (plan.Ok? <==>
          && amount > 0 && !o.stale && o.lastUpdateSlot == slot
          && o.borrowedValue > o.unhealthyBorrowValue && o.unhealthyBorrowValue * BPS <= U128_MAX
          && Priced(r, c, repayOracle, collateralOracle, slot)
          && i < |o.borrows| && j < |o.deposits|
          && var p := o.borrows[i].borrowedPrincipal;
             var t := TermsOf(o, Owed(p, r.borrowIndex), r, c, repayOracle, collateralOracle, amount, slot);
             && DebtFits(p, r.borrowIndex) && t.repaid > 0
             && Pow10(r.liquidityDecimals) <= U128_MAX && ProductFits(t.repaid, repayOracle.effectiveRate)
             && SeizureFits(t.value, c, collateralOracle.effectiveRate)
             && 0 < t.seizure.shares <= o.deposits[j].depositedShares)
      && (plan.Ok? ==>
          var t := TermsOf(o, Owed(o.borrows[i].borrowedPrincipal, r.borrowIndex), r, c, repayOracle, collateralOracle,
                           amount, slot);
          plan.value == Plan(i, j, t.repaid, t.seizure.shares))
  {
    var i, j := BorrowIndex(o.borrows, repayKey), CollateralIndex(o.deposits, collateralKey);
    PriceForIff(repayOracle, slot);
    PriceForIff(collateralOracle, slot);
    if i < |o.borrows| && o.borrowedValue > 0 {
      RepayLimitIsExact(o, i, r);
      var repaid := Min(amount, RepayLimit(o, Owed(o.borrows[i].borrowedPrincipal, r.borrowIndex),
                                           r.config.closeFactorBps));
      RepaidValueIsExact(repaid, r.liquidityDecimals, repayOracle.effectiveRate);
      var value := Floored(repaid, repayOracle.effectiveRate, Pow10(r.liquidityDecimals));
      if value <= U128_MAX { SeizureIsExact(value, c, collateralOracle.effectiveRate); }
    }
    hide MaxRepay, SeizeShares, MarketValue, Floored, SeizedFor, SeizureFits, Owed, DebtFits, Pow10, ProductFits,
      PoolIsDefined, RepayLimit, Shows, Quote.PriceFor, IsFloor;
  }

  lemma RepaidValueIsExact(amount: nat, decimals: u8, price: nat)
    ensures MarketValue(amount, decimals, price, Down).Ok? <==>
      Pow10(decimals) <= U128_MAX && ProductFits(amount, price)
    ensures MarketValue(amount, decimals, price, Down).Ok? ==>
      MarketValue(amount, decimals, price, Down).value == Floored(amount, price, Pow10(decimals))
  {
    hide Floored, Pow10, ProductFits;
    FlooredIsExact(amount, price, Pow10(decimals));
  }

  lemma ReceivesIff(r: ReserveState, principal: u128, amount: u64)
    ensures Receive(r, principal, amount).Ok? <==>
      && r.borrowIndex > 0 && Min(FloorDiv(amount * SCALE, r.borrowIndex), principal) <= r.borrowedPrincipal
      && r.availableLiquidity + amount <= U64_MAX
    ensures Receive(r, principal, amount).Ok? ==>
      var d := Receive(r, principal, amount).value;
      && d.principal == Min(FloorDiv(amount * SCALE, r.borrowIndex), principal)
      && d.reserve == r.(borrowedPrincipal := r.borrowedPrincipal - d.principal,
                         availableLiquidity := r.availableLiquidity + amount)
  {
    hide FloorDiv;
    if r.borrowIndex > 0 { QuotientFits(amount * SCALE, r.borrowIndex); }
  }

  /** A liquidation goes through exactly when it is of something, position, reserves and prices
      are of this slot, the debt is past the line, both entries exist, something is repaid,
      something is seized and the entry holds it, and the numbers fit. No price is refused for
      its health. */
  lemma LiquidationIsOpen(o: ObligationState, repayKey: Key, r: ReserveState, collateralKey: Key, c: ReserveState,
                          repayOracle: Quote, collateralOracle: Quote, shareBps: u16, amount: u64, slot: u64)
    requires r.config.closeFactorBps <= BPS
    ensures var i, j := BorrowIndex(o.borrows, repayKey), CollateralIndex(o.deposits, collateralKey);
      LiquidateStep(o, repayKey, r, collateralKey, c, repayOracle, collateralOracle, shareBps, amount, slot).Ok? <==>
      && amount > 0 && !o.stale && o.lastUpdateSlot == slot
      && o.borrowedValue > o.unhealthyBorrowValue && o.unhealthyBorrowValue * BPS <= U128_MAX
      && Priced(r, c, repayOracle, collateralOracle, slot)
      && i < |o.borrows| && j < |o.deposits|
      && var p := o.borrows[i].borrowedPrincipal;
         var t := TermsOf(o, Owed(p, r.borrowIndex), r, c, repayOracle, collateralOracle, amount, slot);
         && DebtFits(p, r.borrowIndex) && t.repaid > 0
         && Pow10(r.liquidityDecimals) <= U128_MAX && ProductFits(t.repaid, repayOracle.effectiveRate)
         && SeizureFits(t.value, c, collateralOracle.effectiveRate)
         && 0 < t.seizure.shares <= o.deposits[j].depositedShares
         && r.borrowIndex > 0 && Min(Floored(t.repaid, SCALE, r.borrowIndex), p) <= r.borrowedPrincipal
         && r.availableLiquidity + t.repaid <= U64_MAX
  {
    var i, j := BorrowIndex(o.borrows, repayKey), CollateralIndex(o.deposits, collateralKey);
    PlansIff(o, repayKey, r, collateralKey, c, repayOracle, collateralOracle, amount, slot);
    var plan := PlanLiquidation(o, repayKey, r, collateralKey, c, repayOracle, collateralOracle, amount, slot);
    if plan.Ok? {
      SplitIsFair(plan.value.seized, c.config.liquidationBonusBps, shareBps);
      ReceivesIff(r, o.borrows[i].borrowedPrincipal, plan.value.repaid);
    }
    hide PlanLiquidation, SplitSeized, Receive, TermsOf, SeizureFits, DebtFits, Priced, Pow10, ProductFits, FloorDiv,
      Owed, TakePrincipal, TakeCollateral;
  }

  /** What an accepted liquidation pays and takes, to the unit: the repayment is the amount or
      the limit, its principal is rounded down, the seizure is what value and bonus buy, the
      protocol gets the floored share of the bonus's part and the liquidator all the rest. */
  lemma LiquidationIsExact(o: ObligationState, repayKey: Key, r: ReserveState, collateralKey: Key, c: ReserveState,
                           repayOracle: Quote, collateralOracle: Quote, shareBps: u16, amount: u64, slot: u64)
    requires r.config.closeFactorBps <= BPS
    requires LiquidateStep(o, repayKey, r, collateralKey, c, repayOracle, collateralOracle, shareBps, amount, slot).Ok?
    ensures Priced(r, c, repayOracle, collateralOracle, slot) && BorrowIndex(o.borrows, repayKey) < |o.borrows|
    ensures var l := LiquidateStep(o, repayKey, r, collateralKey, c, repayOracle, collateralOracle, shareBps, amount,
                                   slot).value;
      var p, bonusBps := o.borrows[BorrowIndex(o.borrows, repayKey)].borrowedPrincipal, c.config.liquidationBonusBps;
      var t := TermsOf(o, Owed(p, r.borrowIndex), r, c, repayOracle, collateralOracle, amount, slot);
      && l.repaid == t.repaid && l.seized == t.seizure.shares
      && l.toProtocol == Floored(l.seized, Min(shareBps, bonusBps), BPS + bonusBps)
      && l.toLiquidator + l.toProtocol == l.seized
      && r.borrowIndex > 0 && l.principal == Min(Floored(l.repaid, SCALE, r.borrowIndex), p)
  {
    var l := LiquidateStep(o, repayKey, r, collateralKey, c, repayOracle, collateralOracle, shareBps, amount,
                           slot).value;
    PlansIff(o, repayKey, r, collateralKey, c, repayOracle, collateralOracle, amount, slot);
    AcceptedLiquidation(o, repayKey, r, collateralKey, c, repayOracle, collateralOracle, shareBps, amount, slot);
    SplitIsFair(l.seized, c.config.liquidationBonusBps, shareBps);
    OneFloor(l.toProtocol, l.seized, Min(shareBps, c.config.liquidationBonusBps), BPS + c.config.liquidationBonusBps);
    ReceivesIff(r, o.borrows[BorrowIndex(o.borrows, repayKey)].borrowedPrincipal, l.repaid);
    hide LiquidateStep, PlanLiquidation, SplitSeized, Receive, TermsOf, SeizureFits, DebtFits, Priced, Pow10,
      ProductFits, FloorDiv, Owed, TakePrincipal, TakeCollateral;
  }

  /** And what it writes: the payment and its principal on the reserve, the principal and the
      shares off their entries, nothing else, and a stale position. */
  lemma LiquidationWrites(o: ObligationState, repayKey: Key, r: ReserveState, collateralKey: Key, c: ReserveState,
                          repayOracle: Quote, collateralOracle: Quote, shareBps: u16, amount: u64, slot: u64)
    requires LiquidateStep(o, repayKey, r, collateralKey, c, repayOracle, collateralOracle, shareBps, amount, slot).Ok?
    ensures var l := LiquidateStep(o, repayKey, r, collateralKey, c, repayOracle, collateralOracle, shareBps, amount,
                                   slot).value;
      && l.principal <= r.borrowedPrincipal && r.availableLiquidity + l.repaid <= U64_MAX
      && l.reserve == r.(borrowedPrincipal := r.borrowedPrincipal - l.principal,
                         availableLiquidity := r.availableLiquidity + l.repaid)
      && l.obligation == o.(borrows := l.obligation.borrows, deposits := l.obligation.deposits, stale := true)
      && (forall k: Key :: RecordedPrincipal(l.obligation.borrows, k)
                           == RecordedPrincipal(o.borrows, k) - if k == repayKey then l.principal else 0)
      && (forall k: Key :: RecordedShares(l.obligation.deposits, k)
                           == RecordedShares(o.deposits, k) - if k == collateralKey then l.seized else 0)
  {
    var l := LiquidateStep(o, repayKey, r, collateralKey, c, repayOracle, collateralOracle, shareBps, amount,
                           slot).value;
    var plan := PlanLiquidation(o, repayKey, r, collateralKey, c, repayOracle, collateralOracle, amount, slot).value;
    AcceptedLiquidation(o, repayKey, r, collateralKey, c, repayOracle, collateralOracle, shareBps, amount, slot);
    ReceivesIff(r, o.borrows[plan.borrow].borrowedPrincipal, l.repaid);
    hide PlanLiquidation, SplitSeized, Receive, FloorDiv, TakePrincipal, TakeCollateral;
    forall k: Key { TakePrincipalRecords(o.borrows, plan.borrow, l.principal, k); }
    forall k: Key { TakeCollateralRecords(o.deposits, plan.deposit, l.seized, k); }
  }
}
