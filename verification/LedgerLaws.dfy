/** What holds in every state the protocol can reach. */
module LedgerLaws {
  import opened Wrappers
  import opened FixedPoint
  import opened Debts
  import opened Reserves
  import opened PoolSteps
  import opened Health
  import opened Obligations
  import opened Valuation
  import opened Lending
  import opened BorrowLaws
  import opened LiquidationLaws
  import opened Sums
  import opened Books
  import opened Ledger

  // ---------- joint conservation ----------

  /** The same accounts, with every asset's tokens all there. */
  ghost predicate NothingLost(w: World, v: World) {
    && |v.books| == |w.books| && |v.obligations| == |w.obligations|
    && forall key: Key :: key < |w.books| ==> Conserves(w.books[key], v.books[key])
  }

  lemma NothingLostChains(u: World, v: World, w: World)
    requires NothingLost(u, v) && NothingLost(v, w)
    ensures NothingLost(u, w)
  {
    hide Balanced, Book.Holdings;
    forall key: Key | key < |u.books| ensures Conserves(u.books[key], w.books[key]) {
      assert Conserves(u.books[key], v.books[key]);
      assert Conserves(v.books[key], w.books[key]);
    }
  }

  function Touch(w: World, key: Key, c: Book, o: nat, x: ObligationState): (v: World)
    requires key < |w.books| && o < |w.obligations|
    ensures |v.books| == |w.books| && |v.obligations| == |w.obligations| && v.obligations[o] == x
  {
    w.(books := w.books[key := c], obligations := w.obligations[o := x])
  }

  lemma TouchedBook(b: Book, c: Book, os: seq<ObligationState>, o: nat, x: ObligationState, key: Key)
    requires o < |os| && BookReconciled(b, os, key) && StepConserves(b, c, o, os[o], x, key)
    ensures BookReconciled(c, os[o := x], key)
  {
    hide Sum, WellFormed, RecordedShares, RecordedPrincipal, ReserveConfig.Valid, Matches, OthersUntouched;
    MatchesAfter(b, c, os, o, x, key);
  }

  lemma UntouchedBook(b: Book, os: seq<ObligationState>, o: nat, x: ObligationState, key: Key, other: Key)
    requires o < |os| && other != key && BookReconciled(b, os, other) && OthersUntouched(os[o], x, key)
    ensures BookReconciled(b, os[o := x], other)
  {
    hide Sum, RecordedShares, RecordedPrincipal, ReserveConfig.Valid, Balanced;
    assert b.locked[o := b.locked[o]] == b.locked;
    MatchesAfter(b, b, os, o, x, other);
  }

  /** Changing one book and one position together keeps the whole world reconciled. */
  lemma TouchKeepsReconciled(w: World, key: Key, c: Book, o: nat, x: ObligationState)
    requires Reconciled(w) && key < |w.books| && o < |w.obligations|
    requires StepConserves(w.books[key], c, o, w.obligations[o], x, key)
    ensures Reconciled(Touch(w, key, c, o, x)) && NothingLost(w, Touch(w, key, c, o, x))
  {
    var v := Touch(w, key, c, o, x);
    assert OthersUntouched(w.obligations[o], x, key) && Conserves(w.books[key], c) && WellFormed(x);
    hide WellFormed, BookReconciled, StepConserves, OthersUntouched, Balanced, Book.Holdings;
    forall j: Key | j < |v.books|
      ensures BookReconciled(v.books[j], v.obligations, j) && Conserves(w.books[j], v.books[j])
    {
      assert BookReconciled(w.books[j], w.obligations, j);
      if j == key {
        TouchedBook(w.books[j], c, w.obligations, o, x, key);
      } else {
        UntouchedBook(w.books[j], w.obligations, o, x, key, j);
      }
    }
  }

  lemma BookStepKeepsReconciled(w: World, key: Key, op: BookOp)
    requires Reconciled(w) && Step(w, OnBook(key, op)).Ok?
    ensures Reconciled(After(w, OnBook(key, op))) && NothingLost(w, After(w, OnBook(key, op)))
  {
    var v := After(w, OnBook(key, op));
    BookStepConserves(w.books[key], op, w.slot);
    hide BookStep, Sum, WellFormed, ReserveConfig.Valid;
    forall j: Key | j < |v.books|
      ensures BookReconciled(v.books[j], v.obligations, j) && Conserves(w.books[j], v.books[j])
    {
      assert BookReconciled(w.books[j], w.obligations, j);
    }
  }

  lemma PositionStepKeepsReconciled(w: World, who: nat, o: nat, key: Key, op: PositionOp)
    requires Reconciled(w) && Step(w, OnPosition(who, o, key, op)).Ok?
    ensures Reconciled(After(w, OnPosition(who, o, key, op))) && NothingLost(w, After(w, OnPosition(who, o, key, op)))
  {
    assert BookReconciled(w.books[key], w.obligations, key);
    PositionStepConserves(w.books[key], key, w.obligations[o], o, who, op, w.slot);
    hide PositionStep, StepConserves, WellFormed;
    var t := PositionStep(w.books[key], key, w.obligations[o], o, who, op, w.slot).value;
    TouchKeepsReconciled(w, key, t.book, o, t.obligation);
  }

  lemma RefreshKeepsReconciled(w: World, o: nat, keys: seq<Key>, oracles: seq<Quote>)
    requires Reconciled(w) && Step(w, RefreshPosition(o, keys, oracles)).Ok?
    ensures Reconciled(After(w, RefreshPosition(o, keys, oracles)))
      && NothingLost(w, After(w, RefreshPosition(o, keys, oracles)))
  {
    var a := RefreshPosition(o, keys, oracles);
    var v := After(w, a);
    RefreshKeepsRecords(w.obligations[o], PairsOf(w.books, keys, oracles).value, w.slot);
    hide Refreshed, Sum, WellFormed, RecordedShares, RecordedPrincipal, ReserveConfig.Valid;
    forall j: Key | j < |v.books| ensures BookReconciled(v.books[j], v.obligations, j) {
      assert BookReconciled(w.books[j], w.obligations, j);
      assert w.books[j].locked[o := w.books[j].locked[o]] == w.books[j].locked;
      MatchesAfter(w.books[j], v.books[j], w.obligations, o, v.obligations[o], j);
    }
  }

  lemma SettledLegs(w: World, o: nat, x: ObligationState, l: Liquidation, who: nat, feeOwner: nat, rk: Key, ck: Key)
    requires rk < |w.books| && ck < |w.books| && o < |w.obligations| && Settle(w.books, o, l, who, feeOwner, rk, ck).Ok?
    ensures PayIn(w.books[rk].(reserve := l.reserve), who, l.repaid).Ok?
    ensures var u := Touch(w, rk, PayIn(w.books[rk].(reserve := l.reserve), who, l.repaid).value, o, x);
      var rewarded := Reward(u.books[ck], o, who, l.toLiquidator, feeOwner, l.toProtocol);
      && rewarded.Ok?
      && Touch(u, ck, rewarded.value, o, l.obligation)
           == w.(books := Settle(w.books, o, l, who, feeOwner, rk, ck).value,
                 obligations := w.obligations[o := l.obligation])
  {
    hide PayIn, Reward;
  }

  /** A liquidation takes principal from one entry of the position and shares from another. */
  ghost predicate Executes(x: ObligationState, l: Liquidation, plan: Plan, r: ReserveState, rk: Key, ck: Key) {
    && plan.borrow < |x.borrows| && x.borrows[plan.borrow].reserve == rk
    && plan.deposit < |x.deposits| && x.deposits[plan.deposit].reserve == ck
    && l.principal <= x.borrows[plan.borrow].borrowedPrincipal && l.seized <= x.deposits[plan.deposit].depositedShares
    && Receive(r, x.borrows[plan.borrow].borrowedPrincipal, l.repaid) == Ok(Received(l.reserve, l.principal))
    && l.obligation.borrows == TakePrincipal(x.borrows, plan.borrow, l.principal)
    && l.obligation.deposits == TakeCollateral(x.deposits, plan.deposit, l.seized)
    && l.toProtocol + l.toLiquidator == l.seized
  }

  /** A liquidation is a repayment leg on one book and a seizure leg on another, or on the
      same one. */
  lemma SettlementKeepsReconciled(w: World, o: nat, l: Liquidation, plan: Plan, who: nat, feeOwner: nat, rk: Key,
                                  ck: Key)
    requires Reconciled(w) && rk < |w.books| && ck < |w.books| && o < |w.obligations|
    requires Executes(w.obligations[o], l, plan, w.books[rk].reserve, rk, ck)
    requires Settle(w.books, o, l, who, feeOwner, rk, ck).Ok?
    ensures var v := w.(books := Settle(w.books, o, l, who, feeOwner, rk, ck).value,
                        obligations := w.obligations[o := l.obligation]);
      Reconciled(v) && NothingLost(w, v)
  {
    var mid := w.obligations[o].(borrows := l.obligation.borrows);
    SettledLegs(w, o, mid, l, who, feeOwner, rk, ck);
    hide PayIn, Reward, Settle, Reconciled, NothingLost, Executes, Touch;
    var u := Touch(w, rk, PayIn(w.books[rk].(reserve := l.reserve), who, l.repaid).value, o, mid);
    RepaidLegKeepsReconciled(w, o, l, plan, who, rk, ck);
    SeizedLegKeepsReconciled(u, w.obligations[o], o, l, plan, w.books[rk].reserve, who, feeOwner, rk, ck);
    NothingLostChains(w, u, Touch(u, ck, Reward(u.books[ck], o, who, l.toLiquidator, feeOwner, l.toProtocol).value, o,
                                  l.obligation));
  }

  lemma ReconciledRecords(w: World, o: nat, key: Key)
    requires Reconciled(w) && o < |w.obligations| && key < |w.books|
    ensures WellFormed(w.obligations[o])
    ensures o < |w.books[key].locked| && w.books[key].locked[o] == RecordedShares(w.obligations[o].deposits, key)
  {
    assert BookReconciled(w.books[key], w.obligations, key);
  }

  lemma RepaidLegKeepsReconciled(w: World, o: nat, l: Liquidation, plan: Plan, who: nat, rk: Key, ck: Key)
    requires Reconciled(w) && rk < |w.books| && o < |w.obligations|
    requires Executes(w.obligations[o], l, plan, w.books[rk].reserve, rk, ck)
    requires PayIn(w.books[rk].(reserve := l.reserve), who, l.repaid).Ok?
    ensures var u := Touch(w, rk, PayIn(w.books[rk].(reserve := l.reserve), who, l.repaid).value, o,
                           w.obligations[o].(borrows := l.obligation.borrows));
      Reconciled(u) && NothingLost(w, u)
  {
    hide Receive, TakePrincipal, PayIn, StepConserves, Reconciled, NothingLost, WellFormed, RecordedShares;
    ReconciledRecords(w, o, rk);
    var x := w.obligations[o];
    RepaidLegConserves(w.books[rk], rk, x, o, plan.borrow, who, l.reserve, l.principal, l.repaid);
    TouchKeepsReconciled(w, rk, PayIn(w.books[rk].(reserve := l.reserve), who, l.repaid).value, o,
                         x.(borrows := l.obligation.borrows));
  }

  /** `x` is the position before the liquidation, in `u` after its repayment leg. */
  lemma SeizedLegKeepsReconciled(u: World, x: ObligationState, o: nat, l: Liquidation, plan: Plan, r: ReserveState,
                                 who: nat, feeOwner: nat, rk: Key, ck: Key)
    requires Reconciled(u) && ck < |u.books| && o < |u.obligations|
    requires u.obligations[o] == x.(borrows := l.obligation.borrows) && Executes(x, l, plan, r, rk, ck)
    requires Reward(u.books[ck], o, who, l.toLiquidator, feeOwner, l.toProtocol).Ok?
    ensures var v := Touch(u, ck, Reward(u.books[ck], o, who, l.toLiquidator, feeOwner, l.toProtocol).value, o,
                           l.obligation);
      Reconciled(v) && NothingLost(u, v)
  {
    hide TakeCollateral, Reward, StepConserves, Reconciled, NothingLost, WellFormed, RecordedShares;
    ReconciledRecords(u, o, ck);
    SeizedLegConserves(u.books[ck], ck, u.obligations[o], l.obligation, o, plan.deposit, who, l.toLiquidator, feeOwner,
                       l.toProtocol);
    TouchKeepsReconciled(u, ck, Reward(u.books[ck], o, who, l.toLiquidator, feeOwner, l.toProtocol).value, o,
                         l.obligation);
  }

  lemma LiquidationKeepsReconciled(w: World, a: Action)
    requires Reconciled(w) && a.LiquidatePosition? && Step(w, a).Ok?
    ensures Reconciled(After(w, a)) && NothingLost(w, After(w, a))
  {
    var o, rk, ck := a.position, a.repayKey, a.collateralKey;
    var x, r, c := w.obligations[o], w.books[rk].reserve, w.books[ck].reserve;
    AcceptedLiquidation(x, rk, r, ck, c, a.repayOracle, a.collateralOracle, a.shareBps, a.amount, w.slot);
    hide LiquidateStep, PlanLiquidation, SplitSeized, Receive, TakePrincipal, TakeCollateral, Settle, Reconciled,
      NothingLost;
    var l := LiquidateStep(x, rk, r, ck, c, a.repayOracle, a.collateralOracle, a.shareBps, a.amount, w.slot).value;
    var plan := PlanLiquidation(x, rk, r, ck, c, a.repayOracle, a.collateralOracle, a.amount, w.slot).value;
    SplitIsFair(l.seized, c.config.liquidationBonusBps, a.shareBps);
    SettlementKeepsReconciled(w, o, l, plan, a.who, a.feeOwner, rk, ck);
  }

  lemma StepKeepsReconciled(w: World, a: Action)
    requires Reconciled(w)
    ensures Reconciled(After(w, a)) && NothingLost(w, After(w, a))
  {
    hide Reconciled, NothingLost, BookStep, PositionStep, LiquidateStep, Refreshed, Settle;
    if Step(w, a).Ok? {
      match a
      case Tick(_) => NothingMoved(w, After(w, a));
      case OnBook(key, op) => BookStepKeepsReconciled(w, key, op);
      case OnPosition(who, o, key, op) => PositionStepKeepsReconciled(w, who, o, key, op);
      case RefreshPosition(o, keys, oracles) => RefreshKeepsReconciled(w, o, keys, oracles);
      case LiquidatePosition(_, _, _, _, _, _, _, _, _) => LiquidationKeepsReconciled(w, a);
    } else {
      NothingMoved(w, w);
    }
  }

  lemma NothingMoved(w: World, v: World)
    requires v == w.(slot := v.slot)
    ensures NothingLost(w, v) && (Reconciled(w) ==> Reconciled(v))
  {
  }

  /** Joint conservation in every reachable state: positions and reserves record the same
      principal, vault and share balances match the records, entries keep their form, and no
      token was made or lost on the way. */
  lemma {:induction false} RunKeepsReconciled(w: World, actions: seq<Action>)
    requires Reconciled(w)
    ensures Reconciled(Run(w, actions)) && NothingLost(w, Run(w, actions))
    decreases actions
  {
    hide Reconciled, NothingLost, After;
    if actions == [] {
      NothingMoved(w, w);
    } else {
      StepKeepsReconciled(w, actions[0]);
      RunKeepsReconciled(After(w, actions[0]), actions[1..]);
      NothingLostChains(w, After(w, actions[0]), Run(w, actions));
    }
  }

  lemma ReachableIsReconciled(w: World, actions: seq<Action>)
    requires Initial(w)
    ensures Reconciled(Run(w, actions)) && NothingLost(w, Run(w, actions))
  {
    InitialIsReconciled(w);
    RunKeepsReconciled(w, actions);
  }

  // ---------- repaying is always open ----------

  /** No entry holds more principal than its reserve's books. */
  lemma EntryWithinBooks(w: World, o: nat, key: Key)
    requires Reconciled(w) && o < |w.obligations| && key < |w.books|
    ensures WellFormed(w.obligations[o]) && w.books[key].reserve.borrowIndex >= SCALE
    ensures RecordedPrincipal(w.obligations[o].borrows, key) <= w.books[key].reserve.borrowedPrincipal
  {
    assert BookReconciled(w.books[key], w.obligations, key);
    hide Sum, RecordedPrincipal;
    ElementWithinSum(PrincipalsIn(w.obligations, key), o);
  }

  /** In every reachable state a borrower with a debt can repay it, whatever oracles, pauses
      and other positions do: the books never underflow. A repayment fails only for a zero
      amount, a reserve not accrued, no such debt, or amounts beyond 64 bits. */
  lemma RepayIsAlwaysOpen(w: World, actions: seq<Action>, o: nat, key: Key, amount: u64)
    requires Initial(w) && o < |w.obligations| && key < |w.books|
    ensures var v := Run(w, actions);
      && o < |v.obligations| && key < |v.books|
      && var x, r := v.obligations[o], v.books[key].reserve;
         var i := BorrowIndex(x.borrows, key);
         RepayStep(x, key, r, amount, v.slot).Ok? <==>
           && amount > 0 && r.lastUpdateSlot == v.slot
           && i < |x.borrows| && DebtAt(x.borrows[i].borrowedPrincipal, r.borrowIndex).Ok?
           && r.availableLiquidity + Min(amount, Owed(x.borrows[i].borrowedPrincipal, r.borrowIndex)) <= U64_MAX
  {
    ReachableIsReconciled(w, actions);
    var v := Run(w, actions);
    hide Run, Initial, Reconciled, RepayStep, Owed, DebtAt;
    EntryWithinBooks(v, o, key);
    var x, i := v.obligations[o], BorrowIndex(v.obligations[o].borrows, key);
    if i < |x.borrows| { EntryIsRecord(x, i); }
    RepayIsOpen(x, key, v.books[key].reserve, amount, v.slot);
  }

  // ---------- what a liquidation may take ----------

  /** Shares that a position holds are outstanding. */
  lemma HeldSharesAreOutstanding(w: World, o: nat, key: Key)
    requires Reconciled(w) && o < |w.obligations| && key < |w.books|
    ensures RecordedShares(w.obligations[o].deposits, key) <= w.books[key].reserve.shareMintSupply
  {
    assert BookReconciled(w.books[key], w.obligations, key);
    hide Sum, RecordedShares, ReserveConfig.Valid;
    ReconciledRecords(w, o, key);
    ElementWithinSum(w.books[key].locked, o);
  }

  /** In every reachable state, an accepted liquidation is of a position past its line, repays
      at most the entry's debt, and takes shares that the position holds and that redeem for
      no more than the repayment and its bonus. */
  lemma ReachableLiquidationIsFair(w: World, actions: seq<Action>, a: Action)
    requires Initial(w) && a.LiquidatePosition? && Step(Run(w, actions), a).Ok?
    ensures var v := Run(w, actions);
      var x, r, c := v.obligations[a.position], v.books[a.repayKey].reserve, v.books[a.collateralKey].reserve;
      var step := LiquidateStep(x, a.repayKey, r, a.collateralKey, c, a.repayOracle, a.collateralOracle, a.shareBps,
                                a.amount, v.slot);
      && step.Ok? && x.borrowedValue > x.unhealthyBorrowValue
      && step.value.repaid <= Owed(RecordedPrincipal(x.borrows, a.repayKey), r.borrowIndex)
      && 0 < step.value.seized <= RecordedShares(x.deposits, a.collateralKey) <= c.shareMintSupply
      && Backed(c)
      && RedeemedValue(step.value.seized, c, a.collateralOracle.effectiveRate)
           <= RewardedValue(step.value.repaid, r, a.repayOracle.effectiveRate, c.config.liquidationBonusBps)
  {
    ReachableIsReconciled(w, actions);
    var v := Run(w, actions);
    hide Run, Initial, Reconciled, LiquidateStep, Settle, NothingLost;
    var x, r, c := v.obligations[a.position], v.books[a.repayKey].reserve, v.books[a.collateralKey].reserve;
    LiquidationIsFair(v, a.position, a.repayKey, a.collateralKey, a.repayOracle, a.collateralOracle, a.shareBps,
                      a.amount);
  }

  lemma LiquidationIsFair(v: World, o: nat, rk: Key, ck: Key, repayOracle: Quote, collateralOracle: Quote,
                          shareBps: u16, amount: u64)
    requires Reconciled(v) && o < |v.obligations| && rk < |v.books| && ck < |v.books|
    requires LiquidateStep(v.obligations[o], rk, v.books[rk].reserve, ck, v.books[ck].reserve, repayOracle,
                           collateralOracle, shareBps, amount, v.slot).Ok?
    ensures var x, r, c := v.obligations[o], v.books[rk].reserve, v.books[ck].reserve;
      var l := LiquidateStep(x, rk, r, ck, c, repayOracle, collateralOracle, shareBps, amount, v.slot).value;
      && x.borrowedValue > x.unhealthyBorrowValue
      && l.repaid <= Owed(RecordedPrincipal(x.borrows, rk), r.borrowIndex)
      && 0 < l.seized <= RecordedShares(x.deposits, ck) <= c.shareMintSupply
      && Backed(c)
      && RedeemedValue(l.seized, c, collateralOracle.effectiveRate)
           <= RewardedValue(l.repaid, r, repayOracle.effectiveRate, c.config.liquidationBonusBps)
  {
    var x, r, c := v.obligations[o], v.books[rk].reserve, v.books[ck].reserve;
    ConfigurationHolds(v, rk);
    ReconciledRecords(v, o, ck);
    HeldSharesAreOutstanding(v, o, ck);
    AcceptedLiquidation(x, rk, r, ck, c, repayOracle, collateralOracle, shareBps, amount, v.slot);
    var plan := PlanLiquidation(x, rk, r, ck, c, repayOracle, collateralOracle, amount, v.slot).value;
    hide Reconciled, LiquidateStep, PlanLiquidation, WellFormed, Owed, RedeemedValue, RewardedValue, RecordedShares,
      RecordedPrincipal, TakeCollateral, TakePrincipal, SplitSeized, Receive;
    TakeCollateralRecords(x.deposits, plan.deposit, plan.seized, ck);
    LiquidationRepaysDebt(x, rk, r, ck, c, repayOracle, collateralOracle, shareBps, amount, v.slot);
    LiquidationSeizesFairly(x, rk, r, ck, c, repayOracle, collateralOracle, shareBps, amount, v.slot);
  }

  lemma ConfigurationHolds(w: World, key: Key)
    requires Reconciled(w) && key < |w.books|
    ensures w.books[key].reserve.config.closeFactorBps <= BPS
  {
    assert BookReconciled(w.books[key], w.obligations, key);
    hide Balanced, Matches;
  }
}
