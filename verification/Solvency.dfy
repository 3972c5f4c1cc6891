/** Share price and solvency over whole runs. */
module Solvency {
  import opened FixedPoint
  import opened Debts
  import opened Reserves
  import opened PoolSteps
  import opened Obligations
  import opened Lending
  import opened LiquidationLaws
  import opened Sums
  import opened Books
  import opened Ledger
  import opened LedgerLaws

  // ---------- the share price over runs ----------

  /** The one instruction that may lower a share price. */
  predicate Absorbs(a: Action, key: Key) { a.OnPosition? && a.key == key && a.op.AbsorbDebt? }

  lemma PositionStepKeepsPrice(b: Book, key: Key, x: ObligationState, o: nat, who: nat, op: PositionOp, slot: u64)
    requires PositionStep(b, key, x, o, who, op, slot).Ok? && Backed(b.reserve) && !op.AbsorbDebt?
    ensures var r := PositionStep(b, key, x, o, who, op, slot).value.book.reserve;
      Backed(r) && PriceKept(b.reserve, r) && r.config == b.reserve.config
  {
    hide Lend, Receive, RemovedAllowed, AdmitBorrow, DebtAt, CheckIsolation, PutCollateral, PutPrincipal, TakePrincipal;
    match op
    case Draw(_, _, amount) => DrawnPrice(b.reserve, amount);
    case PayBack(amount) =>
      PaidPrice(b.reserve, x.borrows[BorrowIndex(x.borrows, key)].borrowedPrincipal,
                RepayStep(x, key, b.reserve, amount, slot).value.paid);
    case LockShares(_) => SameSupplyKeepsPrice(b.reserve, b.reserve);
    case ReleaseShares(_, _) => SameSupplyKeepsPrice(b.reserve, b.reserve);
  }

  lemma DrawnPrice(r: ReserveState, amount: u64)
    requires Lend(r, amount).Ok? && Backed(r)
    ensures var s := Lend(r, amount).value.reserve; Backed(s) && PriceKept(r, s) && s.config == r.config
  {
    LendKeepsPrice(r, amount);
  }

  lemma PaidPrice(r: ReserveState, principal: u128, paid: u64)
    requires Receive(r, principal, paid).Ok? && Backed(r)
    ensures var s := Receive(r, principal, paid).value.reserve; Backed(s) && PriceKept(r, s) && s.config == r.config
  {
    ReceiveKeepsPrice(r, principal, paid);
  }

  lemma LiquidationKeepsPrice(w: World, a: Action, key: Key)
    requires key < |w.books| && a.LiquidatePosition? && Step(w, a).Ok? && Backed(w.books[key].reserve)
    ensures var r := After(w, a).books[key].reserve;
      Backed(r) && PriceKept(w.books[key].reserve, r) && r.config == w.books[key].reserve.config
  {
    var rk, ck := a.repayKey, a.collateralKey;
    AcceptedLiquidation(w.obligations[a.position], rk, w.books[rk].reserve, ck, w.books[ck].reserve,
                        a.repayOracle, a.collateralOracle, a.shareBps, a.amount, w.slot);
    hide LiquidateStep, PlanLiquidation, Receive, TakePrincipal, TakeCollateral, Backed, PriceKept;
    if key == rk {
      PaidPrice(w.books[rk].reserve, w.obligations[a.position].borrows[PlanLiquidation(w.obligations[a.position], rk,
        w.books[rk].reserve, ck, w.books[ck].reserve, a.repayOracle, a.collateralOracle, a.amount,
          w.slot).value.borrow].borrowedPrincipal,
        LiquidateStep(w.obligations[a.position], rk, w.books[rk].reserve, ck, w.books[ck].reserve,
                      a.repayOracle, a.collateralOracle, a.shareBps, a.amount, w.slot).value.repaid);
    } else {
      SamePrice(w.books[key].reserve);
    }
  }

  lemma SamePrice(r: ReserveState)
    ensures PriceKept(r, r)
  {
  }

  /** Fees covered by assets, under a valid configuration. */
  predicate Sound(r: ReserveState) { Backed(r) && r.config.Valid() }

  lemma StepKeepsPrice(w: World, a: Action, key: Key)
    requires key < |w.books| == |After(w, a).books| && Sound(w.books[key].reserve) && !Absorbs(a, key)
    ensures var r := After(w, a).books[key].reserve;
      Sound(r) && (w.books[key].reserve.shareMintSupply > 0 ==> PriceKept(w.books[key].reserve, r))
  {
    hide BookStep, PositionStep, LiquidateStep, Backed, ReserveConfig.Valid, PriceKept, Settle;
    SamePrice(w.books[key].reserve);
    if Step(w, a).Ok? {
      match a
      case OnBook(j, op) =>
        if j == key {
          BookStepKeepsPrice(w.books[key], op, w.slot);
          BookStepConserves(w.books[key], op, w.slot);
        }
      case OnPosition(who, o, j, op) =>
        if j == key { PositionStepKeepsPrice(w.books[key], key, w.obligations[o], o, who, op, w.slot); }
      case LiquidatePosition(_, _, _, _, _, _, _, _, _) => LiquidationKeepsPrice(w, a, key);
      case _ =>
    }
  }

  /** Shares of `key` exist before every step of the run. */
  ghost predicate SharesThroughout(w: World, actions: seq<Action>, key: Key)
    decreases actions
  {
    key < |w.books| && (actions == [] || (w.books[key].reserve.shareMintSupply > 0
                                          && SharesThroughout(After(w, actions[0]), actions[1..], key)))
  }

  ghost predicate NeverAbsorbs(actions: seq<Action>, key: Key) {
    forall i :: 0 <= i < |actions| ==> !Absorbs(actions[i], key)
  }

  /** As long as no bad debt of the reserve is absorbed, its fees stay covered. */
  lemma {:induction false} RunKeepsSound(w: World, actions: seq<Action>, key: Key)
    requires Reconciled(w) && key < |w.books| && Sound(w.books[key].reserve) && NeverAbsorbs(actions, key)
    ensures key < |Run(w, actions).books| && Sound(Run(w, actions).books[key].reserve)
    decreases actions
  {
    hide Reconciled, Sound, After, Absorbs;
    if actions != [] {
      StepKeepsReconciled(w, actions[0]);
      StepKeepsPrice(w, actions[0], key);
      RunKeepsSound(After(w, actions[0]), actions[1..], key);
    }
  }

  /** The share price never falls over a run that absorbs no bad debt of the reserve and
      finds shares outstanding before every step. */
  lemma {:induction false} RunKeepsPrice(w: World, actions: seq<Action>, key: Key)
    requires Reconciled(w) && key < |w.books| && Sound(w.books[key].reserve)
    requires NeverAbsorbs(actions, key) && SharesThroughout(w, actions, key)
    ensures key < |Run(w, actions).books| && PriceKept(w.books[key].reserve, Run(w, actions).books[key].reserve)
    decreases actions
  {
    hide Reconciled, Sound, After, Absorbs, PriceKept;
    if actions == [] {
      SamePrice(w.books[key].reserve);
    } else {
      var v := After(w, actions[0]);
      StepKeepsReconciled(w, actions[0]);
      StepKeepsPrice(w, actions[0], key);
      RunKeepsPrice(v, actions[1..], key);
      if |actions| > 1 {
        PriceKeptIsTransitive(w.books[key].reserve, v.books[key].reserve, Run(w, actions).books[key].reserve);
      }
    }
  }

  // ---------- solvency ----------

  /** What each of `holdings` would be paid, floored, if redeemed alone. */
  function Redemptions(holdings: seq<nat>, total: nat, supply: nat): (xs: seq<nat>)
    requires supply > 0
    ensures |xs| == |holdings| && forall i :: 0 <= i < |xs| ==> xs[i] == FloorDiv(holdings[i] * total, supply)
  {
    seq(|holdings|, i requires 0 <= i < |holdings| => FloorDiv(holdings[i] * total, supply))
  }

  lemma {:induction false} RedemptionsWithin(holdings: seq<nat>, total: nat, supply: nat)
    requires supply > 0
    ensures Sum(Redemptions(holdings, total, supply)) * supply <= Sum(holdings) * total
  {
    hide FloorDiv;
    if holdings != [] {
      var n, xs := |holdings| - 1, Redemptions(holdings, total, supply);
      RedemptionsWithin(holdings[..n], total, supply);
      assert xs[..n] == Redemptions(holdings[..n], total, supply);
      LastOfSum(xs);
      LastOfSum(holdings);
      hide Sum;
      OneMoreRedemption(Sum(xs[..n]), Sum(holdings[..n]), xs[n], holdings[n], total, supply);
    } else {
      assert 0 * supply == 0;
    }
  }

  lemma OneMoreRedemption(paid: nat, held: nat, out: nat, shares: nat, total: nat, supply: nat)
    requires paid * supply <= held * total && out * supply <= shares * total
    ensures (paid + out) * supply <= (held + shares) * total
  {
    assert (paid + out) * supply == paid * supply + out * supply;
    assert (held + shares) * total == held * total + shares * total;
  }

  /** What each of `principals` is owed, rounded up on its own. */
  function IndividualDebts(principals: seq<nat>, index: nat): (xs: seq<nat>)
    ensures |xs| == |principals| && forall i :: 0 <= i < |xs| ==> xs[i] == Owed(principals[i], index)
  {
    seq(|principals|, i requires 0 <= i < |principals| => Owed(principals[i], index))
  }

  function Borrowers(principals: seq<nat>): nat {
    if principals == [] then 0
    else Borrowers(principals[..|principals| - 1]) + if principals[|principals| - 1] > 0 then 1 else 0
  }

  /** Debts rounded up one by one cover the joint debt, and exceed it by less than one unit
      per borrower. */
  lemma {:induction false} DebtsCoverJointDebt(principals: seq<nat>, index: nat)
    ensures Owed(Sum(principals), index) <= Sum(IndividualDebts(principals, index))
    ensures if Borrowers(principals) == 0 then Sum(IndividualDebts(principals, index)) == 0
            else Sum(IndividualDebts(principals, index)) < Owed(Sum(principals), index) + Borrowers(principals)
    ensures Borrowers(principals) == 0 ==> Sum(principals) == 0
  {
    NoPrincipalNoDebt(index);
    hide Owed;
    if principals != [] {
      var n := |principals| - 1;
      DebtsCoverJointDebt(principals[..n], index);
      assert IndividualDebts(principals, index)[..n] == IndividualDebts(principals[..n], index);
      OwedOfSum(Sum(principals[..n]), principals[n], index);
    }
  }

  /** Everyone's floored redemption and the protocol's fees together are within the vault's
      liquidity and the reserve's debt. */
  predicate ClaimsCovered(b: Book)
    requires Backed(b.reserve) && b.reserve.shareMintSupply > 0
  {
    var r := b.reserve;
    && r.availableLiquidity <= b.vault
    && Sum(Redemptions(b.shares, r.Total(), r.shareMintSupply))
        + Sum(Redemptions(b.locked, r.Total(), r.shareMintSupply))
         + r.accruedFees <= r.availableLiquidity + r.Debt()
  }

  /** The borrowers' own debts cover the reserve's, to within one unit each. */
  predicate DebtCovered(r: ReserveState, principals: seq<nat>) {
    var debts := Sum(IndividualDebts(principals, r.borrowIndex));
    r.Debt() <= debts && if Borrowers(principals) == 0 then debts == 0 else debts < r.Debt() + Borrowers(principals)
  }

  lemma Solvent(w: World, key: Key)
    requires Reconciled(w) && key < |w.books| && Backed(w.books[key].reserve)
    ensures w.books[key].reserve.shareMintSupply > 0 ==> ClaimsCovered(w.books[key])
    ensures DebtCovered(w.books[key].reserve, PrincipalsIn(w.obligations, key))
  {
    assert BookReconciled(w.books[key], w.obligations, key);
    var b, r := w.books[key], w.books[key].reserve;
    DebtsCoverJointDebt(PrincipalsIn(w.obligations, key), r.borrowIndex);
    hide Owed, Sum, Borrowers, ReserveConfig.Valid, Reconciled;
    if r.shareMintSupply > 0 {
      var total: nat, supply := r.Total(), r.shareMintSupply;
      RedemptionsWithin(b.shares, total, supply);
      RedemptionsWithin(b.locked, total, supply);
      ShareOfTotal(Sum(Redemptions(b.shares, total, supply)), Sum(Redemptions(b.locked, total, supply)), Sum(b.shares),
                   Sum(b.locked), total, supply);
    }
  }

  lemma ShareOfTotal(a: nat, b: nat, x: nat, y: nat, total: nat, supply: nat)
    requires supply > 0 && x + y <= supply && a * supply <= x * total && b * supply <= y * total
    ensures a + b <= total
  {
    assert (a + b) * supply == a * supply + b * supply && (x + y) * total == x * total + y * total;
    MulMono(x + y, supply, total);
    if a + b > total { MulMono(total + 1, a + b, supply); }
  }

  /** Solvency in every reachable state, on runs that absorb no bad debt of the reserve, for
      any number of holders and borrowers. */
  lemma ReachableIsSolvent(w: World, actions: seq<Action>, key: Key)
    requires Initial(w) && key < |w.books| && NeverAbsorbs(actions, key)
    ensures key < |Run(w, actions).books| && Backed(Run(w, actions).books[key].reserve)
    ensures Run(w, actions).books[key].reserve.shareMintSupply > 0 ==> ClaimsCovered(Run(w, actions).books[key])
    ensures DebtCovered(Run(w, actions).books[key].reserve, PrincipalsIn(Run(w, actions).obligations, key))
  {
    InitialIsReconciled(w);
    assert FreshBook(w.books[key], |w.obligations|);
    NoPrincipalNoDebt(SCALE);
    hide Initial, FreshBook, Reconciled, ClaimsCovered, DebtCovered, Run;
    RunKeepsReconciled(w, actions);
    RunKeepsSound(w, actions, key);
    Solvent(Run(w, actions), key);
  }

  /** Positive supply is needed for the price to be kept. Once the last share is redeemed,
      what later interest and roundings leave in the pool goes to whoever supplies next, at one
      share a unit. */
  lemma EmptyPoolForgetsItsPrice(r: ReserveState, amount: u64, slot: u64)
    requires r.shareMintSupply == 0 && Supply(r, amount, slot).Ok?
    ensures PriceKept(r, Supply(r, amount, slot).value.reserve) <==> r.Total() <= 0
  {
    var s := Supply(r, amount, slot).value.reserve;
    assert s.shareMintSupply == amount > 0;
    assert s.Total() * 0 == 0;
    if r.Total() > 0 { MulMono(1, amount, r.Total()); } else { MulMonoInt(r.Total(), 0, amount); }
  }
}
