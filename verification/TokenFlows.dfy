/** Whose tokens move. The ledger's laws say that nothing is lost; these say where it goes, for
every account and every vault. */
module TokenFlows {
  import opened Wrappers
  import opened FixedPoint
  import opened Reserves
  import opened PoolSteps
  import opened Health
  import opened Obligations
  import opened Lending
  import opened Books
  import opened Ledger

  /** The same balances but for `n` more at `i`. */
  predicate Gains(before: seq<nat>, after: seq<nat>, i: nat, n: nat) {
    && i < |before| == |after|
    && forall k :: 0 <= k < |before| ==> after[k] == before[k] + if k == i then n else 0
  }

  /** The other way round: `n` less at `i`. */
  predicate Loses(before: seq<nat>, after: seq<nat>, i: nat, n: nat) { Gains(after, before, i, n) }

  // ---------- suppliers and the protocol ----------

  /** A supplier's tokens go into the vault, and the shares minted for them to the supplier. */
  lemma SupplyMoves(b: Book, who: nat, amount: u64, slot: u64)
    requires BookStep(b, SupplyTokens(who, amount), slot).Ok?
    ensures var c, s := BookStep(b, SupplyTokens(who, amount), slot).value, Supply(b.reserve, amount, slot);
      && s.Ok? && c.vault == b.vault + amount
      && Loses(b.cash, c.cash, who, amount) && Gains(b.shares, c.shares, who, s.value.shares)
      && c == b.(reserve := s.value.reserve, vault := c.vault, cash := c.cash, shares := c.shares)
  {
    hide Supply;
  }

  /** A redeemer's shares are burned, and the vault pays their worth to the redeemer. */
  lemma RedeemMoves(b: Book, who: nat, shares: u64, slot: u64)
    requires BookStep(b, RedeemShares(who, shares), slot).Ok?
    ensures var c, s := BookStep(b, RedeemShares(who, shares), slot).value, Redeem(b.reserve, shares, slot);
      && s.Ok? && c.vault + s.value.liquidity == b.vault
      && Gains(b.cash, c.cash, who, s.value.liquidity) && Loses(b.shares, c.shares, who, shares)
      && c == b.(reserve := s.value.reserve, vault := c.vault, cash := c.cash, shares := c.shares)
  {
    hide Redeem;
  }

  /** Fees go from the vault to their owner. */
  lemma FeesMove(b: Book, owner: nat, slot: u64)
    requires BookStep(b, PayFees(owner), slot).Ok?
    ensures var c, s := BookStep(b, PayFees(owner), slot).value, CollectFees(b.reserve, slot);
      && s.Ok? && c.vault + s.value.liquidity == b.vault && Gains(b.cash, c.cash, owner, s.value.liquidity)
      && c == b.(reserve := s.value.reserve, vault := c.vault, cash := c.cash)
  {
    hide CollectFees;
  }

  // ---------- positions ----------

  /** A borrower is paid out of the vault. */
  lemma DrawMoves(b: Book, key: Key, x: ObligationState, o: nat, who: nat, oracle: Quote, walletCap: u64, amount: u64,
                  slot: u64)
    requires PositionStep(b, key, x, o, who, Draw(oracle, walletCap, amount), slot).Ok?
    ensures var t, s := PositionStep(b, key, x, o, who, Draw(oracle, walletCap, amount), slot).value,
                        BorrowStep(x, key, b.reserve, oracle, walletCap, amount, slot);
      && s.Ok? && t.obligation == s.value.obligation
      && t.book.vault + s.value.paidOut == b.vault && Gains(b.cash, t.book.cash, who, s.value.paidOut)
      && t.book == b.(reserve := s.value.reserve, vault := t.book.vault, cash := t.book.cash)
  {
    hide BorrowStep;
  }

  /** A repayment goes into it. */
  lemma PayBackMoves(b: Book, key: Key, x: ObligationState, o: nat, who: nat, amount: u64, slot: u64)
    requires PositionStep(b, key, x, o, who, PayBack(amount), slot).Ok?
    ensures var t, s := PositionStep(b, key, x, o, who, PayBack(amount), slot).value,
                        RepayStep(x, key, b.reserve, amount, slot);
      && s.Ok? && t.obligation == s.value.obligation
      && t.book.vault == b.vault + s.value.paid && Loses(b.cash, t.book.cash, who, s.value.paid)
      && t.book == b.(reserve := s.value.reserve, vault := t.book.vault, cash := t.book.cash)
  {
    hide RepayStep;
  }

  /** Shares go from their owner into this position's vault alone, and back. */
  lemma SharesMove(b: Book, key: Key, x: ObligationState, o: nat, who: nat, oracle: Quote, shares: u64, slot: u64)
    ensures var step := PositionStep(b, key, x, o, who, LockShares(shares), slot);
      step.Ok? ==>
        && DepositCollateralStep(x, key, b.reserve, shares) == Ok(step.value.obligation)
        && Loses(b.shares, step.value.book.shares, who, shares) && Gains(b.locked, step.value.book.locked, o, shares)
        && step.value.book == b.(shares := step.value.book.shares, locked := step.value.book.locked)
    ensures var step := PositionStep(b, key, x, o, who, ReleaseShares(oracle, shares), slot);
      step.Ok? ==>
        && WithdrawCollateralStep(x, key, b.reserve, oracle, shares, slot) == Ok(step.value.obligation)
        && Gains(b.shares, step.value.book.shares, who, shares) && Loses(b.locked, step.value.book.locked, o, shares)
        && step.value.book == b.(shares := step.value.book.shares, locked := step.value.book.locked)
  {
    hide DepositCollateralStep, WithdrawCollateralStep;
  }

  // ---------- liquidation ----------

  /** Seized shares leave the position's vault, the liquidator's to the liquidator and the
      protocol's to the fee owner, who may be the same. */
  lemma RewardMoves(b: Book, o: nat, who: nat, toLiquidator: nat, feeOwner: nat, toProtocol: nat)
    requires Reward(b, o, who, toLiquidator, feeOwner, toProtocol).Ok?
    ensures var c := Reward(b, o, who, toLiquidator, feeOwner, toProtocol).value;
      && c == b.(shares := c.shares, locked := c.locked) && |c.shares| == |b.shares|
      && Loses(b.locked, c.locked, o, toLiquidator + toProtocol)
      && forall k :: 0 <= k < |b.shares| ==>
           c.shares[k] - b.shares[k]
             == (if k == who then toLiquidator else 0) + (if k == feeOwner then toProtocol else 0)
  {
  }

  /** A liquidation: the liquidator's tokens into the repaid reserve's vault, the seized shares
      out of the position's vault at the other reserve, and no other book touched. */
  lemma LiquidationMoves(w: World, who: nat, feeOwner: nat, o: nat, rk: Key, ck: Key, l: Liquidation)
    requires rk < |w.books| && ck < |w.books| && Settle(w.books, o, l, who, feeOwner, rk, ck).Ok?
    ensures var books := Settle(w.books, o, l, who, feeOwner, rk, ck).value;
      && |books| == |w.books| && (forall k :: 0 <= k < |books| && k != rk && k != ck ==> books[k] == w.books[k])
      && var (r, s, c, d) := (w.books[rk], books[rk], w.books[ck], books[ck]);
         && s.reserve == l.reserve && s.vault == r.vault + l.repaid && Loses(r.cash, s.cash, who, l.repaid)
         && Loses(c.locked, d.locked, o, l.toLiquidator + l.toProtocol) && |d.shares| == |c.shares|
         && (forall k :: 0 <= k < |c.shares| ==>
               d.shares[k] - c.shares[k]
                 == (if k == who then l.toLiquidator else 0) + (if k == feeOwner then l.toProtocol else 0))
         && (rk != ck ==>
               && s == r.(reserve := s.reserve, vault := s.vault, cash := s.cash)
               && d == c.(shares := d.shares, locked := d.locked))
  {
    var paid := PayIn(w.books[rk].(reserve := l.reserve), who, l.repaid).value;
    RewardMoves(w.books[rk := paid][ck], o, who, l.toLiquidator, feeOwner, l.toProtocol);
    hide Reward;
  }
}
