/** Supplying and withdrawing in any order makes nobody richer at anybody's expense.

The wealth of a group is its tokens plus the exact, unrounded value of its shares. A group's
own supplies and withdrawals never raise its wealth; everyone else's never lower it. */
module Churn {
  import opened FixedPoint
  import opened Reserves
  import opened PoolSteps
  import opened Sums
  import opened Books

  predicate IsChurn(op: BookOp) { op.SupplyTokens? || op.RedeemShares? }

  /** What the members of `group` hold together. */
  function HeldBy(xs: seq<nat>, group: set<nat>): nat {
    Sum(Masked(xs, group))
  }

  function Masked(xs: seq<nat>, group: set<nat>): (ys: seq<nat>)
    ensures |ys| == |xs| && forall i :: 0 <= i < |xs| ==> ys[i] == if i in group then xs[i] else 0
  {
    seq(|xs|, i requires 0 <= i < |xs| => if i in group then xs[i] else 0)
  }

  /** Wealth times the share supply: tokens at face, shares at Total / shareMintSupply. */
  function Wealth(b: Book, group: set<nat>): int {
    HeldBy(b.cash, group) * b.reserve.shareMintSupply + HeldBy(b.shares, group) * b.reserve.Total()
  }

  /** The wealth of `group` in `c` is at most what it was in `b`, cross-multiplied. */
  predicate NotRicher(b: Book, c: Book, group: set<nat>) {
    Wealth(c, group) * b.reserve.shareMintSupply <= Wealth(b, group) * c.reserve.shareMintSupply
  }

  function BookAfter(b: Book, op: BookOp, slot: u64): Book {
    match BookStep(b, op, slot)
    case Ok(c) => c
    case Err(_) => b
  }

  function BookRun(b: Book, ops: seq<BookOp>, slot: u64): Book
    decreases ops
  {
    if ops == [] then b else BookRun(BookAfter(b, ops[0], slot), ops[1..], slot)
  }

  ghost predicate SharesBefore(b: Book, ops: seq<BookOp>, slot: u64)
    decreases ops
  {
    ops == [] || (b.reserve.shareMintSupply > 0 && SharesBefore(BookAfter(b, ops[0], slot), ops[1..], slot))
  }

  // ---------- one step ----------

  lemma HeldAfterUpdate(xs: seq<nat>, i: nat, v: nat, group: set<nat>)
    requires i < |xs|
    ensures HeldBy(xs[i := v], group) + (if i in group then xs[i] else 0)
        == HeldBy(xs, group) + if i in group then v else 0
  {
    SumsDifferAt(Masked(xs, group), Masked(xs[i := v], group), i);
  }

  lemma {:induction false} HeldWithinSum(xs: seq<nat>, group: set<nat>)
    ensures HeldBy(xs, group) <= Sum(xs)
  {
    if xs != [] {
      var n := |xs| - 1;
      HeldWithinSum(xs[..n], group);
      assert Masked(xs, group)[..n] == Masked(xs[..n], group);
    }
  }

  /** A churn step trades tokens for shares with the pool: the actor's tokens and the pool's
      total keep their sum, and everyone else's shares are untouched. */
  lemma ChurnTrades(b: Book, op: BookOp, slot: u64, group: set<nat>)
    requires IsChurn(op) && BookStep(b, op, slot).Ok?
    ensures var c := BookStep(b, op, slot).value;
      if op.who in group then
        && HeldBy(c.cash, group) + c.reserve.Total() == HeldBy(b.cash, group) + b.reserve.Total()
        && c.reserve.shareMintSupply - HeldBy(c.shares, group) == b.reserve.shareMintSupply - HeldBy(b.shares, group)
      else HeldBy(c.cash, group) == HeldBy(b.cash, group) && HeldBy(c.shares, group) == HeldBy(b.shares, group)
  {
    hide HeldBy, ReserveState.LiquidityToShares, ReserveState.SharesToLiquidity, CheckSupplyCap;
    var c := BookStep(b, op, slot).value;
    HeldAfterUpdate(b.cash, op.who, c.cash[op.who], group);
    HeldAfterUpdate(b.shares, op.who, c.shares[op.who], group);
  }

  /** Whoever trades at a price that rises behind them, gives some of it to the others. */
  lemma TraderNeverGains(cash: nat, shares: nat, total: nat, supply: nat, cash': nat, shares': nat, total': nat,
                         supply': nat)
    requires cash' + total' == cash + total && supply' - shares' == supply - shares >= 0
    requires total' * supply >= total * supply'
    ensures (cash' * supply' + shares' * total') * supply <= (cash * supply + shares * total) * supply'
  {
    var rest, all := supply - shares, cash + total;
    assert cash' * supply' + shares' * total' == all * supply' - rest * total';
    assert cash * supply + shares * total == all * supply - rest * total;
    MulMonoInt(total * supply', total' * supply, rest);
    assert (all * supply' - rest * total') * supply == all * supply' * supply - rest * (total' * supply);
    assert (all * supply - rest * total) * supply' == all * supply * supply' - rest * (total * supply');
  }

  lemma HolderNeverLoses(cash: nat, shares: nat, total: nat, supply: nat, total': nat, supply': nat)
    requires total' * supply >= total * supply'
    ensures (cash * supply' + shares * total') * supply >= (cash * supply + shares * total) * supply'
  {
    MulMonoInt(total * supply', total' * supply, shares);
    assert (cash * supply' + shares * total') * supply == cash * supply' * supply + shares * (total' * supply);
    assert (cash * supply + shares * total) * supply' == cash * supply * supply' + shares * (total * supply');
  }

  /** A book whose price is defined, and whose share count is right. */
  ghost predicate Priced(b: Book) { Balanced(b) && Backed(b.reserve) && b.reserve.config.Valid() }

  lemma ChurnKeepsPriced(b: Book, op: BookOp, slot: u64)
    requires Priced(b) && BookStep(b, op, slot).Ok?
    ensures var c := BookStep(b, op, slot).value;
      Priced(c) && (b.reserve.shareMintSupply > 0 ==> PriceKept(b.reserve, c.reserve))
  {
    hide Balanced, Backed, BookStep, ReserveConfig.Valid, PriceKept;
    BookStepConserves(b, op, slot);
    BookStepKeepsPrice(b, op, slot);
  }

  /** A member's step never enriches the group; an outsider's step never costs it. */
  lemma ChurnStepIsFair(b: Book, op: BookOp, slot: u64, group: set<nat>)
    requires Priced(b) && IsChurn(op) && b.reserve.shareMintSupply > 0
    ensures var c := BookAfter(b, op, slot);
      && Priced(c)
      && (op.who in group ==> NotRicher(b, c, group))
      && (op.who !in group ==> NotRicher(c, b, group))
  {
    if BookStep(b, op, slot).Ok? {
      var c := BookStep(b, op, slot).value;
      ChurnTrades(b, op, slot, group);
      ChurnKeepsPriced(b, op, slot);
      HeldWithinSum(b.shares, group);
      assert b.reserve.Total() >= 0 && c.reserve.Total() >= 0 && HeldBy(b.shares, group) <= b.reserve.shareMintSupply;
      hide *;
      TradeIsFair(b, c, group, op.who in group);
    }
  }

  lemma TradeIsFair(b: Book, c: Book, group: set<nat>, member: bool)
    requires b.reserve.Total() >= 0 && c.reserve.Total() >= 0 && HeldBy(b.shares, group) <= b.reserve.shareMintSupply
    requires PriceKept(b.reserve, c.reserve)
    requires if member then
        && HeldBy(c.cash, group) + c.reserve.Total() == HeldBy(b.cash, group) + b.reserve.Total()
        && c.reserve.shareMintSupply - HeldBy(c.shares, group) == b.reserve.shareMintSupply - HeldBy(b.shares, group)
      else HeldBy(c.cash, group) == HeldBy(b.cash, group) && HeldBy(c.shares, group) == HeldBy(b.shares, group)
    ensures if member then NotRicher(b, c, group) else NotRicher(c, b, group)
  {
    hide HeldBy, ReserveState.Total;
    if member {
      TraderNeverGains(HeldBy(b.cash, group), HeldBy(b.shares, group), b.reserve.Total(), b.reserve.shareMintSupply,
                       HeldBy(c.cash, group), HeldBy(c.shares, group), c.reserve.Total(), c.reserve.shareMintSupply);
    } else {
      HolderNeverLoses(HeldBy(b.cash, group), HeldBy(b.shares, group), b.reserve.Total(), b.reserve.shareMintSupply,
                       c.reserve.Total(), c.reserve.shareMintSupply);
    }
  }

  // ---------- whole runs ----------

  lemma NotRicherChains(a: Book, b: Book, c: Book, group: set<nat>)
    requires NotRicher(a, b, group) && NotRicher(b, c, group) && b.reserve.shareMintSupply > 0
    ensures NotRicher(a, c, group)
  {
    RatiosChain(Wealth(c, group), c.reserve.shareMintSupply, Wealth(b, group), b.reserve.shareMintSupply,
                Wealth(a, group), a.reserve.shareMintSupply);
  }

  lemma NotRicherThanItself(b: Book, group: set<nat>)
    ensures NotRicher(b, b, group)
  {
  }

  /** No profit from churning: supplies and withdrawals among the members of a group, in any
      interleaving, leave the group no richer. */
  lemma {:induction false} ChurnNeverPays(b: Book, ops: seq<BookOp>, slot: u64, group: set<nat>)
    requires Priced(b) && SharesBefore(b, ops, slot)
    requires forall i :: 0 <= i < |ops| ==> IsChurn(ops[i]) && ops[i].who in group
    ensures NotRicher(b, BookRun(b, ops, slot), group)
    decreases ops
  {
    hide Priced, BookAfter, NotRicher;
    NotRicherThanItself(b, group);
    if ops != [] {
      var c := BookAfter(b, ops[0], slot);
      ChurnStepIsFair(b, ops[0], slot, group);
      ChurnNeverPays(c, ops[1..], slot, group);
      if |ops| > 1 { NotRicherChains(b, c, BookRun(b, ops, slot), group); }
    }
  }

  /** Outsiders' claims never fall, whatever the others supply and withdraw. */
  lemma {:induction false} ChurnNeverCosts(b: Book, ops: seq<BookOp>, slot: u64, group: set<nat>)
    requires Priced(b) && SharesBefore(b, ops, slot)
    requires forall i :: 0 <= i < |ops| ==> IsChurn(ops[i]) && ops[i].who !in group
    ensures NotRicher(BookRun(b, ops, slot), b, group)
    decreases ops
  {
    hide Priced, BookAfter, NotRicher;
    NotRicherThanItself(b, group);
    if ops != [] {
      var c := BookAfter(b, ops[0], slot);
      ChurnStepIsFair(b, ops[0], slot, group);
      ChurnNeverCosts(c, ops[1..], slot, group);
      if |ops| > 1 { NotRicherChains(BookRun(b, ops, slot), c, b, group); }
    }
  }
}
