/** What a position is worth (refresh_obligation.rs).

Collateral value floors and debt value ceils, at every step. `Worth` is what one
collateral entry contributes; the refresh adds those up, entry by entry, reading one
reserve-and-oracle pair per entry in order. */
module Valuation {
  import opened Wrappers
  import opened FixedPoint
  import opened Debts
  import opened Reserves
  import opened Health
  import opened Obligations

  /** One `[reserve, oracle]` pair handed to the refresh. */
  datatype Pair = Pair(key: Key, reserve: ReserveState, oracle: Quote)

  /** Face value, value after the haircut, and the two limits derived from it. */
  datatype Worth = Worth(face: nat, effective: nat, allowed: nat, unhealthy: nat)
  {
    function Plus(w: Worth): Worth {
      Worth(face + w.face, effective + w.effective, allowed + w.allowed, unhealthy + w.unhealthy)
    }

    predicate AtMost(w: Worth) {
      face <= w.face && effective <= w.effective && allowed <= w.allowed && unhealthy <= w.unhealthy
    }

    predicate Fits() {
      face <= U128_MAX && effective <= U128_MAX && allowed <= U128_MAX && unhealthy <= U128_MAX
    }
  }

  const NOTHING := Worth(0, 0, 0, 0)

  /** The pair the cursor stands on, if it is the expected one and current. */
  function ReadPair(pairs: seq<Pair>, cursor: nat, expected: Key, slot: u64): (p: Result<Pair>)
    ensures p.Ok? ==> cursor < |pairs| && p.value == pairs[cursor] && p.value.key == expected
  {
    var _ :- Need(cursor < |pairs| && pairs[cursor].key == expected, InvalidObligationAccount);
    var _ :- pairs[cursor].reserve.RequireAccrued(slot);
    var _ :- pairs[cursor].oracle.RequireFresh(slot);
    var _ :- pairs[cursor].oracle.Rate();
    Ok(pairs[cursor])
  }

  /** An oracle that would not permit new risk marks the position as stressed. */
  predicate Stressed(q: Quote) { !q.health.Permits(Borrow) }

  function ApplyHaircut(value: u128, haircutBps: u16): Result<u128> {
    var keep :- CheckedSub(BPS, haircutBps);
    MulDivFloor(value, keep, BPS)
  }

  /** What `shares` of the pair's reserve contribute. */
  function SharesWorth(shares: u64, p: Pair): Result<Worth> {
    var liquidity :- p.reserve.SharesToLiquidity(shares, Down);
    var face :- MarketValue(liquidity, p.reserve.liquidityDecimals, p.oracle.effectiveRate, Down);
    var effective :- ApplyHaircut(face, p.reserve.config.collateralHaircutBps);
    var allowed :- MulDivFloor(effective, p.reserve.config.loanToValueBps, BPS);
    var unhealthy :- MulDivFloor(effective, p.reserve.config.liquidationThresholdBps, BPS);
    Ok(Worth(face, effective, allowed, unhealthy))
  }

  /** What `principal` of the pair's reserve is owed as a value. */
  function DebtWorth(principal: u128, p: Pair): Result<u128> {
    var debt :- DebtAt(principal, p.reserve.borrowIndex);
    MarketValue(debt, p.reserve.liquidityDecimals, p.oracle.effectiveRate, Up)
  }

  function AddWorth(total: Worth, w: Worth): Result<Worth> {
    if total.Plus(w).Fits() then Ok(total.Plus(w)) else Err(MathOverflow)
  }

  datatype DepositsValued = DepositsValued(entries: seq<Collateral>, total: Worth, stressed: bool)
  datatype BorrowsValued = BorrowsValued(entries: seq<Liability>, total: nat, stressed: bool)

  /** One turn of the first loop: entry `i`, valued at its pair, joins the running sums. */
  function ValueDeposit(sums: DepositsValued, d: Collateral, pairs: seq<Pair>, i: nat, slot: u64)
    : Result<DepositsValued>
  {
    var p :- ReadPair(pairs, i, d.reserve, slot);
    var w :- SharesWorth(d.depositedShares, p);
    var total :- AddWorth(sums.total, w);
    Ok(DepositsValued(sums.entries + [d.(marketValue := w.face)], total, sums.stressed || Stressed(p.oracle)))
  }

  function ValueBorrow(sums: BorrowsValued, b: Liability, pairs: seq<Pair>, cursor: nat, slot: u64)
    : Result<BorrowsValued>
  {
    var p :- ReadPair(pairs, cursor, b.reserve, slot);
    var value :- DebtWorth(b.borrowedPrincipal, p);
    var total :- ToU128(sums.total + value);
    Ok(BorrowsValued(sums.entries + [b.(marketValue := value)], total, sums.stressed || Stressed(p.oracle)))
  }

  /** The first loop, over the deposits. */
  function ValueDeposits(ds: seq<Collateral>, pairs: seq<Pair>, slot: u64): Result<DepositsValued> {
    if ds == [] then Ok(DepositsValued([], NOTHING, false)) else
    var sums :- ValueDeposits(ds[..|ds| - 1], pairs, slot);
    ValueDeposit(sums, ds[|ds| - 1], pairs, |ds| - 1, slot)
  }

  /** The second loop, over the borrows, with the cursor past the deposits' pairs. */
  function ValueBorrows(bs: seq<Liability>, pairs: seq<Pair>, cursor: nat, slot: u64): Result<BorrowsValued> {
    if bs == [] then Ok(BorrowsValued([], 0, false)) else
    var sums :- ValueBorrows(bs[..|bs| - 1], pairs, cursor, slot);
    ValueBorrow(sums, bs[|bs| - 1], pairs, cursor + |bs| - 1, slot)
  }

  function Refreshed(o: ObligationState, pairs: seq<Pair>, slot: u64): Result<ObligationState> {
    var d :- ValueDeposits(o.deposits, pairs, slot);
    var b :- ValueBorrows(o.borrows, pairs, |o.deposits|, slot);
    var _ :- Need(|pairs| == |o.deposits| + |o.borrows|, InvalidObligationAccount);
    ValuedSumsFit(o.deposits, o.borrows, pairs, |o.deposits|, slot);
    Ok(ObligationState(slot, false, d.stressed || b.stressed, d.total.face, d.total.effective, b.total,
                       d.total.allowed, d.total.unhealthy, d.entries, b.entries))
  }

  lemma ValuedSumsFit(ds: seq<Collateral>, bs: seq<Liability>, pairs: seq<Pair>, cursor: nat, slot: u64)
    ensures ValueDeposits(ds, pairs, slot).Ok? ==> ValueDeposits(ds, pairs, slot).value.total.Fits()
    ensures ValueBorrows(bs, pairs, cursor, slot).Ok? ==> ValueBorrows(bs, pairs, cursor, slot).value.total <= U128_MAX
  {
  }

  /** The deposits loop: values each entry at its pair and sums up, one pair an entry. */
  method WalkDeposits(ds: seq<Collateral>, pairs: seq<Pair>, slot: u64)
    returns (valued: Result<DepositsValued>, cursor: nat)
    ensures valued == ValueDeposits(ds, pairs, slot)
    ensures valued.Ok? ==> cursor == |ds|
  {
    var sums := DepositsValued([], NOTHING, false);
    cursor := 0;
    assert ds[..0] == [];
    while cursor < |ds|
      invariant 0 <= cursor <= |ds|
      invariant ValueDeposits(ds[..cursor], pairs, slot) == Ok(sums)
    {
      assert ds[..cursor + 1][..cursor] == ds[..cursor];
      DepositsFailEarly(ds, cursor + 1, pairs, slot);
      sums :- ValueDeposit(sums, ds[cursor], pairs, cursor, slot);
      cursor := cursor + 1;
    }
    assert ds[..cursor] == ds;
    valued := Ok(sums);
  }

  /** The borrows loop, with the cursor past the deposits' pairs. */
  method WalkBorrows(bs: seq<Liability>, pairs: seq<Pair>, start: nat, slot: u64)
    returns (valued: Result<BorrowsValued>, cursor: nat)
    ensures valued == ValueBorrows(bs, pairs, start, slot)
    ensures valued.Ok? ==> cursor == start + |bs|
  {
    var sums, i := BorrowsValued([], 0, false), 0;
    cursor := start;
    assert bs[..0] == [];
    while i < |bs|
      invariant 0 <= i <= |bs| && cursor == start + i
      invariant ValueBorrows(bs[..i], pairs, start, slot) == Ok(sums)
    {
      assert bs[..i + 1][..i] == bs[..i];
      BorrowsFailEarly(bs, i + 1, pairs, start, slot);
      sums :- ValueBorrow(sums, bs[i], pairs, cursor, slot);
      cursor, i := cursor + 1, i + 1;
    }
    assert bs[..i] == bs;
    valued := Ok(sums);
  }

  /** refresh_obligation: walks the pairs, and only a complete walk commits the values. */
  method RefreshObligation(obligation: Obligation, pairs: seq<Pair>, slot: u64) returns (outcome: Result<()>)
    modifies obligation
    ensures outcome.Ok? <==> Refreshed(old(obligation.State()), pairs, slot).Ok?
    ensures outcome.Err? ==> outcome.error == Refreshed(old(obligation.State()), pairs, slot).error
    ensures obligation.State() ==
      if outcome.Ok? then Refreshed(old(obligation.State()), pairs, slot).value else old(obligation.State())
  {
    var deposits, cursor := WalkDeposits(obligation.deposits, pairs, slot);
    var d :- deposits;
    var borrows;
    borrows, cursor := WalkBorrows(obligation.borrows, pairs, cursor, slot);
    var b :- borrows;
    var _ :- Need(cursor == |pairs|, InvalidObligationAccount);
    ValuedSumsFit(obligation.deposits, obligation.borrows, pairs, |obligation.deposits|, slot);
    obligation.deposits, obligation.borrows := d.entries, b.entries;
    obligation.depositedValue, obligation.effectiveCollateralValue := d.total.face, d.total.effective;
    obligation.allowedBorrowValue, obligation.unhealthyBorrowValue := d.total.allowed, d.total.unhealthy;
    obligation.borrowedValue, obligation.pricesStressed := b.total, d.stressed || b.stressed;
    obligation.lastUpdateSlot, obligation.stale := slot, false;
    return Ok(());
  }

  /** A prefix that fails makes the whole walk fail the same way. */
  lemma {:induction false} DepositsFailEarly(ds: seq<Collateral>, i: nat, pairs: seq<Pair>, slot: u64)
    requires i <= |ds|
    ensures ValueDeposits(ds[..i], pairs, slot).Err?
      ==> ValueDeposits(ds, pairs, slot) == Err(ValueDeposits(ds[..i], pairs, slot).error)
    decreases |ds|
  {
    if i < |ds| {
      assert ds[..|ds| - 1][..i] == ds[..i];
      DepositsFailEarly(ds[..|ds| - 1], i, pairs, slot);
    } else {
      assert ds[..i] == ds;
    }
  }

  lemma {:induction false} BorrowsFailEarly(bs: seq<Liability>, i: nat, pairs: seq<Pair>, cursor: nat, slot: u64)
    requires i <= |bs|
    ensures ValueBorrows(bs[..i], pairs, cursor, slot).Err? ==>
      ValueBorrows(bs, pairs, cursor, slot) == Err(ValueBorrows(bs[..i], pairs, cursor, slot).error)
    decreases |bs|
  {
    if i < |bs| {
      assert bs[..|bs| - 1][..i] == bs[..i];
      BorrowsFailEarly(bs[..|bs| - 1], i, pairs, cursor, slot);
    } else {
      assert bs[..i] == bs;
    }
  }
}
