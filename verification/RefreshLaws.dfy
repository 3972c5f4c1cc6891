/** What a refresh of a position reads, when it succeeds, and everything it writes. */
module RefreshLaws {
  import opened Wrappers
  import opened FixedPoint
  import opened Debts
  import opened Reserves
  import opened Health
  import opened Obligations
  import opened Valuation
  import opened PositionLaws
  import opened BorrowLaws
  import opened Sums
  import opened RateLaws
  import opened Admission
  import opened LiquidationTerms

  // ---------- one entry ----------

  /** The pair of the entry's reserve, both accounts of this slot, at a price that is set. */
  predicate Current(p: Pair, key: Key, slot: u64) {
    p.key == key && p.reserve.lastUpdateSlot == slot && Shows(p.oracle, slot)
  }

  lemma ReadsIff(pairs: seq<Pair>, i: nat, key: Key, slot: u64)
    ensures ReadPair(pairs, i, key, slot).Ok? <==> i < |pairs| && Current(pairs[i], key, slot)
  {
  }

  /** Base units the shares redeem for. */
  function UnitsOf(shares: nat, r: ReserveState): (l: nat)
    requires PoolIsDefined(r)
    ensures IsFloor(l, shares, r.Total(), Max(r.shareMintSupply, 1))
  {
    Floored(shares, r.Total(), Max(r.shareMintSupply, 1))
  }

  /** What the shares count for: their face value, what the haircut leaves of it, and the parts
      of that which may be borrowed and at which liquidation starts. */
  function WorthOf(shares: nat, p: Pair): (w: Worth)
    requires PoolIsDefined(p.reserve) && p.reserve.config.collateralHaircutBps <= BPS
    ensures IsFloor(w.face, UnitsOf(shares, p.reserve), p.oracle.effectiveRate, Pow10(p.reserve.liquidityDecimals))
    ensures IsFloor(w.effective, w.face, BPS - p.reserve.config.collateralHaircutBps, BPS)
    ensures IsFloor(w.allowed, w.effective, p.reserve.config.loanToValueBps, BPS)
    ensures IsFloor(w.unhealthy, w.effective, p.reserve.config.liquidationThresholdBps, BPS)
  {
    var c := p.reserve.config;
    var face := Floored(UnitsOf(shares, p.reserve), p.oracle.effectiveRate, Pow10(p.reserve.liquidityDecimals));
    var effective := Floored(face, BPS - c.collateralHaircutBps, BPS);
    Worth(face, effective, Floored(effective, c.loanToValueBps, BPS),
          Floored(effective, c.liquidationThresholdBps, BPS))
  }

  predicate WorthFits(shares: nat, p: Pair)
    requires PoolIsDefined(p.reserve) && p.reserve.config.collateralHaircutBps <= BPS
  {
    var r, w := p.reserve, WorthOf(shares, p);
    && ProductFits(shares, r.Total()) && UnitsOf(shares, r) <= U64_MAX
    && Pow10(r.liquidityDecimals) <= U128_MAX && ProductFits(UnitsOf(shares, r), p.oracle.effectiveRate)
    && ProductFits(w.face, BPS - r.config.collateralHaircutBps)
    && ProductFits(w.effective, r.config.loanToValueBps)
    && ProductFits(w.effective, r.config.liquidationThresholdBps)
  }

  /** The program's valuation of an entry is exactly that, and fails only in an undefined pool,
      for a haircut past the whole, and for widths. */
  lemma WorthIsExact(shares: u64, p: Pair)
    ensures SharesWorth(shares, p).Ok? <==>
      PoolIsDefined(p.reserve) && p.reserve.config.collateralHaircutBps <= BPS && WorthFits(shares, p)
    ensures SharesWorth(shares, p).Ok? ==> SharesWorth(shares, p).value == WorthOf(shares, p)
  {
    var r, c := p.reserve, p.reserve.config;
    UnitsAreExact(shares, r);
    if PoolIsDefined(r) && UnitsOf(shares, r) <= U64_MAX && c.collateralHaircutBps <= BPS {
      RepaidValueIsExact(UnitsOf(shares, r), r.liquidityDecimals, p.oracle.effectiveRate);
      var w := WorthOf(shares, p);
      FlooredIsExact(w.face, BPS - c.collateralHaircutBps, BPS);
      FlooredIsExact(w.effective, c.loanToValueBps, BPS);
      FlooredIsExact(w.effective, c.liquidationThresholdBps, BPS);
    }
    hide UnitsOf, Floored, ProductFits, PoolIsDefined, MulDivFloor, MarketValue, Pow10, IsFloor,
      ReserveState.SharesToLiquidity;
  }

  lemma UnitsAreExact(shares: u64, r: ReserveState)
    ensures r.SharesToLiquidity(shares, Down).Ok? <==>
      PoolIsDefined(r) && ProductFits(shares, r.Total()) && UnitsOf(shares, r) <= U64_MAX
    ensures r.SharesToLiquidity(shares, Down).Ok? ==> r.SharesToLiquidity(shares, Down).value == UnitsOf(shares, r)
  {
    TotalLiquidityIsTotal(r);
    if PoolIsDefined(r) { FlooredIsExact(shares, r.Total(), Max(r.shareMintSupply, 1)); }
    hide Floored, Owed, MulDivFloor, ReserveState.TotalLiquidity, ProductFits;
  }

  /** A debt is valued exactly at its rounded-up amount and rounded-up price. */
  lemma DebtWorthIsExact(principal: u128, p: Pair)
    ensures DebtWorth(principal, p).Ok? <==>
      && DebtFits(principal, p.reserve.borrowIndex)
      && ValueFits(Owed(principal, p.reserve.borrowIndex), p.reserve.liquidityDecimals, p.oracle.effectiveRate)
    ensures DebtWorth(principal, p).Ok? ==>
      IsCeil(DebtWorth(principal, p).value, Owed(principal, p.reserve.borrowIndex), p.oracle.effectiveRate,
             Pow10(p.reserve.liquidityDecimals))
  {
    ValueIsExact(Owed(principal, p.reserve.borrowIndex), p.reserve.liquidityDecimals, p.oracle.effectiveRate);
    hide Owed, CeilDiv, Pow10, ValueFits, MarketValue;
  }

  // ---------- the whole position ----------

  /** An oracle in any state but the two that permit new risk. */
  ghost predicate SomeUnsound(pairs: seq<Pair>) { exists i :: 0 <= i < |pairs| && !Sound(pairs[i].oracle) }

  lemma {:induction false} DepositsLoopMarks(ds: seq<Collateral>, pairs: seq<Pair>, slot: u64)
    requires |pairs| == |ds| && ValueDeposits(ds, pairs, slot).Ok?
    ensures var v := ValueDeposits(ds, pairs, slot).value;
      && (v.stressed <==> SomeUnsound(pairs)) && |v.entries| == |ds|
      && forall i :: 0 <= i < |ds| ==>
           && SharesWorth(ds[i].depositedShares, pairs[i]).Ok?
           && v.entries[i] == ds[i].(marketValue := SharesWorth(ds[i].depositedShares, pairs[i]).value.face)
  {
    hide SharesWorth, AddWorth;
    if ds != [] {
      var n := |ds| - 1;
      DepositsLoopPrefix(ds[..n], pairs, pairs[..n], slot);
      DepositsLoopMarks(ds[..n], pairs[..n], slot);
    }
  }

  lemma {:induction false} BorrowsLoopMarks(bs: seq<Liability>, pairs: seq<Pair>, slot: u64)
    requires |pairs| == |bs| && ValueBorrows(bs, pairs, 0, slot).Ok?
    ensures var v := ValueBorrows(bs, pairs, 0, slot).value;
      && (v.stressed <==> SomeUnsound(pairs)) && |v.entries| == |bs|
      && forall i :: 0 <= i < |bs| ==>
           && DebtWorth(bs[i].borrowedPrincipal, pairs[i]).Ok?
           && v.entries[i] == bs[i].(marketValue := DebtWorth(bs[i].borrowedPrincipal, pairs[i]).value)
  {
    hide DebtWorth, ToU128;
    if bs != [] {
      var n := |bs| - 1;
      BorrowsLoopPrefix(bs[..n], pairs, pairs[..n], slot);
      BorrowsLoopMarks(bs[..n], pairs[..n], slot);
    }
  }

  lemma {:induction false} BorrowsLoopPrefix(bs: seq<Liability>, pairs: seq<Pair>, others: seq<Pair>, slot: u64)
    requires |bs| <= |pairs| && |bs| <= |others| && pairs[..|bs|] == others[..|bs|]
    ensures ValueBorrows(bs, pairs, 0, slot) == ValueBorrows(bs, others, 0, slot)
  {
    hide DebtWorth;
    if bs != [] {
      var n := |bs| - 1;
      assert pairs[..n] == pairs[..n + 1][..n] == others[..n + 1][..n] == others[..n];
      BorrowsLoopPrefix(bs[..n], pairs, others, slot);
      assert pairs[n] == pairs[..n + 1][n] == others[..n + 1][n] == others[n];
    }
  }

  lemma RefreshLoops(o: ObligationState, ps: seq<Pair>, us: seq<Pair>, slot: u64)
    requires |ps| == |o.deposits| && |us| == |o.borrows|
    ensures Refreshed(o, ps + us, slot).Ok? ==>
      var d, b := ValueDeposits(o.deposits, ps, slot), ValueBorrows(o.borrows, us, 0, slot);
      && d.Ok? && b.Ok? && d.value.total.Fits() && b.value.total <= U128_MAX
      && Refreshed(o, ps + us, slot).value == ObligationState(
           slot, false, d.value.stressed || b.value.stressed, d.value.total.face, d.value.total.effective,
           b.value.total, d.value.total.allowed, d.value.total.unhealthy, d.value.entries, b.value.entries)
  {
    assert (ps + us)[..|ps|] == ps[..|ps|] && (ps + us)[|ps|..] == us[0..];
    DepositsLoopPrefix(o.deposits, ps + us, ps, slot);
    BorrowsLoopShifts(o.borrows, ps + us, |ps|, us, 0, slot);
    ValuedSumsFit(o.deposits, o.borrows, ps + us, |ps|, slot);
    hide ValueDeposits, ValueBorrows;
  }

  /** A refresh succeeds exactly when it is handed one readable pair for every deposit and then
      one for every debt, and the five sums fit. */
  lemma RefreshIsOpen(o: ObligationState, pairs: seq<Pair>, slot: u64)
    ensures Refreshed(o, pairs, slot).Ok? <==>
      && |pairs| == |o.deposits| + |o.borrows|
      && var ps, us := pairs[..|o.deposits|], pairs[|o.deposits|..];
         && Readable(o.deposits, ps, slot) && SumWorth(Worths(o.deposits, ps)).Fits()
         && Payable(o.borrows, us, slot) && Sum(DebtValues(o.borrows, us)) <= U128_MAX
  {
    if |pairs| == |o.deposits| + |o.borrows| {
      var ps, us := pairs[..|o.deposits|], pairs[|o.deposits|..];
      assert pairs == ps + us;
      RefreshInParts(o, ps, us, slot);
      DepositsLoopSums(o.deposits, ps, slot);
      BorrowsLoopIff(o.borrows, us, slot);
    } else if Refreshed(o, pairs, slot).Ok? {
      CountedPairs(o, pairs, slot);
    }
    hide Refreshed, ValueDeposits, ValueBorrows, SumWorth, Sum, Readable, Payable;
  }

  /** It writes those sums, each entry's own value, and the mark of stress exactly when some
      oracle is in neither of the two states that permit new risk. */
  lemma RefreshWrites(o: ObligationState, ps: seq<Pair>, us: seq<Pair>, slot: u64)
    requires |ps| == |o.deposits| && |us| == |o.borrows| && Refreshed(o, ps + us, slot).Ok?
    ensures Readable(o.deposits, ps, slot) && Payable(o.borrows, us, slot)
    ensures var after, total := Refreshed(o, ps + us, slot).value, SumWorth(Worths(o.deposits, ps));
      && after.lastUpdateSlot == slot && !after.stale
      && (after.pricesStressed <==> SomeUnsound(ps) || SomeUnsound(us))
      && total == Worth(after.depositedValue, after.effectiveCollateralValue, after.allowedBorrowValue,
                        after.unhealthyBorrowValue)
      && after.borrowedValue == Sum(DebtValues(o.borrows, us))
      && |after.deposits| == |o.deposits| && |after.borrows| == |o.borrows|
      && (forall i :: 0 <= i < |ps| ==>
            && after.deposits[i] == o.deposits[i].(marketValue := after.deposits[i].marketValue)
            && after.deposits[i].marketValue == Worths(o.deposits, ps)[i].face)
      && (forall i :: 0 <= i < |us| ==>
            && after.borrows[i] == o.borrows[i].(marketValue := after.borrows[i].marketValue)
            && after.borrows[i].marketValue == DebtValues(o.borrows, us)[i])
  {
    RefreshLoops(o, ps, us, slot);
    DepositsLoopSums(o.deposits, ps, slot);
    BorrowsLoopIff(o.borrows, us, slot);
    DepositsLoopMarks(o.deposits, ps, slot);
    BorrowsLoopMarks(o.borrows, us, slot);
    hide SharesWorth, DebtWorth, Refreshed, ValueDeposits, ValueBorrows, ReadPair, SumWorth, Sum;
  }
}
