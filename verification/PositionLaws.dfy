/** How the shortcuts of the borrower's instructions agree with a full recomputation.

`withdraw_collateral` and `borrow` never recompute the position: they adjust the cached
limits by a rounded estimate. The theorems here compare the estimate with what
`refresh_obligation` computes afterwards from the same reserves and prices. */
module PositionLaws {
  import opened Wrappers
  import opened FixedPoint
  import opened Reserves
  import opened Obligations
  import opened Valuation
  import opened Lending

  // ---------- rounding chains ----------

  lemma MulDivFloorMono(a: nat, b: nat, x: nat, d: nat)
    requires a <= b && MulDivFloor(b, x, d).Ok?
    ensures MulDivFloor(a, x, d).Ok? && MulDivFloor(a, x, d).value <= MulDivFloor(b, x, d).value
  {
    hide FloorDiv;
    MulMono(a, b, x);
    FloorMono(a * x, b * x, d);
  }

  /** One rounding step: the floor of the whole is covered by the floor of what stays and
      the ceiling of what goes. */
  lemma FloorSplits(whole: nat, stays: nat, goes: nat, x: nat, d: nat)
    requires d > 0 && whole <= stays + goes
    ensures FloorDiv(whole * x, d) <= FloorDiv(stays * x, d) + CeilDiv(goes * x, d)
  {
    hide FloorDiv, CeilDiv;
    MulMono(whole, stays + goes, x);
    assert (stays + goes) * x == stays * x + goes * x;
    FloorMono(whole * x, stays * x + goes * x, d);
    FloorOfDifference(stays * x + goes * x, goes * x, d);
  }

  lemma FloorCoveredByCeil(whole: nat, stays: nat, goes: nat, x: nat, d: nat)
    requires whole <= stays + goes
    requires MulDivFloor(whole, x, d).Ok? && MulDivFloor(stays, x, d).Ok? && MulDivCeil(goes, x, d).Ok?
    ensures MulDivFloor(whole, x, d).value <= MulDivFloor(stays, x, d).value + MulDivCeil(goes, x, d).value
  {
    hide FloorDiv, CeilDiv;
    FloorSplits(whole, stays, goes, x, d);
  }

  lemma FewerSharesWorthLess(few: u64, many: u64, p: Pair)
    requires few <= many && SharesWorth(many, p).Ok?
    ensures SharesWorth(few, p).Ok? && SharesWorth(few, p).value.AtMost(SharesWorth(many, p).value)
  {
    hide FloorDiv;
    var r, c := p.reserve, p.reserve.config;
    var ten := Pow10(r.liquidityDecimals);
    var l, m := r.SharesToLiquidity(few, Down), r.SharesToLiquidity(many, Down).value;
    MulDivFloorMono(few, many, r.TotalLiquidity().value, Max(r.shareMintSupply, 1));
    MulDivFloorMono(l.value, m, p.oracle.effectiveRate, ten);
    var f, g := MarketValue(l.value, r.liquidityDecimals, p.oracle.effectiveRate, Down).value,
                MarketValue(m, r.liquidityDecimals, p.oracle.effectiveRate, Down).value;
    MulDivFloorMono(f, g, BPS - c.collateralHaircutBps, BPS);
    var e, h := ApplyHaircut(f, c.collateralHaircutBps).value, ApplyHaircut(g, c.collateralHaircutBps).value;
    MulDivFloorMono(e, h, c.loanToValueBps, BPS);
    MulDivFloorMono(e, h, c.liquidationThresholdBps, BPS);
  }

  /** Through all four roundings, the borrow power removed is never underestimated. */
  lemma RemovalIsCovered(shares: u64, removed: u64, p: Pair)
    requires removed <= shares && SharesWorth(shares, p).Ok?
    requires RemovedAllowed(removed, p.reserve, p.oracle.effectiveRate).Ok?
    ensures SharesWorth(shares - removed, p).Ok?
    ensures SharesWorth(shares, p).value.allowed
         <= SharesWorth(shares - removed, p).value.allowed
             + RemovedAllowed(removed, p.reserve, p.oracle.effectiveRate).value
  {
    hide FloorDiv, CeilDiv;
    FewerSharesWorthLess(shares - removed, shares, p);
    var r, price, keep := p.reserve, p.oracle.effectiveRate, BPS - p.reserve.config.collateralHaircutBps;
    var ten := Pow10(r.liquidityDecimals);
    var kept := shares - removed;
    FloorCoveredByCeil(shares, kept, removed, r.TotalLiquidity().value, Max(r.shareMintSupply, 1));
    var l, m, n := r.SharesToLiquidity(shares, Down).value, r.SharesToLiquidity(kept, Down).value,
      r.SharesToLiquidity(removed, Up).value;
    FloorCoveredByCeil(l, m, n, price, ten);
    var f, g, h := MulDivFloor(l, price, ten).value, MulDivFloor(m, price, ten).value, MulDivCeil(n, price, ten).value;
    FloorCoveredByCeil(f, g, h, keep, BPS);
    FloorCoveredByCeil(MulDivFloor(f, keep, BPS).value, MulDivFloor(g, keep, BPS).value, MulDivCeil(h, keep, BPS).value,
                       r.config.loanToValueBps, BPS);
  }

  /** A loan-to-value no higher than the threshold keeps the two limits in order. */
  lemma AllowedWithinUnhealthy(shares: u64, p: Pair)
    requires SharesWorth(shares, p).Ok? && p.reserve.config.Valid()
    ensures SharesWorth(shares, p).value.allowed <= SharesWorth(shares, p).value.unhealthy
  {
    var e, c := SharesWorth(shares, p).value.effective, p.reserve.config;
    MulMono(c.loanToValueBps, c.liquidationThresholdBps, e);
    FloorMono(e * c.loanToValueBps, e * c.liquidationThresholdBps, BPS);
  }

  // ---------- the deposits loop as a sum ----------

  /** Every entry has its pair, and the pair values it. */
  ghost predicate Readable(ds: seq<Collateral>, pairs: seq<Pair>, slot: u64) {
    && |ds| <= |pairs|
    && forall i :: 0 <= i < |ds| ==>
      ReadPair(pairs, i, ds[i].reserve, slot).Ok? && SharesWorth(ds[i].depositedShares, pairs[i]).Ok?
  }

  function Worths(ds: seq<Collateral>, pairs: seq<Pair>): (ws: seq<Worth>)
    requires |ds| <= |pairs|
    requires forall i :: 0 <= i < |ds| ==> SharesWorth(ds[i].depositedShares, pairs[i]).Ok?
    ensures |ws| == |ds| && forall i :: 0 <= i < |ds| ==> ws[i] == SharesWorth(ds[i].depositedShares, pairs[i]).value
  {
    seq(|ds|, i requires 0 <= i < |ds| => SharesWorth(ds[i].depositedShares, pairs[i]).value)
  }

  function SumWorth(ws: seq<Worth>): Worth {
    if ws == [] then NOTHING else SumWorth(ws[..|ws| - 1]).Plus(ws[|ws| - 1])
  }

  /** The loop succeeds exactly when every entry is readable and the four sums fit, and it
      yields those sums. */
  lemma {:induction false} DepositsLoopSums(ds: seq<Collateral>, pairs: seq<Pair>, slot: u64)
    ensures ValueDeposits(ds, pairs, slot).Ok? <==> Readable(ds, pairs, slot) && SumWorth(Worths(ds, pairs)).Fits()
    ensures ValueDeposits(ds, pairs, slot).Ok?
      ==> ValueDeposits(ds, pairs, slot).value.total == SumWorth(Worths(ds, pairs))
  {
    hide SharesWorth, ReadPair;
    if ds != [] {
      var n := |ds| - 1;
      DepositsLoopSums(ds[..n], pairs, slot);
      if Readable(ds, pairs, slot) { assert Worths(ds, pairs)[..n] == Worths(ds[..n], pairs); }
    }
  }

  lemma {:induction false} SumOfConcat(ws: seq<Worth>, vs: seq<Worth>)
    ensures SumWorth(ws + vs) == SumWorth(ws).Plus(SumWorth(vs))
  {
    if vs == [] {
      assert ws + vs == ws && SumWorth(vs) == NOTHING;
    } else {
      var n, all := |vs| - 1, ws + vs;
      var before := ws + vs[..n];
      assert all[..|all| - 1] == before && all[|all| - 1] == vs[n];
      SumOfConcat(ws, vs[..n]);
      hide Worth.Plus;
      calc {
        SumWorth(all);
        SumWorth(before).Plus(vs[n]);
        SumWorth(ws).Plus(SumWorth(vs[..n])).Plus(vs[n]);
        { PlusAssociates(SumWorth(ws), SumWorth(vs[..n]), vs[n]); }
        SumWorth(ws).Plus(SumWorth(vs));
      }
    }
  }

  lemma PlusAssociates(a: Worth, b: Worth, c: Worth)
    ensures a.Plus(b).Plus(c) == a.Plus(b.Plus(c))
  {
  }

  lemma SumOfSplice(ws: seq<Worth>, i: nat, mid: seq<Worth>)
    requires i < |ws|
    ensures SumWorth(ws[..i] + mid + ws[i + 1..]).Plus(ws[i]) == SumWorth(ws).Plus(SumWorth(mid))
  {
    assert ws == ws[..i] + [ws[i]] + ws[i + 1..];
    SumOfConcat(ws[..i] + [ws[i]], ws[i + 1..]);
    SumOfConcat(ws[..i], [ws[i]]);
    SumOfConcat(ws[..i] + mid, ws[i + 1..]);
    SumOfConcat(ws[..i], mid);
    assert [ws[i]][..0] == [];
  }

  lemma {:induction false} LimitsOrdered(ds: seq<Collateral>, pairs: seq<Pair>, slot: u64)
    requires Readable(ds, pairs, slot) && forall i :: 0 <= i < |pairs| ==> pairs[i].reserve.config.Valid()
    ensures SumWorth(Worths(ds, pairs)).allowed <= SumWorth(Worths(ds, pairs)).unhealthy
  {
    hide SharesWorth, ReadPair, ReserveConfig.Valid;
    if ds != [] {
      var n := |ds| - 1;
      LimitsOrdered(ds[..n], pairs, slot);
      assert Worths(ds, pairs)[..n] == Worths(ds[..n], pairs);
      AllowedWithinUnhealthy(ds[n].depositedShares, pairs[n]);
    }
  }

  /** The deposits loop only looks at as many pairs as there are entries. */
  lemma {:induction false} DepositsLoopPrefix(ds: seq<Collateral>, pairs: seq<Pair>, others: seq<Pair>, slot: u64)
    requires |ds| <= |pairs| && |ds| <= |others| && pairs[..|ds|] == others[..|ds|]
    ensures ValueDeposits(ds, pairs, slot) == ValueDeposits(ds, others, slot)
  {
    hide SharesWorth;
    if ds != [] {
      var n := |ds| - 1;
      assert pairs[..n] == pairs[..n + 1][..n] == others[..n + 1][..n] == others[..n];
      DepositsLoopPrefix(ds[..n], pairs, others, slot);
      assert pairs[n] == pairs[..n + 1][n] == others[..n + 1][n] == others[n];
    }
  }

  /** The borrows loop only looks at the pairs past the cursor. */
  lemma {:induction false} BorrowsLoopShifts(bs: seq<Liability>, pairs: seq<Pair>, cursor: nat, others: seq<Pair>,
                                             start: nat, slot: u64)
    requires cursor <= |pairs| && start <= |others| && pairs[cursor..] == others[start..]
    ensures ValueBorrows(bs, pairs, cursor, slot) == ValueBorrows(bs, others, start, slot)
  {
    hide DebtWorth;
    if bs != [] {
      var n := |bs| - 1;
      BorrowsLoopShifts(bs[..n], pairs, cursor, others, start, slot);
      assert |pairs| - cursor == |others| - start;
      if cursor + n < |pairs| { assert pairs[cursor..][n] == others[start..][n]; }
    }
  }

  lemma CountedPairs(o: ObligationState, pairs: seq<Pair>, slot: u64)
    requires Refreshed(o, pairs, slot).Ok?
    ensures |pairs| == |o.deposits| + |o.borrows|
  {
    hide ValueDeposits, ValueBorrows;
  }

  /** A refresh values the deposits at the first pairs and the debts at the others. */
  lemma RefreshInParts(o: ObligationState, ps: seq<Pair>, us: seq<Pair>, slot: u64)
    requires |ps| == |o.deposits| && |us| == |o.borrows|
    ensures Refreshed(o, ps + us, slot).Ok? <==>
      ValueDeposits(o.deposits, ps, slot).Ok? && ValueBorrows(o.borrows, us, 0, slot).Ok?
    ensures Refreshed(o, ps + us, slot).Ok? ==>
      && Refreshed(o, ps + us, slot).value.unhealthyBorrowValue
          == ValueDeposits(o.deposits, ps, slot).value.total.unhealthy
      && Refreshed(o, ps + us, slot).value.borrowedValue == ValueBorrows(o.borrows, us, 0, slot).value.total
  {
    assert (ps + us)[..|ps|] == ps[..|ps|] && (ps + us)[|ps|..] == us[0..];
    DepositsLoopPrefix(o.deposits, ps + us, ps, slot);
    BorrowsLoopShifts(o.borrows, ps + us, |ps|, us, 0, slot);
    hide ValueDeposits, ValueBorrows;
  }

  // ---------- withdrawing collateral ----------

  /** The pairs to refresh with once the entry at `i` may be gone. */
  function PairsAfter(pairs: seq<Pair>, i: nat, gone: bool): seq<Pair>
    requires i < |pairs|
  {
    if gone then DropAt(pairs, i) else pairs
  }

  /** After `shares` left the entry at `i`, every other entry is worth what it was. */
  lemma WorthsAfterWithdrawal(ds: seq<Collateral>, pairs: seq<Pair>, i: nat, shares: u64, slot: u64)
    requires i < |ds| && shares <= ds[i].depositedShares && Readable(ds, pairs, slot)
    ensures var es := TakeCollateral(ds, i, shares);
      var qs := PairsAfter(pairs, i, |es| < |ds|);
      var ws := Worths(ds, pairs);
      && SharesWorth(ds[i].depositedShares - shares, pairs[i]).Ok?
      && Readable(es, qs, slot)
      && Worths(es, qs)
           == ws[..i] + (if |es| < |ds| then [] else [SharesWorth(ds[i].depositedShares - shares, pairs[i]).value])
                + ws[i + 1..]
  {
    hide SharesWorth, ReadPair;
    FewerSharesWorthLess(ds[i].depositedShares - shares, ds[i].depositedShares, pairs[i]);
    var es := TakeCollateral(ds, i, shares);
    var gone := |es| < |ds|;
    var qs := PairsAfter(pairs, i, gone);
    forall k | 0 <= k < |es|
      ensures ReadPair(qs, k, es[k].reserve, slot).Ok? && SharesWorth(es[k].depositedShares, qs[k]).Ok?
    {
      var j := if gone && k >= i then k + 1 else k;
      assert qs[k] == pairs[j] && es[k].reserve == ds[j].reserve && (j != i ==> es[k] == ds[j]);
      ReadsAlike(pairs, j, qs, k, ds[j].reserve, slot);
    }
  }

  lemma ReadsAlike(pairs: seq<Pair>, i: nat, others: seq<Pair>, k: nat, key: Key, slot: u64)
    requires i < |pairs| && k < |others| && pairs[i] == others[k]
    ensures ReadPair(pairs, i, key, slot) == ReadPair(others, k, key, slot)
  {
  }

  lemma NoSharesWorthNothing(p: Pair)
    requires SharesWorth(0, p).Ok?
    ensures SharesWorth(0, p).value == NOTHING
  {
    hide FloorDiv, ReserveState.TotalLiquidity;
    forall x: nat, d: nat | MulDivFloor(0, x, d).Ok? ensures MulDivFloor(0, x, d).value == 0 {
      assert 0 * x == 0;
      FloorIsLargest(1, 0, d);
    }
  }

  /** Revaluing after `shares` left the entry at `i`: it succeeds, and the limits move with
      that entry alone. */
  lemma RevaluedAfterTaking(ds: seq<Collateral>, pairs: seq<Pair>, i: nat, shares: u64, slot: u64)
    requires i < |ds| && shares <= ds[i].depositedShares && ValueDeposits(ds, pairs, slot).Ok?
    ensures |ds| <= |pairs| && SharesWorth(ds[i].depositedShares, pairs[i]).Ok?
    ensures SharesWorth(ds[i].depositedShares - shares, pairs[i]).Ok?
    ensures var es := TakeCollateral(ds, i, shares);
      var qs := PairsAfter(pairs, i, |es| < |ds|);
      && Readable(es, qs, slot) && ValueDeposits(es, qs, slot).Ok?
      && var whole, left := SharesWorth(ds[i].depositedShares, pairs[i]).value,
                            SharesWorth(ds[i].depositedShares - shares, pairs[i]).value;
         var before, after := ValueDeposits(ds, pairs, slot).value.total, ValueDeposits(es, qs, slot).value.total;
         && after.allowed + whole.allowed == before.allowed + left.allowed
         && after.unhealthy + whole.unhealthy == before.unhealthy + left.unhealthy
  {
    hide SharesWorth, ReadPair, ValueDeposits;
    DepositsLoopSums(ds, pairs, slot);
    var es := TakeCollateral(ds, i, shares);
    var gone := |es| < |ds|;
    var qs := PairsAfter(pairs, i, gone);
    SingleWorth(ds, pairs, i, slot);
    var left := ds[i].depositedShares - shares;
    FewerSharesWorthLess(left, ds[i].depositedShares, pairs[i]);
    WorthsAfterWithdrawal(ds, pairs, i, shares, slot);
    if gone { NoSharesWorthNothing(pairs[i]); }
    SumAfterWithdrawal(Worths(ds, pairs), i, SharesWorth(left, pairs[i]).value, gone);
    hide SumWorth, TakeCollateral;
    DepositsLoopSums(es, qs, slot);
  }

  /** The allowed limit falls by no more than was simulated. */
  lemma DepositsAfterWithdrawal(ds: seq<Collateral>, pairs: seq<Pair>, i: nat, shares: u64, slot: u64)
    requires i < |ds| <= |pairs| && shares <= ds[i].depositedShares
    requires ValueDeposits(ds, pairs, slot).Ok?
    requires RemovedAllowed(shares, pairs[i].reserve, pairs[i].oracle.effectiveRate).Ok?
    ensures var es := TakeCollateral(ds, i, shares);
      var qs := PairsAfter(pairs, i, |es| < |ds|);
      && Readable(es, qs, slot) && ValueDeposits(es, qs, slot).Ok?
      && ValueDeposits(ds, pairs, slot).value.total.allowed <= ValueDeposits(es, qs, slot).value.total.allowed
           + RemovedAllowed(shares, pairs[i].reserve, pairs[i].oracle.effectiveRate).value
  {
    hide SharesWorth, RemovedAllowed, Readable, ValueDeposits, TakeCollateral;
    RevaluedAfterTaking(ds, pairs, i, shares, slot);
    RemovalIsCovered(ds[i].depositedShares, shares, pairs[i]);
  }

  lemma SumAfterWithdrawal(ws: seq<Worth>, i: nat, w: Worth, gone: bool)
    requires i < |ws| && w.AtMost(ws[i]) && (gone ==> w == NOTHING)
    ensures var vs := ws[..i] + (if gone then [] else [w]) + ws[i + 1..];
      && SumWorth(vs).AtMost(SumWorth(ws))
      && SumWorth(vs).allowed + ws[i].allowed == SumWorth(ws).allowed + w.allowed
      && SumWorth(vs).unhealthy + ws[i].unhealthy == SumWorth(ws).unhealthy + w.unhealthy
  {
    var mid := if gone then [] else [w];
    assert SumWorth(mid) == w by { assert [w][..0] == []; }
    hide SumWorth;
    SumOfSplice(ws, i, mid);
  }

  lemma SingleWorth(ds: seq<Collateral>, pairs: seq<Pair>, i: nat, slot: u64)
    requires Readable(ds, pairs, slot) && i < |ds|
    ensures SharesWorth(ds[i].depositedShares, pairs[i]).Ok?
    ensures Worths(ds, pairs)[i] == SharesWorth(ds[i].depositedShares, pairs[i]).value
  {
  }

  /** Withdrawing collateral is conservative. If the round-up simulation lets the shares go,
      a full refresh at the same prices and reserves succeeds, finds the same debt, and finds
      it within the borrow limit and so within the liquidation line. */
  lemma WithdrawalLeavesPositionHealthy(o: ObligationState, pairs: seq<Pair>, slot: u64, key: Key, shares: u64)
    requires Refreshed(o, pairs, slot) == Ok(o)
    requires forall p :: p in pairs ==> p.reserve.config.Valid()
    requires var i := CollateralIndex(o.deposits, key);
      i < |o.deposits| && WithdrawCollateralStep(o, key, pairs[i].reserve, pairs[i].oracle, shares, slot).Ok?
    ensures var i := CollateralIndex(o.deposits, key);
      var after := WithdrawCollateralStep(o, key, pairs[i].reserve, pairs[i].oracle, shares, slot).value;
      var recomputed := Refreshed(after, PairsAfter(pairs, i, |after.deposits| < |o.deposits|), slot);
      && recomputed.Ok?
      && recomputed.value.borrowedValue == o.borrowedValue
      && recomputed.value.borrowedValue <= recomputed.value.allowedBorrowValue <= recomputed.value.unhealthyBorrowValue
      && !recomputed.value.IsLiquidatable()
  {
    hide SharesWorth, RemovedAllowed, ReadPair, ReserveConfig.Valid, ValueDeposits, ValueBorrows, SumWorth;
    var i := CollateralIndex(o.deposits, key);
    var after := WithdrawCollateralStep(o, key, pairs[i].reserve, pairs[i].oracle, shares, slot).value;
    var qs := PairsAfter(pairs, i, |after.deposits| < |o.deposits|);
    DepositsAfterWithdrawal(o.deposits, pairs, i, shares, slot);
    assert qs[|after.deposits|..] == pairs[|o.deposits|..];
    BorrowsLoopShifts(o.borrows, pairs, |o.deposits|, qs, |after.deposits|, slot);
    assert forall k :: 0 <= k < |qs| ==> qs[k] in pairs;
    LimitsOrdered(after.deposits, qs, slot);
    DepositsLoopSums(after.deposits, qs, slot);
  }

  /** Refreshing twice with the same accounts changes nothing, so a refreshed position is its
      own refresh. */
  lemma RefreshIsIdempotent(o: ObligationState, pairs: seq<Pair>, slot: u64)
    requires Refreshed(o, pairs, slot).Ok?
    ensures Refreshed(Refreshed(o, pairs, slot).value, pairs, slot) == Refreshed(o, pairs, slot)
  {
    DepositsLoopIdempotent(o.deposits, pairs, slot);
    BorrowsLoopIdempotent(o.borrows, pairs, |o.deposits|, slot);
  }

  lemma {:induction false} DepositsLoopIdempotent(ds: seq<Collateral>, pairs: seq<Pair>, slot: u64)
    requires ValueDeposits(ds, pairs, slot).Ok?
    ensures var es := ValueDeposits(ds, pairs, slot).value.entries;
      |es| == |ds| && ValueDeposits(es, pairs, slot) == ValueDeposits(ds, pairs, slot)
  {
    hide SharesWorth, ReadPair;
    if ds != [] {
      var n := |ds| - 1;
      DepositsLoopIdempotent(ds[..n], pairs, slot);
      var es := ValueDeposits(ds, pairs, slot).value.entries;
      assert es[..n] == ValueDeposits(ds[..n], pairs, slot).value.entries;
    }
  }

  lemma {:induction false} BorrowsLoopIdempotent(bs: seq<Liability>, pairs: seq<Pair>, cursor: nat, slot: u64)
    requires ValueBorrows(bs, pairs, cursor, slot).Ok?
    ensures var es := ValueBorrows(bs, pairs, cursor, slot).value.entries;
      |es| == |bs| && ValueBorrows(es, pairs, cursor, slot) == ValueBorrows(bs, pairs, cursor, slot)
  {
    hide DebtWorth, ReadPair, ToU128;
    if bs != [] {
      var n := |bs| - 1;
      BorrowsLoopIdempotent(bs[..n], pairs, cursor, slot);
      var es := ValueBorrows(bs, pairs, cursor, slot).value.entries;
      assert es[..n] == ValueBorrows(bs[..n], pairs, cursor, slot).value.entries;
    }
  }
}
