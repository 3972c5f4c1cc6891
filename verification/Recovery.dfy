/** Whether a liquidation moves a position toward health: what it takes off the debt against
what it takes off the liquidation line, by a full refresh before and after. */
module Recovery {
  import opened Wrappers
  import opened FixedPoint
  import opened Debts
  import opened Reserves
  import opened PoolSteps
  import opened Obligations
  import opened Valuation
  import opened Lending
  import opened PositionLaws
  import opened BorrowLaws
  import opened LiquidationLaws
  import opened Sums

  // ---------- the terms of a collateral ----------

  function Floored(n: nat, x: nat, d: nat): nat
    requires d > 0
  {
    FloorDiv(n * x, d)
  }

  function Ceiled(n: nat, x: nat, d: nat): nat
    requires d > 0
  {
    CeilDiv(n * x, d)
  }

  lemma Splits(whole: nat, stays: nat, goes: nat, x: nat, d: nat)
    requires d > 0 && whole <= stays + goes
    ensures Floored(whole, x, d) <= Floored(stays, x, d) + Ceiled(goes, x, d)
  {
    FloorSplits(whole, stays, goes, x, d);
  }

  /** What the liquidation line loses when collateral worth `value` goes, rounded up. */
  function LineValue(value: nat, c: ReserveConfig): nat {
    Ceiled(Ceiled(value, SaturatingSub(BPS, c.collateralHaircutBps), BPS), c.liquidationThresholdBps, BPS)
  }

  /** A repaid value with its floored bonus. */
  function WithBonus(value: nat, c: ReserveConfig): nat { value + FloorDiv(value * c.liquidationBonusBps, BPS) }

  /** A seizure with its bonus, counted at the threshold after the haircut, is worth no more
      than what it pays for. */
  predicate BonusCovered(c: ReserveConfig) {
    SaturatingSub(BPS, c.collateralHaircutBps) * c.liquidationThresholdBps * (BPS + c.liquidationBonusBps)
        <= BPS * BPS * BPS
  }

  /** No liquidation takes more off the line than off the debt, to within one unit of value,
      exactly when the terms of the collateral cover the bonus. */
  lemma BonusCoveredIff(c: ReserveConfig)
    requires c.Valid()
    ensures (forall value: nat :: LineValue(WithBonus(value, c), c) <= value + 1) <==> BonusCovered(c)
  {
    assert c.liquidationThresholdBps <= BPS;
    hide LineValue, WithBonus, ReserveConfig.Valid, BonusCovered;
    if BonusCovered(c) {
      forall value: nat ensures LineValue(WithBonus(value, c), c) <= value + 1 { CoveredLine(value, c); }
    } else {
      UncoveredLine(c);
    }
  }

  lemma CoveredLine(value: nat, c: ReserveConfig)
    requires BonusCovered(c) && c.liquidationThresholdBps <= BPS
    ensures LineValue(WithBonus(value, c), c) <= value + 1
  {
    var keep, t, b, w := SaturatingSub(BPS, c.collateralHaircutBps), c.liquidationThresholdBps, c.liquidationBonusBps,
      WithBonus(value, c);
    var x := CeilDiv(w * keep, BPS);
    assert w * BPS <= value * (BPS + b);
    assert x * BPS <= w * keep + BPS - 1;
    hide CeilDiv, FloorDiv, WithBonus, BonusCovered;
    CeilIsSmallest(value + 1, x * t, BPS);
    TwoCeilings(value, w, keep, t, b, x);
  }

  lemma TwoCeilings(value: nat, w: nat, keep: nat, t: nat, b: nat, x: nat)
    requires keep * t * (BPS + b) <= BPS * BPS * BPS && t <= BPS
    requires w * BPS <= value * (BPS + b) && x * BPS <= w * keep + BPS - 1
    ensures x * t <= (value + 1) * BPS
  {
    SecondCeiling(w, keep, t, x);
    FirstCeiling(value, w, keep * t, b);
    CombineCeilings(x * t, w * (keep * t), value);
  }

  lemma SecondCeiling(w: nat, keep: nat, t: nat, x: nat)
    requires x * BPS <= w * keep + BPS - 1 && t <= BPS
    ensures x * t * BPS <= w * (keep * t) + (BPS - 1) * BPS
  {
    MulMono(x * BPS, w * keep + BPS - 1, t);
    assert x * BPS * t == x * t * BPS;
    assert (w * keep + (BPS - 1)) * t == w * (keep * t) + (BPS - 1) * t;
  }

  lemma FirstCeiling(value: nat, w: nat, kt: nat, b: nat)
    requires kt * (BPS + b) <= BPS * BPS * BPS && w * BPS <= value * (BPS + b)
    ensures w * kt * BPS <= value * (BPS * BPS * BPS)
  {
    MulMono(w * BPS, value * (BPS + b), kt);
    MulMono(kt * (BPS + b), BPS * BPS * BPS, value);
    assert value * (BPS + b) * kt == kt * (BPS + b) * value;
    assert w * BPS * kt == w * kt * BPS;
  }

  lemma CombineCeilings(p: nat, q: nat, value: nat)
    requires p * BPS <= q + (BPS - 1) * BPS && q * BPS <= value * (BPS * BPS * BPS)
    ensures p <= (value + 1) * BPS
  {
  }

  lemma UncoveredLine(c: ReserveConfig)
    requires !BonusCovered(c)
    ensures var value := 2 * BPS * BPS * BPS;
      LineValue(WithBonus(value, c), c) > value + 1
  {
    var keep, t, b := SaturatingSub(BPS, c.collateralHaircutBps), c.liquidationThresholdBps, c.liquidationBonusBps;
    var value := 2 * BPS * BPS * BPS;
    WholeQuotient(2 * BPS * BPS * b, BPS);
    assert WithBonus(value, c) == 2 * BPS * BPS * (BPS + b);
    CeilOfMultiple(2 * BPS * (BPS + b) * keep, BPS);
    assert 2 * BPS * BPS * (BPS + b) * keep == 2 * BPS * (BPS + b) * keep * BPS;
    CeilOfMultiple(2 * (BPS + b) * keep * t, BPS);
    assert 2 * BPS * (BPS + b) * keep * t == 2 * (BPS + b) * keep * t * BPS;
    assert 2 * (BPS + b) * keep * t == 2 * (keep * t * (BPS + b));
  }

  lemma CeilOfMultiple(n: nat, d: nat)
    requires d > 0
    ensures CeilDiv(n * d, d) == n
  {
    hide CeilDiv;
    CeilIsSmallest(n, n * d, d);
    var c := CeilDiv(n * d, d);
    CeilIsSmallest(c, n * d, d);
    if c < n { MulMono(c + 1, n, d); }
  }

  lemma LineValueMono(value: nat, more: nat, c: ReserveConfig)
    requires value <= more
    ensures LineValue(value, c) <= LineValue(more, c)
  {
    hide CeilDiv;
    var keep := SaturatingSub(BPS, c.collateralHaircutBps);
    MulMono(value, more, keep);
    CeilMono(value * keep, more * keep, BPS);
    MulMono(CeilDiv(value * keep, BPS), CeilDiv(more * keep, BPS), c.liquidationThresholdBps);
    CeilMono(CeilDiv(value * keep, BPS) * c.liquidationThresholdBps,
             CeilDiv(more * keep, BPS) * c.liquidationThresholdBps, BPS);
  }

  // ---------- the collateral side ----------

  /** Value of `shares`, every step rounded up. */
  function ValueUp(shares: nat, total: nat, supply: nat, p: Pair): nat
    requires supply > 0
  {
    Ceiled(Ceiled(shares, total, supply), p.oracle.effectiveRate, Pow10(p.reserve.liquidityDecimals))
  }

  /** What an entry's line loses with `removed` shares is covered through all four roundings. */
  lemma LineIsCovered(shares: u64, removed: u64, p: Pair)
    requires removed <= shares && SharesWorth(shares, p).Ok?
    ensures SharesWorth(shares - removed, p).Ok? && p.reserve.TotalLiquidity().Ok?
    ensures SharesWorth(shares, p).value.unhealthy <= SharesWorth(shares - removed, p).value.unhealthy
      + LineValue(ValueUp(removed, p.reserve.TotalLiquidity().value, Max(p.reserve.shareMintSupply, 1), p),
                  p.reserve.config)
  {
    FewerSharesWorthLess(shares - removed, shares, p);
    LineIsChain(shares, p);
    LineIsChain(shares - removed, p);
    hide SharesWorth, Chain, LineValue, ValueUp, ReserveState.TotalLiquidity;
    ChainSplits(shares, shares - removed, removed, p.reserve.TotalLiquidity().value, Max(p.reserve.shareMintSupply, 1),
                p);
  }

  /** The line of `shares`, every step rounded down. */
  function Chain(shares: nat, total: nat, supply: nat, p: Pair): nat
    requires supply > 0
  {
    var face := Floored(Floored(shares, total, supply), p.oracle.effectiveRate, Pow10(p.reserve.liquidityDecimals));
    Floored(Floored(face, SaturatingSub(BPS, p.reserve.config.collateralHaircutBps), BPS),
            p.reserve.config.liquidationThresholdBps, BPS)
  }

  lemma LineIsChain(shares: u64, p: Pair)
    requires SharesWorth(shares, p).Ok?
    ensures p.reserve.TotalLiquidity().Ok?
    ensures SharesWorth(shares, p).value.unhealthy
         == Chain(shares, p.reserve.TotalLiquidity().value, Max(p.reserve.shareMintSupply, 1), p)
  {
    hide FloorDiv, Pow10, ReserveState.TotalLiquidity;
  }

  lemma ChainSplits(whole: nat, stays: nat, goes: nat, total: nat, supply: nat, p: Pair)
    requires supply > 0 && whole <= stays + goes
    ensures Chain(whole, total, supply, p)
         <= Chain(stays, total, supply, p) + LineValue(ValueUp(goes, total, supply, p), p.reserve.config)
  {
    var c, price, ten := p.reserve.config, p.oracle.effectiveRate, Pow10(p.reserve.liquidityDecimals);
    var keep := SaturatingSub(BPS, c.collateralHaircutBps);
    hide Floored, Ceiled, Pow10;
    var l, m, n := Floored(whole, total, supply), Floored(stays, total, supply), Ceiled(goes, total, supply);
    Splits(whole, stays, goes, total, supply);
    var f, g, h := Floored(l, price, ten), Floored(m, price, ten), Ceiled(n, price, ten);
    Splits(l, m, n, price, ten);
    Splits(f, g, h, keep, BPS);
    Splits(Floored(f, keep, BPS), Floored(g, keep, BPS), Ceiled(h, keep, BPS), c.liquidationThresholdBps, BPS);
  }

  /** The shares seized for `value` are worth no more than it and its bonus, rounded up even. */
  lemma SeizedValueUp(value: u128, p: Pair)
    requires SeizeShares(value, p.reserve, p.oracle.effectiveRate).Ok? && p.reserve.shareMintSupply > 0
    ensures p.reserve.TotalLiquidity().Ok?
    ensures ValueUp(SeizeShares(value, p.reserve, p.oracle.effectiveRate).value, p.reserve.TotalLiquidity().value,
                    Max(p.reserve.shareMintSupply, 1), p) <= WithBonus(value, p.reserve.config)
  {
    var c, price := p.reserve, p.oracle.effectiveRate;
    var whole := WithBonus(value, c.config);
    var bought := ValueToAmount(whole, c.liquidityDecimals, price, Down).value;
    BoughtAmount(whole, c.liquidityDecimals, price);
    MintedShares(bought, c);
    TotalLiquidityIsTotal(c);
    hide FloorDiv, ValueToAmount, ReserveState.LiquidityToShares, ReserveState.TotalLiquidity, Backed, Pow10, Ceiled;
    BoughtBack(SeizeShares(value, c, price).value, c.TotalLiquidity().value, c.shareMintSupply, bought, whole, price,
               Pow10(c.liquidityDecimals));
  }

  /** Shares bought for a value, priced again with every step rounded up. */
  lemma BoughtBack(shares: nat, total: nat, supply: nat, bought: nat, whole: nat, price: nat, ten: nat)
    requires supply > 0 && price > 0 && ten > 0
    requires bought == FloorDiv(whole * ten, price) && shares == FloorDiv(bought * supply, Max(total, 1))
    ensures Ceiled(Ceiled(shares, total, supply), price, ten) <= whole
  {
    hide FloorDiv, CeilDiv;
    MulMono(total, Max(total, 1), shares);
    CeilIsSmallest(bought, shares * total, supply);
    MulMono(Ceiled(shares, total, supply), bought, price);
    CeilIsSmallest(whole, Ceiled(shares, total, supply) * price, ten);
  }

  /** Shares seized for a repaid value, of a collateral whose terms cover the bonus. */
  predicate PaysFor(p: Pair, value: u128, seized: u64) {
    && p.reserve.config.Valid() && BonusCovered(p.reserve.config) && p.reserve.shareMintSupply > 0
    && SeizeShares(value, p.reserve, p.oracle.effectiveRate) == Ok(seized)
  }

  /** The entry they leave loses no more of its line than the value, to within one unit. */
  lemma SeizedEntry(shares: u64, value: u128, seized: u64, p: Pair)
    requires PaysFor(p, value, seized) && seized <= shares && SharesWorth(shares, p).Ok?
    ensures SharesWorth(shares - seized, p).Ok?
    ensures SharesWorth(shares, p).value.unhealthy <= SharesWorth(shares - seized, p).value.unhealthy + value + 1
  {
    var c := p.reserve.config;
    assert c.liquidationThresholdBps <= BPS;
    hide SharesWorth, SeizeShares, LineValue, WithBonus, BonusCovered, ReserveConfig.Valid, ValueUp;
    LineIsCovered(shares, seized, p);
    SeizedValueUp(value, p);
    LineValueMono(ValueUp(seized, p.reserve.TotalLiquidity().value, Max(p.reserve.shareMintSupply, 1), p),
                  WithBonus(value, c), c);
    CoveredLine(value, c);
  }

  /** Revalued after the seizure, the line has lost no more than the repaid value and one. */
  lemma LineAfterSeizure(ds: seq<Collateral>, pairs: seq<Pair>, j: nat, value: u128, seized: u64, slot: u64)
    requires j < |ds| <= |pairs| && ValueDeposits(ds, pairs, slot).Ok?
    requires PaysFor(pairs[j], value, seized) && seized <= ds[j].depositedShares
    ensures var es := TakeCollateral(ds, j, seized);
      var qs := PairsAfter(pairs, j, |es| < |ds|);
      && ValueDeposits(es, qs, slot).Ok?
      && ValueDeposits(ds, pairs, slot).value.total.unhealthy
           <= ValueDeposits(es, qs, slot).value.total.unhealthy + value + 1
  {
    hide SharesWorth, PaysFor, Readable, ValueDeposits, TakeCollateral;
    RevaluedAfterTaking(ds, pairs, j, seized, slot);
    SeizedEntry(ds[j].depositedShares, value, seized, pairs[j]);
  }

  /** The repaid pool richer, nothing is worth less; and nothing moves that it does not hold. */
  lemma AtRicherPool(es: seq<Collateral>, ps: seq<Pair>, rp: Pair, s: ReserveState, slot: u64)
    requires |es| == |ps| && ValueDeposits(es, ps, slot).Ok? && PairsShow(ps, rp.key, rp.reserve, rp.oracle)
    requires s == rp.reserve.(borrowedPrincipal := s.borrowedPrincipal, availableLiquidity := s.availableLiquidity,
                              accruedFees := s.accruedFees)
    requires rp.reserve.Total() <= s.Total()
    ensures var qs := PairsWith(ps, rp.key, s);
      && (ValueDeposits(es, qs, slot).Ok? ==>
            ValueDeposits(es, ps, slot).value.total.AtMost(ValueDeposits(es, qs, slot).value.total))
      && ((forall d :: d in es ==> d.reserve != rp.key) ==> ValueDeposits(es, qs, slot).Ok?)
  {
    var qs := PairsWith(ps, rp.key, s);
    hide ValueDeposits, SharesWorth, ReserveState.Total, Backed;
    DepositsLoopSums(es, ps, slot);
    if forall d :: d in es ==> d.reserve != rp.key {
      forall k | 0 <= k < |ps| ensures qs[k] == ps[k] {
        assert ReadPair(ps, k, es[k].reserve, slot).Ok? && es[k] in es;
        assert ps[k].key == es[k].reserve;
      }
      assert qs == ps;
    }
    if ValueDeposits(es, qs, slot).Ok? { WorthAtRicherPool(es, ps, qs, rp.key, rp.reserve, s, slot); }
  }

  lemma DropThenMove(pairs: seq<Pair>, key: Key, s: ReserveState, j: nat, gone: bool)
    requires j < |pairs|
    ensures PairsWith(PairsAfter(pairs, j, gone), key, s) == PairsAfter(PairsWith(pairs, key, s), j, gone)
  {
  }

  // ---------- the debt side ----------

  /** The pair after the payment: the reserve has moved, not its index or its price. */
  predicate Moved(p: Pair, q: Pair) {
    && q.key == p.key && q.oracle == p.oracle && q.reserve.liquidityDecimals == p.reserve.liquidityDecimals
    && q.reserve.borrowIndex == p.reserve.borrowIndex && q.reserve.lastUpdateSlot == p.reserve.lastUpdateSlot
  }

  /** A payment lowers the entry's value by its own, to within one unit of principal's. */
  lemma RepaidDebtWorth(before: u128, repaid: u64, p: Pair, q: Pair)
    requires Moved(p, q) && DebtWorth(before, p).Ok? && repaid <= Owed(before, p.reserve.borrowIndex)
    requires PrincipalRemoved(repaid, before, p.reserve.borrowIndex).Ok?
    ensures var after := before - PrincipalRemoved(repaid, before, p.reserve.borrowIndex).value;
      && DebtWorth(after, q).Ok? && DebtWorth(after, q).value <= DebtWorth(before, p).value
      && DebtWorth(after, q).value + Floored(repaid, p.oracle.effectiveRate, Pow10(p.reserve.liquidityDecimals))
           <= DebtWorth(before, p).value + CeilValue(CeilDiv(p.reserve.borrowIndex, SCALE), p)
  {
    var i := p.reserve.borrowIndex;
    var after := before - PrincipalRemoved(repaid, before, i).value;
    OwedAfterPayment(before, repaid, i);
    LessDebtWorth(after, before, p, q);
    DebtWorthIsCeilValue(before, p);
    DebtWorthIsCeilValue(after, q);
    hide DebtWorth, Owed, CeilValue, PrincipalRemoved, CeilDiv, Pow10, Floored;
    SameCeilValue(Owed(after, i), p, q);
    CeilTakesFloor(Owed(after, i), repaid, p);
    MoreUnitsWorthMore(Owed(after, i) + repaid, Owed(before, i) + CeilDiv(i, SCALE), p);
    CeilValueOfSum(Owed(before, i) + CeilDiv(i, SCALE), Owed(before, i), CeilDiv(i, SCALE), p);
  }

  lemma LessDebtWorth(after: u128, before: u128, p: Pair, q: Pair)
    requires after <= before && Moved(p, q) && DebtWorth(before, p).Ok?
    ensures DebtWorth(after, q).Ok? && DebtWorth(after, q).value <= DebtWorth(before, p).value
  {
    var i := p.reserve.borrowIndex;
    OwedMono(after, before, i, i);
    MulMono(after, before, i);
    hide DebtAt, Owed, MarketValue;
    LessMarketValue(Owed(after, i), Owed(before, i), p.reserve.liquidityDecimals, p.oracle.effectiveRate);
  }

  lemma LessMarketValue(few: nat, many: nat, decimals: u8, price: u128)
    requires few <= many && MarketValue(many, decimals, price, Up).Ok?
    ensures MarketValue(few, decimals, price, Up).Ok?
    ensures MarketValue(few, decimals, price, Up).value <= MarketValue(many, decimals, price, Up).value
  {
    hide CeilDiv, Pow10;
    MulMono(few, many, price);
    CeilMono(few * price, many * price, Pow10(decimals));
  }

  lemma MoreUnitsWorthMore(few: nat, many: nat, p: Pair)
    requires few <= many
    ensures CeilValue(few, p) <= CeilValue(many, p)
  {
    MulMono(few, many, p.oracle.effectiveRate);
    CeilMono(few * p.oracle.effectiveRate, many * p.oracle.effectiveRate, Pow10(p.reserve.liquidityDecimals));
  }

  lemma CeilTakesFloor(a: nat, b: nat, p: Pair)
    ensures CeilValue(a, p) + Floored(b, p.oracle.effectiveRate, Pow10(p.reserve.liquidityDecimals))
        <= CeilValue(a + b, p)
  {
    var x, d := p.oracle.effectiveRate, Pow10(p.reserve.liquidityDecimals);
    hide CeilDiv, FloorDiv, Pow10;
    var f := FloorDiv(b * x, d);
    assert (a + b) * x == a * x + b * x;
    CeilOfWhole(a * x, f, d);
    CeilMono(a * x + f * d, (a + b) * x, d);
  }

  /** The debts after one entry was paid: only its value moves. */
  lemma DebtsAfterPayment(bs: seq<Liability>, us: seq<Pair>, vs: seq<Pair>, i: nat, removed: u128, slot: u64)
    requires Payable(bs, us, slot) && i < |bs| == |us| == |vs| && removed <= bs[i].borrowedPrincipal
    requires Moved(us[i], vs[i]) && forall k :: 0 <= k < |us| && k != i ==> vs[k] == us[k]
    ensures DebtWorth(bs[i].borrowedPrincipal - removed, vs[i]).Ok?
    ensures var es := TakePrincipal(bs, i, removed);
      var ws := PairsAfter(vs, i, |es| < |bs|);
      && Payable(es, ws, slot)
      && Sum(DebtValues(es, ws)) + DebtWorth(bs[i].borrowedPrincipal, us[i]).value
           == Sum(DebtValues(bs, us)) + DebtWorth(bs[i].borrowedPrincipal - removed, vs[i]).value
  {
    var es := TakePrincipal(bs, i, removed);
    var gone, left := |es| < |bs|, bs[i].borrowedPrincipal - removed;
    var ws := PairsAfter(vs, i, gone);
    LessDebtWorth(left, bs[i].borrowedPrincipal, us[i], vs[i]);
    OthersPayable(bs, us, vs, i, removed, slot);
    if gone {
      DebtWorthIsCeilValue(0, vs[i]);
      NothingOwed(vs[i]);
    }
    hide DebtWorth, Payable, Sum, CeilValue, Owed, TakePrincipal;
    var xs, ys := DebtValues(bs, us), DebtValues(es, ws);
    if gone {
      ValuesDropped(bs, us, vs, i);
      SumWithout(xs, i);
    } else {
      SumsDifferAt(xs, ys, i);
    }
  }

  lemma ValuesDropped(bs: seq<Liability>, us: seq<Pair>, vs: seq<Pair>, i: nat)
    requires i < |bs| == |us| == |vs| && Owing(bs, us) && Owing(DropAt(bs, i), DropAt(vs, i))
    requires forall k :: 0 <= k < |us| && k != i ==> vs[k] == us[k]
    ensures DebtValues(DropAt(bs, i), DropAt(vs, i)) == DebtValues(bs, us)[..i] + DebtValues(bs, us)[i + 1..]
  {
    hide DebtWorth;
  }

  lemma OthersPayable(bs: seq<Liability>, us: seq<Pair>, vs: seq<Pair>, i: nat, removed: u128, slot: u64)
    requires Payable(bs, us, slot) && i < |bs| == |us| == |vs| && removed <= bs[i].borrowedPrincipal
    requires Moved(us[i], vs[i]) && forall k :: 0 <= k < |us| && k != i ==> vs[k] == us[k]
    requires DebtWorth(bs[i].borrowedPrincipal - removed, vs[i]).Ok?
    ensures var es := TakePrincipal(bs, i, removed); Payable(es, PairsAfter(vs, i, |es| < |bs|), slot)
  {
    hide DebtWorth;
    var es := TakePrincipal(bs, i, removed);
    var gone := |es| < |bs|;
    var ws := PairsAfter(vs, i, gone);
    forall k | 0 <= k < |es|
      ensures ws[k].key == es[k].reserve && DebtWorth(es[k].borrowedPrincipal, ws[k]).Ok?
      ensures ReadPair(ws, k, es[k].reserve, slot).Ok?
    {
      var j := if gone && k >= i then k + 1 else k;
      assert ws[k] == vs[j] && es[k].reserve == bs[j].reserve && (j != i ==> es[k] == bs[j]);
      assert us[j].key == bs[j].reserve && ReadPair(us, j, bs[j].reserve, slot).Ok?;
    }
  }

  // ---------- the position ----------

  /** The accounts of the refresh after a liquidation: the repaid reserve has moved, and the
      pairs of emptied entries are gone. */
  function PairsAfterLiquidation(pairs: seq<Pair>, n: nat, key: Key, s: ReserveState, j: nat, deposits: nat, i: nat,
                                 borrows: nat): seq<Pair>
    requires j < n <= |pairs| && i < |pairs| - n
  {
    PairsAfter(PairsWith(pairs[..n], key, s), j, deposits < n)
    + PairsAfter(PairsWith(pairs[n..], key, s), i, borrows < |pairs| - n)
  }

  lemma ReceivedPoolIsRicher(r: ReserveState, principal: u128, amount: u64)
    requires Receive(r, principal, amount).Ok?
    ensures var s := Receive(r, principal, amount).value.reserve;
      && s == r.(borrowedPrincipal := s.borrowedPrincipal, availableLiquidity := s.availableLiquidity,
                 accruedFees := s.accruedFees)
      && r.Total() <= s.Total()
  {
    var Received(s, removed) := Receive(r, principal, amount).value;
    hide FloorDiv, Owed;
    MulMono(removed, FloorDiv(amount * SCALE, r.borrowIndex), r.borrowIndex);
    OwedAfterRemoval(r.borrowedPrincipal, removed, amount, r.borrowIndex);
  }

  /** The collateral side: the seizure at the old reserves, and then the repaid pool richer. */
  lemma CollateralSide(ds: seq<Collateral>, pairs: seq<Pair>, j: nat, value: u128, seized: u64, rp: Pair,
                       s: ReserveState, slot: u64)
    requires j < |ds| == |pairs| && ValueDeposits(ds, pairs, slot).Ok?
      && PairsShow(pairs, rp.key, rp.reserve, rp.oracle)
    requires PaysFor(pairs[j], value, seized) && seized <= ds[j].depositedShares
    requires s == rp.reserve.(borrowedPrincipal := s.borrowedPrincipal, availableLiquidity := s.availableLiquidity,
                              accruedFees := s.accruedFees)
    requires rp.reserve.Total() <= s.Total()
    ensures var es := TakeCollateral(ds, j, seized);
      var qs := PairsAfter(PairsWith(pairs, rp.key, s), j, |es| < |ds|);
      && |es| == |qs|
      && (ValueDeposits(es, qs, slot).Ok? ==>
            ValueDeposits(ds, pairs, slot).value.total.unhealthy
              <= ValueDeposits(es, qs, slot).value.total.unhealthy + value + 1)
      && ((forall d :: d in es ==> d.reserve != rp.key) ==> ValueDeposits(es, qs, slot).Ok?)
  {
    var es := TakeCollateral(ds, j, seized);
    var gone := |es| < |ds|;
    var ps := PairsAfter(pairs, j, gone);
    assert |es| == |ps| && PairsShow(ps, rp.key, rp.reserve, rp.oracle);
    hide ValueDeposits, PaysFor, ReserveState.Total, PairsShow, TakeCollateral, PairsAfter;
    DropThenMove(pairs, rp.key, s, j, gone);
    LineAfterSeizure(ds, pairs, j, value, seized, slot);
    AtRicherPool(es, ps, rp, s, slot);
  }

  /** The debt side: what the payment takes off the debts. */
  lemma DebtSide(o: ObligationState, us: seq<Pair>, i: nat, repaid: u64, rp: Pair, s: ReserveState, slot: u64)
    requires WellFormed(o) && i < |o.borrows| == |us| && o.borrows[i].reserve == rp.key
    requires ValueBorrows(o.borrows, us, 0, slot).Ok? && PairsShow(us, rp.key, rp.reserve, rp.oracle)
    requires s == rp.reserve.(borrowedPrincipal := s.borrowedPrincipal, availableLiquidity := s.availableLiquidity,
                              accruedFees := s.accruedFees)
    requires PrincipalRemoved(repaid, o.borrows[i].borrowedPrincipal, rp.reserve.borrowIndex).Ok?
    requires repaid <= Owed(o.borrows[i].borrowedPrincipal, rp.reserve.borrowIndex)
    ensures var removed := PrincipalRemoved(repaid, o.borrows[i].borrowedPrincipal, rp.reserve.borrowIndex).value;
      var es := TakePrincipal(o.borrows, i, removed);
      var vs := PairsAfter(PairsWith(us, rp.key, s), i, |es| < |us|);
      && |es| == |vs| && ValueBorrows(es, vs, 0, slot).Ok?
      && ValueBorrows(es, vs, 0, slot).value.total
           + Floored(repaid, rp.oracle.effectiveRate, Pow10(rp.reserve.liquidityDecimals))
         <= ValueBorrows(o.borrows, us, 0, slot).value.total + CeilValue(CeilDiv(rp.reserve.borrowIndex, SCALE), rp)
  {
    var bs, vs := o.borrows, PairsWith(us, rp.key, s);
    var removed := PrincipalRemoved(repaid, bs[i].borrowedPrincipal, rp.reserve.borrowIndex).value;
    hide DebtWorth, PrincipalRemoved, Owed, CeilDiv, Floored, CeilValue, ValueBorrows, ReadPair, TakePrincipal, Pow10;
    BorrowsLoopIff(bs, us, slot);
    OnlyPaidPairMoves(o, us, i, rp, s, slot);
    hide Payable, PairsWith, Moved, WellFormed, PairsShow, PairsAfter;
    PaidDebts(bs, us, vs, i, removed, slot);
    RepaidDebtWorth(bs[i].borrowedPrincipal, repaid, rp, vs[i]);
  }

  lemma PaidDebts(bs: seq<Liability>, us: seq<Pair>, vs: seq<Pair>, i: nat, removed: u128, slot: u64)
    requires ValueBorrows(bs, us, 0, slot).Ok? && i < |bs| == |us| == |vs| && removed <= bs[i].borrowedPrincipal
    requires Moved(us[i], vs[i]) && forall k :: 0 <= k < |us| && k != i ==> vs[k] == us[k]
    ensures var es, left := TakePrincipal(bs, i, removed), bs[i].borrowedPrincipal - removed;
      var ws := PairsAfter(vs, i, |es| < |us|);
      && |es| == |ws| && ValueBorrows(es, ws, 0, slot).Ok?
      && DebtWorth(bs[i].borrowedPrincipal, us[i]).Ok? && DebtWorth(left, vs[i]).Ok?
      && ValueBorrows(es, ws, 0, slot).value.total + DebtWorth(bs[i].borrowedPrincipal, us[i]).value
           == ValueBorrows(bs, us, 0, slot).value.total + DebtWorth(left, vs[i]).value
  {
    var es := TakePrincipal(bs, i, removed);
    var ws := PairsAfter(vs, i, |es| < |us|);
    assert |es| == |ws|;
    hide DebtWorth, Sum, ValueBorrows, ReadPair, TakePrincipal, PairsAfter;
    BorrowsLoopIff(bs, us, slot);
    PayableEntry(bs, us, i, slot);
    hide Payable;
    LessDebtWorth(bs[i].borrowedPrincipal - removed, bs[i].borrowedPrincipal, us[i], vs[i]);
    hide Moved;
    DebtsAfterPayment(bs, us, vs, i, removed, slot);
    BorrowsLoopIff(es, ws, slot);
  }

  lemma PayableEntry(bs: seq<Liability>, us: seq<Pair>, i: nat, slot: u64)
    requires Payable(bs, us, slot) && i < |bs|
    ensures DebtWorth(bs[i].borrowedPrincipal, us[i]).Ok?
  {
    hide DebtWorth;
  }

  lemma OnlyPaidPairMoves(o: ObligationState, us: seq<Pair>, i: nat, rp: Pair, s: ReserveState, slot: u64)
    requires WellFormed(o) && i < |o.borrows| == |us| && o.borrows[i].reserve == rp.key
    requires Payable(o.borrows, us, slot) && PairsShow(us, rp.key, rp.reserve, rp.oracle)
    requires s == rp.reserve.(borrowedPrincipal := s.borrowedPrincipal, availableLiquidity := s.availableLiquidity,
                              accruedFees := s.accruedFees)
    ensures us[i] == rp && DebtWorth(o.borrows[i].borrowedPrincipal, us[i]).Ok?
    ensures var moved := PairsWith(us, rp.key, s);
      Moved(us[i], moved[i]) && forall k :: 0 <= k < |us| && k != i ==> moved[k] == us[k]
  {
    hide DebtWorth, ReadPair;
    var moved := PairsWith(us, rp.key, s);
    assert us[i].key == o.borrows[i].reserve;
    forall k | 0 <= k < |us| && k != i ensures moved[k] == us[k] {
      assert us[k].key == o.borrows[k].reserve != o.borrows[i].reserve;
    }
  }

  /** A liquidation moves a position toward health. When the terms of the collateral cover the
      bonus, a full refresh at the same prices finds the debt no further past the line than it
      was, but for one unit of principal's value and one more for the roundings. The refresh
      fails only where the repaid pool, richer by a rounding, can no longer value shares of
      its own that the position still holds. */
  lemma LiquidationRecovers(o: ObligationState, pairs: seq<Pair>, slot: u64, rp: Pair, cp: Pair, shareBps: u16,
                            amount: u64)
    requires WellFormed(o) && Refreshed(o, pairs, slot) == Ok(o)
    requires PairsShow(pairs, rp.key, rp.reserve, rp.oracle) && PairsShow(pairs, cp.key, cp.reserve, cp.oracle)
    requires rp.reserve.config.Valid() && cp.reserve.config.Valid() && BonusCovered(cp.reserve.config)
    requires cp.reserve.shareMintSupply > 0
    requires LiquidateStep(o, rp.key, rp.reserve, cp.key, cp.reserve, rp.oracle, cp.oracle, shareBps, amount, slot).Ok?
    ensures CollateralIndex(o.deposits, cp.key) < |o.deposits| && BorrowIndex(o.borrows, rp.key) < |o.borrows|
    ensures |pairs| == |o.deposits| + |o.borrows|
    ensures var l := LiquidateStep(o, rp.key, rp.reserve, cp.key, cp.reserve, rp.oracle, cp.oracle, shareBps, amount,
                                   slot).value;
      var after := l.obligation;
      var qs := PairsAfterLiquidation(pairs, |o.deposits|, rp.key, l.reserve,
                                      CollateralIndex(o.deposits, cp.key), |after.deposits|,
                                      BorrowIndex(o.borrows, rp.key), |after.borrows|);
      var recomputed := Refreshed(after, qs, slot);
      && (recomputed.Ok? ==>
            recomputed.value.borrowedValue + o.unhealthyBorrowValue
              <= o.borrowedValue + recomputed.value.unhealthyBorrowValue
                 + CeilValue(CeilDiv(rp.reserve.borrowIndex, SCALE), rp) + 1)
      && ((forall d :: d in after.deposits ==> d.reserve != rp.key) ==> recomputed.Ok?)
  {
    AcceptedLiquidation(o, rp.key, rp.reserve, cp.key, cp.reserve, rp.oracle, cp.oracle, shareBps, amount, slot);
    PlanIsBounded(o, rp.key, rp.reserve, cp.key, cp.reserve, rp.oracle, cp.oracle, amount, slot);
    var l := LiquidateStep(o, rp.key, rp.reserve, cp.key, cp.reserve, rp.oracle, cp.oracle, shareBps, amount,
                           slot).value;
    var plan := PlanLiquidation(o, rp.key, rp.reserve, cp.key, cp.reserve, rp.oracle, cp.oracle, amount, slot).value;
    var n, i, j := |o.deposits|, plan.borrow, plan.deposit;
    var value := MarketValue(plan.repaid, rp.reserve.liquidityDecimals, rp.oracle.effectiveRate, Down).value;
    assert rp.reserve.config.closeFactorBps <= BPS;
    ReceivedPoolIsRicher(rp.reserve, o.borrows[i].borrowedPrincipal, l.repaid);
    FlooredValue(plan.repaid, rp);
    hide LiquidateStep, PlanLiquidation, Receive, MarketValue, SeizeShares, SplitSeized, Refreshed, TakeCollateral,
      TakePrincipal, ValueDeposits, ValueBorrows, CeilValue, CeilDiv, Floored, ReserveConfig.Valid, BonusCovered,
      ReserveState.Total, Owed, Pow10, WellFormed;
    var ps, us := pairs[..n], pairs[n..];
    assert pairs == ps + us;
    CountedPairs(o, pairs, slot);
    RefreshInParts(o, ps, us, slot);
    PartsShow(o, ps, us, rp, cp, i, j, slot);
    CollateralSide(o.deposits, ps, j, value, l.seized, rp, l.reserve, slot);
    DebtSide(o, us, i, l.repaid, rp, l.reserve, slot);
    RefreshInParts(l.obligation, PairsAfter(PairsWith(ps, rp.key, l.reserve), j, |l.obligation.deposits| < n),
                   PairsAfter(PairsWith(us, rp.key, l.reserve), i, |l.obligation.borrows| < |us|), slot);
  }

  lemma FlooredValue(repaid: u64, p: Pair)
    requires MarketValue(repaid, p.reserve.liquidityDecimals, p.oracle.effectiveRate, Down).Ok?
    ensures MarketValue(repaid, p.reserve.liquidityDecimals, p.oracle.effectiveRate, Down).value
         == Floored(repaid, p.oracle.effectiveRate, Pow10(p.reserve.liquidityDecimals))
  {
    hide FloorDiv, Pow10;
  }

  lemma PartsShow(o: ObligationState, ps: seq<Pair>, us: seq<Pair>, rp: Pair, cp: Pair, i: nat, j: nat, slot: u64)
    requires PairsShow(ps + us, rp.key, rp.reserve, rp.oracle) && PairsShow(ps + us, cp.key, cp.reserve, cp.oracle)
    requires j < |o.deposits| == |ps| && o.deposits[j].reserve == cp.key && ValueDeposits(o.deposits, ps, slot).Ok?
    ensures PairsShow(ps, rp.key, rp.reserve, rp.oracle) && PairsShow(us, rp.key, rp.reserve, rp.oracle)
    ensures ps[j].reserve == cp.reserve && ps[j].oracle == cp.oracle
  {
    hide ValueDeposits, SharesWorth;
    DepositsLoopSums(o.deposits, ps, slot);
    assert ReadPair(ps, j, o.deposits[j].reserve, slot).Ok?;
    assert (ps + us)[j] == ps[j];
    forall k | 0 <= k < |ps| && ps[k].key == rp.key ensures ps[k].reserve == rp.reserve && ps[k].oracle == rp.oracle {
      assert (ps + us)[k] == ps[k];
    }
    forall k | 0 <= k < |us| && us[k].key == rp.key ensures us[k].reserve == rp.reserve && us[k].oracle == rp.oracle {
      assert (ps + us)[|ps| + k] == us[k];
    }
  }
}
