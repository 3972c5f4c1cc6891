/** Borrowing against the limit, and repaying.

`borrow` checks the cached debt plus the value of the amount drawn. The principal it then
books is rounded up, so a recomputation can find the position past its limit: by no more
than the value of one unit of principal, and by nothing when the index divides the draw. */
module BorrowLaws {
  import opened Wrappers
  import opened FixedPoint
  import opened Debts
  import opened Reserves
  import opened PoolSteps
  import opened Health
  import opened Obligations
  import opened Valuation
  import opened Lending
  import opened PositionLaws
  import opened Sums

  // ---------- the borrows loop as a sum ----------

  /** Every entry has its pair, which values its debt. */
  ghost predicate Owing(bs: seq<Liability>, pairs: seq<Pair>) {
    && |bs| <= |pairs|
    && forall i :: 0 <= i < |bs| ==> pairs[i].key == bs[i].reserve && DebtWorth(bs[i].borrowedPrincipal, pairs[i]).Ok?
  }

  function DebtValues(bs: seq<Liability>, pairs: seq<Pair>): (vs: seq<nat>)
    requires |bs| <= |pairs|
    requires forall i :: 0 <= i < |bs| ==> DebtWorth(bs[i].borrowedPrincipal, pairs[i]).Ok?
    ensures |vs| == |bs| && forall i :: 0 <= i < |bs| ==> vs[i] == DebtWorth(bs[i].borrowedPrincipal, pairs[i]).value
  {
    seq(|bs|, i requires 0 <= i < |bs| => DebtWorth(bs[i].borrowedPrincipal, pairs[i]).value)
  }

  /** The loop reads one pair an entry, from the cursor on, and sums their values. */
  lemma {:induction false} BorrowsLoopSums(bs: seq<Liability>, pairs: seq<Pair>, cursor: nat, slot: u64)
    requires cursor <= |pairs| && ValueBorrows(bs, pairs, cursor, slot).Ok?
    ensures Owing(bs, pairs[cursor..])
    ensures ValueBorrows(bs, pairs, cursor, slot).value.total == Sum(DebtValues(bs, pairs[cursor..]))
  {
    hide DebtWorth, ReadPair;
    if bs != [] {
      var n := |bs| - 1;
      BorrowsLoopSums(bs[..n], pairs, cursor, slot);
      assert pairs[cursor..][n] == pairs[cursor + n];
      assert DebtValues(bs, pairs[cursor..])[..n] == DebtValues(bs[..n], pairs[cursor..]);
    }
  }

  /** Every entry has its pair, which can be read and values its debt. */
  ghost predicate Payable(bs: seq<Liability>, pairs: seq<Pair>, slot: u64) {
    Owing(bs, pairs) && forall i :: 0 <= i < |bs| ==> ReadPair(pairs, i, bs[i].reserve, slot).Ok?
  }

  /** The loop succeeds exactly when every entry is payable and the sum fits. */
  lemma {:induction false} BorrowsLoopIff(bs: seq<Liability>, pairs: seq<Pair>, slot: u64)
    ensures ValueBorrows(bs, pairs, 0, slot).Ok? <==>
      Payable(bs, pairs, slot) && Sum(DebtValues(bs, pairs)) <= U128_MAX
    ensures ValueBorrows(bs, pairs, 0, slot).Ok? ==>
      ValueBorrows(bs, pairs, 0, slot).value.total == Sum(DebtValues(bs, pairs))
  {
    hide DebtWorth, ReadPair;
    if bs != [] {
      var n := |bs| - 1;
      BorrowsLoopIff(bs[..n], pairs, slot);
      if Payable(bs, pairs, slot) { assert DebtValues(bs, pairs)[..n] == DebtValues(bs[..n], pairs); }
    }
  }

  lemma {:induction false} SumsOrdered(ws: seq<Worth>, vs: seq<Worth>)
    requires |ws| == |vs| && forall i :: 0 <= i < |ws| ==> ws[i].AtMost(vs[i])
    ensures SumWorth(ws).AtMost(SumWorth(vs))
  {
    if ws != [] { SumsOrdered(ws[..|ws| - 1], vs[..|vs| - 1]); }
  }

  // ---------- one debt ----------

  /** The rounded-up value of `units` base units of the pair's asset. */
  function CeilValue(units: nat, p: Pair): nat {
    CeilDiv(units * p.oracle.effectiveRate, Pow10(p.reserve.liquidityDecimals))
  }

  lemma CeilValueOfSum(a: nat, b: nat, c: nat, p: Pair)
    requires a <= b + c
    ensures CeilValue(a, p) <= CeilValue(b, p) + CeilValue(c, p)
  {
    var x, d := p.oracle.effectiveRate, Pow10(p.reserve.liquidityDecimals);
    MulMono(a, b + c, x);
    assert (b + c) * x == b * x + c * x;
    CeilMono(a * x, b * x + c * x, d);
    CeilOfSum(b * x, c * x, d);
  }

  /** A unit worth at least one unit of value is seen through the value's ceiling. */
  lemma CeilValueStrict(a: nat, b: nat, p: Pair)
    requires a < b && p.oracle.effectiveRate >= Pow10(p.reserve.liquidityDecimals)
    ensures CeilValue(a, p) < CeilValue(b, p)
  {
    hide CeilDiv, Pow10;
    var x, d := p.oracle.effectiveRate, Pow10(p.reserve.liquidityDecimals);
    MulMono(a + 1, b, x);
    assert (a + 1) * x == a * x + x;
    CeilOfWhole(a * x, 1, d);
    CeilMono(a * x + d, b * x, d);
  }

  lemma DebtWorthIsCeilValue(principal: u128, p: Pair)
    requires DebtWorth(principal, p).Ok?
    ensures DebtWorth(principal, p).value == CeilValue(Owed(principal, p.reserve.borrowIndex), p)
  {
  }

  predicate Divides(d: nat, n: nat) { d > 0 && FloorDiv(n, d) * d == n }

  /** The debt grows by exactly the amount drawn, for every borrower, if and only if the
      index divides the scaled amount; a first borrower sees any remainder. */
  lemma DrawIsExactIff(amount: nat, i: nat)
    requires PrincipalAdded(amount, i).Ok?
    ensures (forall p: nat :: Owed(p + PrincipalAdded(amount, i).value, i) == Owed(p, i) + amount)
      <==> Divides(i, amount * SCALE)
  {
    hide CeilDiv, FloorDiv;
    var n, k := amount * SCALE, PrincipalAdded(amount, i).value;
    if Divides(i, n) {
      CeilIsSmallest(FloorDiv(n, i), n, i);
      MulMono(k, FloorDiv(n, i), i);
      forall p: nat ensures Owed(p + k, i) == Owed(p, i) + amount {
        assert (p + k) * i == p * i + n;
        CeilOfWhole(p * i, amount, SCALE);
      }
    }
    if forall p: nat :: Owed(p + k, i) == Owed(p, i) + amount {
      assert Owed(0 + k, i) == Owed(0, i) + amount;
      assert 0 * i == 0;
      CeilIsSmallest(0, 0, SCALE);
      FloorIsLargest(k, n, i);
      MulMono(k, FloorDiv(n, i), i);
    }
  }

  /** At index 2.0 a first borrower of one base unit owes two. */
  lemma DrawMayExceedAmount()
    ensures PrincipalAdded(1, 2 * SCALE) == Ok(1) && Owed(1, 2 * SCALE) == 2
  {
  }

  /** Units a draw may be owed beyond its amount: none when the index divides it. */
  function DrawRounding(amount: nat, index: nat): nat {
    if Divides(index, amount * SCALE) then 0 else CeilDiv(index, SCALE)
  }

  lemma OwedAfterRoundedDraw(p: nat, amount: nat, i: nat)
    requires PrincipalAdded(amount, i).Ok?
    ensures Owed(p + PrincipalAdded(amount, i).value, i) <= Owed(p, i) + amount + DrawRounding(amount, i)
  {
    hide Owed, Divides, PrincipalAdded;
    DrawIsExactIff(amount, i);
    OwedAfterDraw(p, amount, i);
  }

  /** What the limit check projects, against what a recomputation finds. */
  predicate Projects(before: nat, amount: nat, p: Pair)
    requires PrincipalAdded(amount, p.reserve.borrowIndex).Ok?
  {
    var i := p.reserve.borrowIndex;
    CeilValue(Owed(before + PrincipalAdded(amount, i).value, i), p)
        <= CeilValue(Owed(before, i), p) + CeilValue(amount, p)
  }

  lemma FirstDrawProjectsIff(amount: nat, p: Pair)
    requires PrincipalAdded(amount, p.reserve.borrowIndex).Ok?
    requires p.oracle.effectiveRate >= Pow10(p.reserve.liquidityDecimals)
    ensures Projects(0, amount, p) <==> Divides(p.reserve.borrowIndex, amount * SCALE)
  {
    var i := p.reserve.borrowIndex;
    var owed := Owed(0 + PrincipalAdded(amount, i).value, i);
    NothingOwed(p);
    OwedAfterDraw(0, amount, i);
    NoPrincipalNoDebt(i);
    FirstDrawIsExactIff(amount, i);
    hide Owed, CeilValue, Divides, PrincipalAdded, Pow10;
    if owed > amount { CeilValueStrict(amount, owed, p); }
  }

  lemma CeilIsWholeIff(n: nat, d: nat)
    requires d > 0
    ensures CeilDiv(n, d) * d <= n <==> Divides(d, n)
  {
    hide CeilDiv, FloorDiv;
    CeilIsSmallest(FloorDiv(n, d), n, d);
    FloorIsLargest(CeilDiv(n, d), n, d);
    if CeilDiv(n, d) <= FloorDiv(n, d) { MulMono(CeilDiv(n, d), FloorDiv(n, d), d); }
  }

  lemma FirstDrawIsExactIff(amount: nat, i: nat)
    requires PrincipalAdded(amount, i).Ok?
    ensures Owed(0 + PrincipalAdded(amount, i).value, i) == amount <==> Divides(i, amount * SCALE)
  {
    var k := PrincipalAdded(amount, i).value;
    OwedAfterDraw(0, amount, i);
    NoPrincipalNoDebt(i);
    CeilIsWholeIff(amount * SCALE, i);
    CeilIsSmallest(amount, k * i, SCALE);
    hide CeilDiv, FloorDiv, Divides;
  }

  /** The projection covers the recomputation, whatever the borrower owed, exactly when the
      index divides the draw: for assets a unit of which is worth at least a unit of value. */
  lemma DrawProjectsIff(amount: nat, p: Pair)
    requires PrincipalAdded(amount, p.reserve.borrowIndex).Ok?
    requires p.oracle.effectiveRate >= Pow10(p.reserve.liquidityDecimals)
    ensures (forall before: nat :: Projects(before, amount, p)) <==> Divides(p.reserve.borrowIndex, amount * SCALE)
  {
    var i := p.reserve.borrowIndex;
    FirstDrawProjectsIff(amount, p);
    if Divides(i, amount * SCALE) {
      forall before: nat ensures Projects(before, amount, p) {
        DrawIsExactIff(amount, i);
        hide Divides, CeilValue, Owed;
        CeilValueOfSum(Owed(before + PrincipalAdded(amount, i).value, i), Owed(before, i), amount, p);
      }
    }
  }

  /** Value that rounding may add past the limit: nothing when the index divides the draw,
      otherwise one unit of principal, rounded up twice. */
  function RoundingAllowance(p: Pair, amount: nat): nat { CeilValue(DrawRounding(amount, p.reserve.borrowIndex), p) }

  lemma ExactDrawNeedsNoAllowance(p: Pair, amount: nat)
    requires Divides(p.reserve.borrowIndex, amount * SCALE)
    ensures RoundingAllowance(p, amount) == 0
  {
    hide CeilDiv;
    assert 0 * p.oracle.effectiveRate == 0;
    CeilIsSmallest(0, 0, Pow10(p.reserve.liquidityDecimals));
  }

  /** After a draw the entry is worth at most its old value, the drawn value and the allowance. */
  lemma DrawnDebtWorth(before: u128, after: u128, amount: u64, p: Pair, q: Pair)
    requires PrincipalAdded(amount, p.reserve.borrowIndex).Ok?
      && after == before + PrincipalAdded(amount, p.reserve.borrowIndex).value
    requires q.oracle == p.oracle && q.reserve.liquidityDecimals == p.reserve.liquidityDecimals
    requires q.reserve.borrowIndex == p.reserve.borrowIndex
    requires DebtWorth(after, q).Ok?
    requires MarketValue(amount, p.reserve.liquidityDecimals, p.oracle.effectiveRate, Up).Ok?
    ensures DebtWorth(after, q).value <= CeilValue(Owed(before, p.reserve.borrowIndex), p)
      + MarketValue(amount, p.reserve.liquidityDecimals, p.oracle.effectiveRate, Up).value
          + RoundingAllowance(p, amount)
  {
    var i := p.reserve.borrowIndex;
    OwedAfterRoundedDraw(before, amount, i);
    DebtWorthIsCeilValue(after, q);
    hide Owed, DrawRounding, CeilValue, DebtWorth;
    CeilValueOfSum(Owed(after, i), Owed(before, i) + amount, DrawRounding(amount, i), p);
    CeilValueOfSum(Owed(before, i) + amount, Owed(before, i), amount, p);
    AmountValue(amount, p);
    assert CeilValue(Owed(after, i), q) == CeilValue(Owed(after, i), p) by { SameCeilValue(Owed(after, i), p, q); }
  }

  lemma AmountValue(amount: u64, p: Pair)
    requires MarketValue(amount, p.reserve.liquidityDecimals, p.oracle.effectiveRate, Up).Ok?
    ensures CeilValue(amount, p) == MarketValue(amount, p.reserve.liquidityDecimals, p.oracle.effectiveRate, Up).value
  {
  }

  lemma SameCeilValue(units: nat, p: Pair, q: Pair)
    requires q.oracle == p.oracle && q.reserve.liquidityDecimals == p.reserve.liquidityDecimals
    ensures CeilValue(units, p) == CeilValue(units, q)
  {
  }

  // ---------- the limit after a borrow ----------

  /** The refresh accounts after the reserve `key` became `r`. */
  function PairsWith(pairs: seq<Pair>, key: Key, r: ReserveState): (qs: seq<Pair>)
    ensures |qs| == |pairs|
    ensures forall i :: 0 <= i < |pairs| ==> qs[i] == if pairs[i].key == key then pairs[i].(reserve := r) else pairs[i]
  {
    seq(|pairs|, i requires 0 <= i < |pairs| => if pairs[i].key == key then pairs[i].(reserve := r) else pairs[i])
  }

  /** A pool whose total grew makes its shares worth no less. */
  lemma RicherPoolWorthMore(shares: u64, p: Pair, q: Pair)
    requires q.key == p.key && q.oracle == p.oracle && q.reserve.config == p.reserve.config
    requires q.reserve.liquidityDecimals == p.reserve.liquidityDecimals
      && q.reserve.shareMintSupply == p.reserve.shareMintSupply
    requires SharesWorth(shares, p).Ok? && SharesWorth(shares, q).Ok? && p.reserve.Total() <= q.reserve.Total()
    ensures SharesWorth(shares, p).value.AtMost(SharesWorth(shares, q).value)
  {
    var l, m := p.reserve.SharesToLiquidity(shares, Down), q.reserve.SharesToLiquidity(shares, Down);
    assert l.Ok? && m.Ok?;
    hide SharesWorth;
    RicherPoolRedeemsMore(shares, p.reserve, q.reserve);
    LiquidityWorthMono(l.value, m.value, p, q, shares);
  }

  lemma RicherPoolRedeemsMore(shares: u64, r: ReserveState, s: ReserveState)
    requires r.shareMintSupply == s.shareMintSupply && r.Total() <= s.Total()
    requires r.SharesToLiquidity(shares, Down).Ok? && s.SharesToLiquidity(shares, Down).Ok?
    ensures r.SharesToLiquidity(shares, Down).value <= s.SharesToLiquidity(shares, Down).value
  {
    TotalLiquidityIsTotal(r);
    TotalLiquidityIsTotal(s);
    hide FloorDiv, ReserveState.TotalLiquidity, ReserveState.Total;
    MulMono(r.TotalLiquidity().value, s.TotalLiquidity().value, shares);
    FloorMono(shares * r.TotalLiquidity().value, shares * s.TotalLiquidity().value, Max(r.shareMintSupply, 1));
  }

  lemma LiquidityWorthMono(l: u64, m: u64, p: Pair, q: Pair, shares: u64)
    requires q.oracle == p.oracle && q.reserve.config == p.reserve.config
      && q.reserve.liquidityDecimals == p.reserve.liquidityDecimals
    requires SharesWorth(shares, p).Ok? && SharesWorth(shares, q).Ok? && l <= m
    requires p.reserve.SharesToLiquidity(shares, Down) == Ok(l) && q.reserve.SharesToLiquidity(shares, Down) == Ok(m)
    ensures SharesWorth(shares, p).value.AtMost(SharesWorth(shares, q).value)
  {
    hide FloorDiv, ReserveState.SharesToLiquidity;
    var c := p.reserve.config;
    var v, w := SharesWorth(shares, p).value, SharesWorth(shares, q).value;
    MulDivFloorMono(l, m, p.oracle.effectiveRate, Pow10(p.reserve.liquidityDecimals));
    MulDivFloorMono(v.face, w.face, BPS - c.collateralHaircutBps, BPS);
    MulDivFloorMono(v.effective, w.effective, c.loanToValueBps, BPS);
    MulDivFloorMono(v.effective, w.effective, c.liquidationThresholdBps, BPS);
  }

  /** The pairs of a refresh tell one story: each is the reserve and oracle it names. */
  ghost predicate PairsShow(pairs: seq<Pair>, key: Key, r: ReserveState, oracle: Quote) {
    forall i :: 0 <= i < |pairs| && pairs[i].key == key ==> pairs[i].reserve == r && pairs[i].oracle == oracle
  }

  /** Accounts of the refresh after the borrow: the reserve has moved, and a first borrow
      from it appends its pair. */
  function PairsAfterBorrow(pairs: seq<Pair>, key: Key, r: ReserveState, oracle: Quote, isNew: bool): seq<Pair> {
    if isNew then PairsWith(pairs, key, r) + [Pair(key, r, oracle)] else PairsWith(pairs, key, r)
  }

  /** A richer pool makes no sum of the deposits smaller. */
  lemma WorthAtRicherPool(ds: seq<Collateral>, pairs: seq<Pair>, qs: seq<Pair>, key: Key, r: ReserveState,
                          s: ReserveState, slot: u64)
    requires |ds| <= |pairs| <= |qs|
    requires forall i :: 0 <= i < |pairs| ==> qs[i] == if pairs[i].key == key then pairs[i].(reserve := s) else pairs[i]
    requires forall i :: 0 <= i < |pairs| && pairs[i].key == key ==> pairs[i].reserve == r
    requires s == r.(borrowedPrincipal := s.borrowedPrincipal, availableLiquidity := s.availableLiquidity,
                     accruedFees := s.accruedFees)
    requires Backed(r) ==> r.Total() <= s.Total()
    requires ValueDeposits(ds, pairs, slot).Ok? && ValueDeposits(ds, qs, slot).Ok?
    ensures ValueDeposits(ds, pairs, slot).value.total.AtMost(ValueDeposits(ds, qs, slot).value.total)
  {
    hide SharesWorth, ReadPair, ValueDeposits, SumWorth, ReserveState.Total;
    DepositsLoopSums(ds, pairs, slot);
    DepositsLoopSums(ds, qs, slot);
    forall i | 0 <= i < |ds| ensures Worths(ds, pairs)[i].AtMost(Worths(ds, qs)[i]) {
      if pairs[i].key == key {
        ValuedPoolIsBacked(ds[i].depositedShares, pairs[i]);
        RicherPoolWorthMore(ds[i].depositedShares, pairs[i], qs[i]);
      }
    }
    SumsOrdered(Worths(ds, pairs), Worths(ds, qs));
  }

  lemma ValuedPoolIsBacked(shares: u64, p: Pair)
    requires SharesWorth(shares, p).Ok?
    ensures Backed(p.reserve)
  {
    TotalLiquidityIsTotal(p.reserve);
  }

  /** The debt side after the draw: only the drawn entry's value moves, by at most the value
      of the amount and the rounding allowance. */
  lemma BorrowedAfterBorrow(o: ObligationState, pairs: seq<Pair>, qs: seq<Pair>, key: Key, s: ReserveState,
                            oracle: Quote, amount: u64, slot: u64, p: Pair, principal: u128)
    requires WellFormed(o) && p.key == key && p.oracle == oracle && PairsShow(pairs, key, p.reserve, oracle)
    requires s.borrowIndex == p.reserve.borrowIndex && s.liquidityDecimals == p.reserve.liquidityDecimals
    requires PrincipalAdded(amount, p.reserve.borrowIndex) == Ok(principal)
      && PutPrincipal(o.borrows, key, principal).Ok?
    requires MarketValue(amount, p.reserve.liquidityDecimals, oracle.effectiveRate, Up).Ok?
    requires |pairs| == |o.deposits| + |o.borrows|
    requires qs == PairsAfterBorrow(pairs, key, s, oracle, BorrowIndex(o.borrows, key) == |o.borrows|)
    requires ValueBorrows(o.borrows, pairs, |o.deposits|, slot).Ok?
    requires ValueBorrows(PutPrincipal(o.borrows, key, principal).value, qs, |o.deposits|, slot).Ok?
    ensures ValueBorrows(PutPrincipal(o.borrows, key, principal).value, qs, |o.deposits|, slot).value.total
      <= ValueBorrows(o.borrows, pairs, |o.deposits|, slot).value.total
         + MarketValue(amount, p.reserve.liquidityDecimals, oracle.effectiveRate, Up).value
             + RoundingAllowance(p, amount)
  {
    var bs, es, c := o.borrows, PutPrincipal(o.borrows, key, principal).value, |o.deposits|;
    EntriesAfterDraw(bs, key, principal);
    hide PutPrincipal, DebtWorth, ReadPair, ValueBorrows, MarketValue, PrincipalAdded, Owing, PairsAfterBorrow,
      WellFormed;
    BorrowsLoopSums(bs, pairs, c, slot);
    BorrowsLoopSums(es, qs, c, slot);
    OtherPairsStay(o, pairs, qs, p, s);
    DebtsDifferByDraw(bs, es, pairs[c..], qs[c..], BorrowIndex(bs, key), amount, p, principal);
  }

  lemma EntriesAfterDraw(bs: seq<Liability>, key: Key, principal: u128)
    requires PutPrincipal(bs, key, principal).Ok?
    ensures var es, i := PutPrincipal(bs, key, principal).value, BorrowIndex(bs, key);
      && |es| == (if i < |bs| then |bs| else |bs| + 1)
      && (forall k :: 0 <= k < |bs| && k != i ==> es[k] == bs[k])
      && es[i].borrowedPrincipal == (if i < |bs| then bs[i].borrowedPrincipal else 0) + principal
      && es[i].reserve == key
  {
  }

  /** Only the pairs of the drawn reserve move, and they move with it. */
  lemma OtherPairsStay(o: ObligationState, pairs: seq<Pair>, qs: seq<Pair>, p: Pair, s: ReserveState)
    requires WellFormed(o) && |pairs| == |o.deposits| + |o.borrows| && Owing(o.borrows, pairs[|o.deposits|..])
    requires PairsShow(pairs, p.key, p.reserve, p.oracle)
    requires qs == PairsAfterBorrow(pairs, p.key, s, p.oracle, BorrowIndex(o.borrows, p.key) == |o.borrows|)
    ensures var us, vs, i := pairs[|o.deposits|..], qs[|o.deposits|..], BorrowIndex(o.borrows, p.key);
      && |us| == |o.borrows| && |vs| == (if i < |us| then |us| else |us| + 1)
      && (forall k :: 0 <= k < |us| && k != i ==> vs[k] == us[k])
      && (i < |us| ==> us[i].oracle == p.oracle && us[i].reserve == p.reserve)
      && vs[i] == Pair(p.key, s, p.oracle)
  {
    hide DebtWorth, PairsWith;
    var c, i := |o.deposits|, BorrowIndex(o.borrows, p.key);
    var us, vs, moved := pairs[c..], qs[c..], PairsWith(pairs, p.key, s);
    assert i < |us| ==> us[i].key == p.key && us[i] == pairs[c + i];
    assert vs == if i < |us| then moved[c..] else moved[c..] + [Pair(p.key, s, p.oracle)];
    forall k | 0 <= k < |us| && k != i ensures vs[k] == us[k] {
      assert pairs[c + k].key == us[k].key == o.borrows[k].reserve != p.key;
      assert moved[c..][k] == moved[c + k];
    }
  }

  /** Two debt lists that differ by one draw, valued at pairs that differ in what it moved. */
  lemma DebtsDifferByDraw(bs: seq<Liability>, es: seq<Liability>, us: seq<Pair>, vs: seq<Pair>, i: nat, amount: u64,
                          p: Pair, principal: u128)
    requires Owing(bs, us) && Owing(es, vs) && |us| == |bs| && i <= |bs|
    requires |es| == |vs| == if i < |bs| then |bs| else |bs| + 1
    requires forall k :: 0 <= k < |bs| && k != i ==> es[k] == bs[k] && vs[k] == us[k]
    requires es[i].borrowedPrincipal == (if i < |bs| then bs[i].borrowedPrincipal else 0) + principal
    requires i < |us| ==> us[i].oracle == p.oracle && us[i].reserve == p.reserve
    requires vs[i].oracle == p.oracle && vs[i].reserve.borrowIndex == p.reserve.borrowIndex
    requires vs[i].reserve.liquidityDecimals == p.reserve.liquidityDecimals
    requires PrincipalAdded(amount, p.reserve.borrowIndex) == Ok(principal)
    requires MarketValue(amount, p.reserve.liquidityDecimals, p.oracle.effectiveRate, Up).Ok?
    ensures Sum(DebtValues(es, vs)) <= Sum(DebtValues(bs, us))
      + MarketValue(amount, p.reserve.liquidityDecimals, p.oracle.effectiveRate, Up).value
          + RoundingAllowance(p, amount)
  {
    hide DebtWorth, MarketValue, PrincipalAdded, RoundingAllowance, CeilValue, Owed, Sum;
    var xs, ys := DebtValues(bs, us), DebtValues(es, vs);
    if i < |bs| {
      DrawnDebtWorth(bs[i].borrowedPrincipal, es[i].borrowedPrincipal, amount, p, vs[i]);
      DebtWorthIsCeilValue(bs[i].borrowedPrincipal, us[i]);
      SameCeilValue(Owed(bs[i].borrowedPrincipal, p.reserve.borrowIndex), p, us[i]);
      SumsDifferAt(xs, ys, i);
    } else {
      NothingOwed(p);
      DrawnDebtWorth(0, principal, amount, p, vs[i]);
      assert ys[..i] == xs;
      LastOfSum(ys);
    }
  }

  lemma NothingOwed(p: Pair)
    ensures CeilValue(Owed(0, p.reserve.borrowIndex), p) == 0
  {
    hide CeilDiv;
    assert 0 * p.reserve.borrowIndex == 0 && 0 * p.oracle.effectiveRate == 0;
    CeilIsSmallest(0, 0, SCALE);
    CeilIsSmallest(0, 0, Pow10(p.reserve.liquidityDecimals));
  }

  /** What an accepted borrow has established. */
  lemma AcceptedBorrow(o: ObligationState, key: Key, r: ReserveState, oracle: Quote, walletCap: u64, amount: u64,
                       slot: u64)
    requires BorrowStep(o, key, r, oracle, walletCap, amount, slot).Ok?
    ensures var b := BorrowStep(o, key, r, oracle, walletCap, amount, slot).value;
      var value := MarketValue(amount, r.liquidityDecimals, oracle.effectiveRate, Up);
      && value.Ok? && o.borrowedValue + value.value <= o.allowedBorrowValue
      && Lend(r, amount) == Ok(Lent(b.reserve, b.principal, b.paidOut))
      && PutPrincipal(o.borrows, key, b.principal).Ok?
      && b.obligation == o.(borrows := PutPrincipal(o.borrows, key, b.principal).value, stale := true)
  {
  }

  /** After an accepted borrow the borrower's real debt is up by at least the amount. */
  lemma BorrowGrowsDebt(o: ObligationState, key: Key, r: ReserveState, oracle: Quote, walletCap: u64, amount: u64,
                        slot: u64)
    requires BorrowStep(o, key, r, oracle, walletCap, amount, slot).Ok?
    ensures var b := BorrowStep(o, key, r, oracle, walletCap, amount, slot).value;
      Owed(RecordedPrincipal(b.obligation.borrows, key), r.borrowIndex)
          >= Owed(RecordedPrincipal(o.borrows, key), r.borrowIndex) + amount
  {
    AcceptedBorrow(o, key, r, oracle, walletCap, amount, slot);
    var b := BorrowStep(o, key, r, oracle, walletCap, amount, slot).value;
    hide BorrowStep, CeilDiv, PrincipalAdded, MulDivFloor;
    PutPrincipalRecords(o.borrows, key, b.principal, key);
    OwedAfterDraw(RecordedPrincipal(o.borrows, key), amount, r.borrowIndex);
  }

  /** Borrowing respects the limit up to rounding. After an accepted borrow, a full refresh at
      the same prices finds the debt within the limit plus the value of one unit of principal,
      and within the limit when the index divides the draw. */
  lemma BorrowStaysNearLimit(o: ObligationState, pairs: seq<Pair>, slot: u64, p: Pair, walletCap: u64, amount: u64)
    requires WellFormed(o) && Refreshed(o, pairs, slot) == Ok(o) && PairsShow(pairs, p.key, p.reserve, p.oracle)
    requires BorrowStep(o, p.key, p.reserve, p.oracle, walletCap, amount, slot).Ok?
    ensures var b := BorrowStep(o, p.key, p.reserve, p.oracle, walletCap, amount, slot).value;
      var isNew := BorrowIndex(o.borrows, p.key) == |o.borrows|;
      var recomputed := Refreshed(b.obligation, PairsAfterBorrow(pairs, p.key, b.reserve, p.oracle, isNew), slot);
      recomputed.Ok? ==>
        && recomputed.value.borrowedValue <= recomputed.value.allowedBorrowValue + RoundingAllowance(p, amount)
        && (Divides(p.reserve.borrowIndex, amount * SCALE)
            ==> recomputed.value.borrowedValue <= recomputed.value.allowedBorrowValue)
  {
    var b := BorrowStep(o, p.key, p.reserve, p.oracle, walletCap, amount, slot).value;
    AcceptedBorrow(o, p.key, p.reserve, p.oracle, walletCap, amount, slot);
    LentPoolIsRicher(p.reserve, amount);
    hide BorrowStep, Lend, WellFormed, ValueBorrows, ValueDeposits, MarketValue, PrincipalAdded, RoundingAllowance,
      Divides, ReserveState.Total, Backed, PutPrincipal;
    var qs := PairsAfterBorrow(pairs, p.key, b.reserve, p.oracle, BorrowIndex(o.borrows, p.key) == |o.borrows|);
    if Refreshed(b.obligation, qs, slot).Ok? {
      WorthAtRicherPool(o.deposits, pairs, qs, p.key, p.reserve, b.reserve, slot);
      BorrowedAfterBorrow(o, pairs, qs, p.key, b.reserve, p.oracle, amount, slot, p, b.principal);
      if Divides(p.reserve.borrowIndex, amount * SCALE) { ExactDrawNeedsNoAllowance(p, amount); }
    }
  }

  /** Deposits outside the moved reserve are valued as before. */
  lemma UntouchedDeposits(ds: seq<Collateral>, ps: seq<Pair>, key: Key, s: ReserveState, slot: u64)
    requires |ds| == |ps| && ValueDeposits(ds, ps, slot).Ok? && forall d :: d in ds ==> d.reserve != key
    ensures PairsWith(ps, key, s) == ps
  {
    hide ValueDeposits, SharesWorth;
    DepositsLoopSums(ds, ps, slot);
    forall k | 0 <= k < |ps| ensures PairsWith(ps, key, s)[k] == ps[k] {
      assert ReadPair(ps, k, ds[k].reserve, slot).Ok? && ds[k] in ds;
    }
  }

  /** What an accepted borrow has read of the reserve and its price. */
  lemma BorrowReads(o: ObligationState, key: Key, r: ReserveState, oracle: Quote, walletCap: u64, amount: u64,
                    slot: u64)
    requires BorrowStep(o, key, r, oracle, walletCap, amount, slot).Ok?
    ensures r.RequireAccrued(slot).Ok? && oracle.RequireFresh(slot).Ok? && oracle.Rate().Ok?
  {
  }

  /** After a draw every debt but the drawn one is payable as before. */
  lemma DebtsAfterDraw(bs: seq<Liability>, es: seq<Liability>, us: seq<Pair>, vs: seq<Pair>, i: nat, slot: u64)
    requires Payable(bs, us, slot) && |us| == |bs| && i <= |bs|
    requires |es| == |vs| == if i < |bs| then |bs| else |bs| + 1
    requires forall k :: 0 <= k < |bs| && k != i ==> es[k] == bs[k] && vs[k] == us[k]
    requires vs[i].key == es[i].reserve && ReadPair(vs, i, es[i].reserve, slot).Ok?
    ensures i < |bs| ==> DebtWorth(bs[i].borrowedPrincipal, us[i]).Ok?
    ensures Payable(es, vs, slot) <==> DebtWorth(es[i].borrowedPrincipal, vs[i]).Ok?
    ensures Payable(es, vs, slot) ==>
      Sum(DebtValues(es, vs)) + (if i < |bs| then DebtWorth(bs[i].borrowedPrincipal, us[i]).value else 0)
        == Sum(DebtValues(bs, us)) + DebtWorth(es[i].borrowedPrincipal, vs[i]).value
  {
    hide DebtWorth, Sum;
    forall k | 0 <= k < |bs| && k != i ensures ReadPair(vs, k, es[k].reserve, slot).Ok? {
      assert ReadPair(us, k, bs[k].reserve, slot).Ok?;
    }
    hide ReadPair;
    if DebtWorth(es[i].borrowedPrincipal, vs[i]).Ok? {
      var xs, ys := DebtValues(bs, us), DebtValues(es, vs);
      if i < |bs| {
        SumsDifferAt(xs, ys, i);
      } else {
        assert ys[..i] == xs;
        LastOfSum(ys);
      }
    }
  }

  /** The debts are summed exactly when the drawn one has a value and the sum fits. */
  lemma DrawnDebtsIff(o: ObligationState, us: seq<Pair>, vs: seq<Pair>, es: seq<Liability>, p: Pair, s: ReserveState,
                      slot: u64)
    requires |us| == |o.borrows| && ValueBorrows(o.borrows, us, 0, slot).Ok?
    requires var i := BorrowIndex(o.borrows, p.key);
      && |es| == |vs| == (if i < |o.borrows| then |o.borrows| else |o.borrows| + 1)
      && (forall k :: 0 <= k < |o.borrows| && k != i ==> es[k] == o.borrows[k] && vs[k] == us[k])
      && es[i].reserve == p.key && vs[i] == Pair(p.key, s, p.oracle) && (i < |us| ==> us[i] == p)
    requires s.RequireAccrued(slot).Ok? && p.oracle.RequireFresh(slot).Ok? && p.oracle.Rate().Ok?
    ensures var i := BorrowIndex(o.borrows, p.key);
      && (i < |o.borrows| ==> DebtWorth(o.borrows[i].borrowedPrincipal, p).Ok?)
      && var drawn := DebtWorth(es[i].borrowedPrincipal, Pair(p.key, s, p.oracle));
         var before := if i < |o.borrows| then DebtWorth(o.borrows[i].borrowedPrincipal, p).value else 0;
         ValueBorrows(es, vs, 0, slot).Ok? <==>
           drawn.Ok? && ValueBorrows(o.borrows, us, 0, slot).value.total - before + drawn.value <= U128_MAX
  {
    var i := BorrowIndex(o.borrows, p.key);
    assert ReadPair(vs, i, es[i].reserve, slot).Ok?;
    hide DebtWorth, ReadPair, ValueBorrows, Sum, Payable;
    BorrowsLoopIff(o.borrows, us, slot);
    DebtsAfterDraw(o.borrows, es, us, vs, i, slot);
    BorrowsLoopIff(es, vs, slot);
  }

  /** The refresh after a borrow succeeds exactly when the deposits can still be valued, which
      those of other reserves always can, and the drawn debt and the sum of the debts fit
      their widths. */
  lemma BorrowRecomputesIff(o: ObligationState, pairs: seq<Pair>, slot: u64, p: Pair, walletCap: u64, amount: u64)
    requires WellFormed(o) && Refreshed(o, pairs, slot) == Ok(o) && PairsShow(pairs, p.key, p.reserve, p.oracle)
    requires BorrowStep(o, p.key, p.reserve, p.oracle, walletCap, amount, slot).Ok?
    ensures var b, i := BorrowStep(o, p.key, p.reserve, p.oracle, walletCap, amount, slot).value,
      BorrowIndex(o.borrows, p.key);
      var qs := PairsAfterBorrow(pairs, p.key, b.reserve, p.oracle, i == |o.borrows|);
      && |b.obligation.borrows| == (if i < |o.borrows| then |o.borrows| else |o.borrows| + 1)
      && (i < |o.borrows| ==> DebtWorth(o.borrows[i].borrowedPrincipal, p).Ok?)
      && ((forall d :: d in o.deposits ==> d.reserve != p.key) ==> ValueDeposits(o.deposits, qs, slot).Ok?)
      && var drawn := DebtWorth(b.obligation.borrows[i].borrowedPrincipal, Pair(p.key, b.reserve, p.oracle));
         var before := if i < |o.borrows| then DebtWorth(o.borrows[i].borrowedPrincipal, p).value else 0;
         Refreshed(b.obligation, qs, slot).Ok? <==>
           ValueDeposits(o.deposits, qs, slot).Ok? && drawn.Ok? && o.borrowedValue - before + drawn.value <= U128_MAX
  {
    var b, i := BorrowStep(o, p.key, p.reserve, p.oracle, walletCap, amount, slot).value, BorrowIndex(o.borrows, p.key);
    var qs := PairsAfterBorrow(pairs, p.key, b.reserve, p.oracle, i == |o.borrows|);
    var n := |o.deposits|;
    AcceptedBorrow(o, p.key, p.reserve, p.oracle, walletCap, amount, slot);
    BorrowReads(o, p.key, p.reserve, p.oracle, walletCap, amount, slot);
    LentPoolIsRicher(p.reserve, amount);
    EntriesAfterDraw(o.borrows, p.key, b.principal);
    hide BorrowStep, Lend, Refreshed, ValueDeposits, ValueBorrows, DebtWorth, PrincipalAdded, Backed,
      ReserveState.Total,
      PutPrincipal, WellFormed, PairsAfterBorrow, PairsShow;
    BorrowPairs(o, pairs, p, b.reserve, slot);
    if forall d :: d in o.deposits ==> d.reserve != p.key {
      BorrowKeepsDeposits(o, pairs, p, b.reserve, i == |o.borrows|, slot);
    }
    RecomputedIff(o, b.obligation, pairs, qs, p, b.reserve, slot);
  }

  lemma RecomputedIff(o: ObligationState, x: ObligationState, pairs: seq<Pair>, qs: seq<Pair>, p: Pair, s: ReserveState,
                      slot: u64)
    requires Refreshed(o, pairs, slot) == Ok(o) && x.deposits == o.deposits && |pairs| == |o.deposits| + |o.borrows|
    requires var n, i := |o.deposits|, BorrowIndex(o.borrows, p.key);
      && |x.borrows| == (if i < |o.borrows| then |o.borrows| else |o.borrows| + 1) && |qs| == n + |x.borrows|
      && (forall k :: 0 <= k < |o.borrows| && k != i ==> x.borrows[k] == o.borrows[k] && qs[n..][k] == pairs[n..][k])
      && x.borrows[i].reserve == p.key && qs[n..][i] == Pair(p.key, s, p.oracle)
      && (i < |o.borrows| ==> pairs[n..][i] == p)
    requires s.RequireAccrued(slot).Ok? && p.oracle.RequireFresh(slot).Ok? && p.oracle.Rate().Ok?
    ensures var i := BorrowIndex(o.borrows, p.key);
      && (i < |o.borrows| ==> DebtWorth(o.borrows[i].borrowedPrincipal, p).Ok?)
      && var drawn := DebtWorth(x.borrows[i].borrowedPrincipal, Pair(p.key, s, p.oracle));
         var before := if i < |o.borrows| then DebtWorth(o.borrows[i].borrowedPrincipal, p).value else 0;
         Refreshed(x, qs, slot).Ok? <==>
           ValueDeposits(o.deposits, qs, slot).Ok? && drawn.Ok? && o.borrowedValue - before + drawn.value <= U128_MAX
  {
    var n := |o.deposits|;
    var ps, us, rs, vs := pairs[..n], pairs[n..], qs[..n], qs[n..];
    hide *;
    assert pairs == ps + us && qs == rs + vs && qs[..n] == rs[..n];
    RefreshInParts(o, ps, us, slot);
    DrawnDebtsIff(o, us, vs, x.borrows, p, s, slot);
    RefreshInParts(x, rs, vs, slot);
    DepositsLoopPrefix(o.deposits, qs, rs, slot);
  }

  /** The pairs of the debts before and after a borrow. */
  lemma BorrowPairs(o: ObligationState, pairs: seq<Pair>, p: Pair, s: ReserveState, slot: u64)
    requires WellFormed(o) && Refreshed(o, pairs, slot) == Ok(o) && PairsShow(pairs, p.key, p.reserve, p.oracle)
    ensures var n, i := |o.deposits|, BorrowIndex(o.borrows, p.key);
      var qs := PairsAfterBorrow(pairs, p.key, s, p.oracle, i == |o.borrows|);
      && |pairs| == n + |o.borrows| && |qs| == (if i < |o.borrows| then |pairs| else |pairs| + 1)
      && (forall k :: 0 <= k < |o.borrows| && k != i ==> qs[n..][k] == pairs[n..][k])
      && (i < |o.borrows| ==> pairs[n..][i] == p) && qs[n..][i] == Pair(p.key, s, p.oracle)
  {
    var n, i := |o.deposits|, BorrowIndex(o.borrows, p.key);
    var us := pairs[n..];
    CountedPairs(o, pairs, slot);
    assert pairs == pairs[..n] + us;
    RefreshInParts(o, pairs[..n], us, slot);
    hide Refreshed, ValueDeposits, ValueBorrows, DebtWorth, WellFormed, PairsShow;
    BorrowsLoopIff(o.borrows, us, slot);
    OtherPairsStay(o, pairs, PairsAfterBorrow(pairs, p.key, s, p.oracle, i == |o.borrows|), p, s);
    assert i < |o.borrows| ==> us[i].key == o.borrows[i].reserve;
  }

  /** The deposits of other reserves are valued as before. */
  lemma BorrowKeepsDeposits(o: ObligationState, pairs: seq<Pair>, p: Pair, s: ReserveState, isNew: bool, slot: u64)
    requires Refreshed(o, pairs, slot) == Ok(o) && forall d :: d in o.deposits ==> d.reserve != p.key
    ensures ValueDeposits(o.deposits, PairsAfterBorrow(pairs, p.key, s, p.oracle, isNew), slot).Ok?
  {
    var n, qs := |o.deposits|, PairsAfterBorrow(pairs, p.key, s, p.oracle, isNew);
    CountedPairs(o, pairs, slot);
    assert pairs == pairs[..n] + pairs[n..];
    assert qs[..n] == PairsWith(pairs[..n], p.key, s);
    hide Refreshed, ValueDeposits, ValueBorrows, PairsAfterBorrow, PairsWith;
    RefreshInParts(o, pairs[..n], pairs[n..], slot);
    UntouchedDeposits(o.deposits, pairs[..n], p.key, s, slot);
    DepositsLoopPrefix(o.deposits, qs, pairs[..n], slot);
  }

  lemma FirstDebtAdds(bs: seq<Liability>, es: seq<Liability>, us: seq<Pair>, vs: seq<Pair>, p: Pair)
    requires Owing(bs, us) && Owing(es, vs) && |us| == |bs| && |es| == |vs| == |bs| + 1
    requires forall k :: 0 <= k < |bs| ==> es[k] == bs[k] && vs[k] == us[k]
    requires vs[|bs|].oracle == p.oracle && vs[|bs|].reserve.borrowIndex == p.reserve.borrowIndex
    requires vs[|bs|].reserve.liquidityDecimals == p.reserve.liquidityDecimals
    ensures Sum(DebtValues(es, vs))
         == Sum(DebtValues(bs, us)) + CeilValue(Owed(es[|bs|].borrowedPrincipal, p.reserve.borrowIndex), p)
  {
    var n := |bs|;
    DebtWorthIsCeilValue(es[n].borrowedPrincipal, vs[n]);
    SameCeilValue(Owed(es[n].borrowedPrincipal, p.reserve.borrowIndex), p, vs[n]);
    hide DebtWorth, CeilValue, Owed, Sum;
    var xs, ys := DebtValues(bs, us), DebtValues(es, vs);
    assert ys[..n] == xs;
    LastOfSum(ys);
  }

  lemma FirstBorrowRecomputes(o: ObligationState, pairs: seq<Pair>, qs: seq<Pair>, s: ReserveState, slot: u64, p: Pair,
                              principal: u128)
    requires WellFormed(o) && PairsShow(pairs, p.key, p.reserve, p.oracle)
      && BorrowIndex(o.borrows, p.key) == |o.borrows|
    requires s.borrowIndex == p.reserve.borrowIndex && s.liquidityDecimals == p.reserve.liquidityDecimals
    requires PutPrincipal(o.borrows, p.key, principal).Ok?
    requires |pairs| == |o.deposits| + |o.borrows| && qs == PairsAfterBorrow(pairs, p.key, s, p.oracle, true)
    requires ValueBorrows(o.borrows, pairs, |o.deposits|, slot).Ok?
    requires ValueBorrows(PutPrincipal(o.borrows, p.key, principal).value, qs, |o.deposits|, slot).Ok?
    ensures ValueBorrows(PutPrincipal(o.borrows, p.key, principal).value, qs, |o.deposits|, slot).value.total
         == ValueBorrows(o.borrows, pairs, |o.deposits|, slot).value.total
             + CeilValue(Owed(principal, p.reserve.borrowIndex), p)
  {
    var bs, es, c := o.borrows, PutPrincipal(o.borrows, p.key, principal).value, |o.deposits|;
    EntriesAfterDraw(bs, p.key, principal);
    hide PutPrincipal, DebtWorth, ReadPair, ValueBorrows, Owing, PairsAfterBorrow, WellFormed;
    BorrowsLoopSums(bs, pairs, c, slot);
    BorrowsLoopSums(es, qs, c, slot);
    OtherPairsStay(o, pairs, qs, p, s);
    FirstDebtAdds(bs, es, pairs[c..], qs[c..], p);
  }

  /** For a position, the same: a first borrow of an asset is recomputed at no more than the
      limit check projected exactly when the index divides the draw, for assets a unit of which
      is worth at least a unit of value. A position that borrows up to a limit its draw
      does not move is then past it exactly when the index does not divide. */
  lemma FirstBorrowStaysProjectedIff(o: ObligationState, pairs: seq<Pair>, slot: u64, p: Pair, walletCap: u64,
                                     amount: u64)
    requires WellFormed(o) && Refreshed(o, pairs, slot) == Ok(o) && PairsShow(pairs, p.key, p.reserve, p.oracle)
    requires BorrowStep(o, p.key, p.reserve, p.oracle, walletCap, amount, slot).Ok?
      && BorrowIndex(o.borrows, p.key) == |o.borrows|
    requires p.oracle.effectiveRate >= Pow10(p.reserve.liquidityDecimals)
    ensures var b := BorrowStep(o, p.key, p.reserve, p.oracle, walletCap, amount, slot).value;
      var recomputed := Refreshed(b.obligation, PairsAfterBorrow(pairs, p.key, b.reserve, p.oracle, true), slot);
      var value := MarketValue(amount, p.reserve.liquidityDecimals, p.oracle.effectiveRate, Up);
      recomputed.Ok? ==>
        value.Ok? && (recomputed.value.borrowedValue <= o.borrowedValue + value.value
                      <==> Divides(p.reserve.borrowIndex, amount * SCALE))
  {
    var b := BorrowStep(o, p.key, p.reserve, p.oracle, walletCap, amount, slot).value;
    AcceptedBorrow(o, p.key, p.reserve, p.oracle, walletCap, amount, slot);
    LentPoolIsRicher(p.reserve, amount);
    AmountValue(amount, p);
    NothingOwed(p);
    FirstDrawProjectsIff(amount, p);
    hide BorrowStep, Lend, WellFormed, ValueBorrows, ValueDeposits, MarketValue, PrincipalAdded, Divides, CeilValue,
      Owed, Pow10, ReserveState.Total, Backed, PutPrincipal;
    var qs := PairsAfterBorrow(pairs, p.key, b.reserve, p.oracle, true);
    if Refreshed(b.obligation, qs, slot).Ok? {
      FirstBorrowRecomputes(o, pairs, qs, b.reserve, slot, p, b.principal);
    }
  }

  lemma LentPoolIsRicher(r: ReserveState, amount: u64)
    requires Lend(r, amount).Ok?
    ensures var s := Lend(r, amount).value.reserve;
      && s == r.(borrowedPrincipal := s.borrowedPrincipal, availableLiquidity := s.availableLiquidity,
                 accruedFees := s.accruedFees)
      && PrincipalAdded(amount, r.borrowIndex) == Ok(Lend(r, amount).value.principal)
      && (Backed(r) ==> r.Total() <= s.Total())
  {
    if Backed(r) { LendKeepsPrice(r, amount); }
  }

  // ---------- repaying ----------

  /** Repaying at least the debt removes the entry and nothing else. A smaller payment leaves
      the debt between `debt - paid` and that plus one unit of principal's worth. Either way
      the reserve loses the principal the entry loses. */
  lemma RepayRoundTrip(o: ObligationState, key: Key, r: ReserveState, amount: u64, slot: u64)
    requires WellFormed(o) && RepayStep(o, key, r, amount, slot).Ok?
    ensures var p := RepayStep(o, key, r, amount, slot).value;
      var i := BorrowIndex(o.borrows, key);
      i < |o.borrows|
    ensures var p := RepayStep(o, key, r, amount, slot).value;
      var i := BorrowIndex(o.borrows, key);
      var debt := Owed(o.borrows[i].borrowedPrincipal, r.borrowIndex);
      var left := RecordedPrincipal(p.obligation.borrows, key);
      && p.paid == Min(amount, debt)
      && WellFormed(p.obligation)
      && r.borrowedPrincipal - p.reserve.borrowedPrincipal == p.principal == RecordedPrincipal(o.borrows, key) - left
      && (amount >= debt ==> p.obligation.borrows == DropAt(o.borrows, i) && left == 0)
      && debt - p.paid <= Owed(left, r.borrowIndex) <= debt - p.paid + CeilDiv(r.borrowIndex, SCALE)
  {
    var p := RepayStep(o, key, r, amount, slot).value;
    var i := BorrowIndex(o.borrows, key);
    var principal := o.borrows[i].borrowedPrincipal;
    hide CeilDiv, FloorDiv;
    FullPaymentClears(principal, p.paid, r.borrowIndex);
    OwedAfterPayment(principal, p.paid, r.borrowIndex);
    TakePrincipalRecords(o.borrows, i, p.principal, key);
    TakePrincipalKept(o, i, p.principal);
    EntryIsRecord(o, i);
  }

  lemma EntryIsRecord(o: ObligationState, i: nat)
    requires WellFormed(o) && i < |o.borrows|
    ensures RecordedPrincipal(o.borrows, o.borrows[i].reserve) == o.borrows[i].borrowedPrincipal
  {
    var bs, key := o.borrows, o.borrows[i].reserve;
    assert bs == bs[..i] + [bs[i]] + bs[i + 1..];
    NoRecord(bs[..i], key);
    NoRecord(bs[i + 1..], key);
    RecordedPrincipalOfConcat(bs[..i] + [bs[i]], bs[i + 1..], key);
    RecordedPrincipalOfConcat(bs[..i], [bs[i]], key);
  }

  lemma {:induction false} NoRecord(bs: seq<Liability>, key: Key)
    requires forall i :: 0 <= i < |bs| ==> bs[i].reserve != key
    ensures RecordedPrincipal(bs, key) == 0
  {
    if bs != [] { NoRecord(bs[1..], key); }
  }

  /** Repayment is open whenever there is a debt: while the reserve's books hold the entry's
      principal, it fails only for a zero amount, a stale reserve, a missing entry, a debt
      beyond 64 bits, or a vault that would overflow. */
  lemma RepayIsOpen(o: ObligationState, key: Key, r: ReserveState, amount: u64, slot: u64)
    requires r.borrowIndex >= SCALE
    requires var i := BorrowIndex(o.borrows, key);
      i < |o.borrows| ==> 0 < o.borrows[i].borrowedPrincipal <= r.borrowedPrincipal
    ensures var i := BorrowIndex(o.borrows, key);
      RepayStep(o, key, r, amount, slot).Ok? <==>
      && amount > 0 && r.lastUpdateSlot == slot
      && i < |o.borrows| && DebtAt(o.borrows[i].borrowedPrincipal, r.borrowIndex).Ok?
      && r.availableLiquidity + Min(amount, Owed(o.borrows[i].borrowedPrincipal, r.borrowIndex)) <= U64_MAX
  {
    var i := BorrowIndex(o.borrows, key);
    if i < |o.borrows| {
      var principal := o.borrows[i].borrowedPrincipal;
      MulMono(1, principal, r.borrowIndex);
      hide FloorDiv, CeilDiv;
      var paid := Min(amount, Owed(principal, r.borrowIndex));
      CeilIsSmallest(0, principal * r.borrowIndex, SCALE);
      if paid <= U64_MAX {
        QuotientFits(paid * SCALE, r.borrowIndex);
        assert PrincipalRemoved(paid, principal, r.borrowIndex).Ok?;
      }
    }
  }
}
