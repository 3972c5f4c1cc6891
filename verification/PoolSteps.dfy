/** What each instruction does to one reserve, and the share price across it.

The exact share price is Total / shareMintSupply. No step but the bad-debt write-off
lowers it, and no step but that one can leave the fees without assets behind them. */
module PoolSteps {
  import opened Wrappers
  import opened FixedPoint
  import opened Debts
  import opened Reserves

  datatype Supplied = Supplied(reserve: ReserveState, shares: u64)
  datatype Redeemed = Redeemed(reserve: ReserveState, liquidity: u64)
  datatype Lent = Lent(reserve: ReserveState, principal: u128, paidOut: u64)
  datatype Received = Received(reserve: ReserveState, principal: u128)

  /** The supply cap counts everything the pool has a claim to, lent out or not. */
  function CheckSupplyCap(r: ReserveState, adding: u64): Result<()> {
    if r.config.supplyCap == 0 then Ok(()) else
    var gross :- r.GrossLiquidity();
    Need(gross + adding <= r.config.supplyCap, SupplyCapExceeded)
  }

  /** supply: shares are minted at the current rate, floored. */
  function Supply(r: ReserveState, amount: u64, slot: u64): Result<Supplied> {
    var _ :- Need(amount > 0, ZeroAmount);
    var _ :- r.RequireAccrued(slot);
    var _ :- CheckSupplyCap(r, amount);
    var shares :- r.LiquidityToShares(amount, Down);
    var _ :- Need(shares > 0, DepositTooSmall);
    var available :- ToU64(r.availableLiquidity + amount);
    var supply :- ToU64(r.shareMintSupply + shares);
    Ok(Supplied(r.(availableLiquidity := available, shareMintSupply := supply), shares))
  }

  /** withdraw: shares are burned for their floored worth, if the vault holds it. */
  function Redeem(r: ReserveState, shares: u64, slot: u64): Result<Redeemed> {
    var _ :- Need(shares > 0, ZeroAmount);
    var _ :- r.RequireAccrued(slot);
    var _ :- Need(r.shareMintSupply > 0, InsufficientReserveLiquidity);
    var liquidity :- r.SharesToLiquidity(shares, Down);
    var _ :- Need(liquidity <= r.availableLiquidity, InsufficientReserveLiquidity);
    var supply :- CheckedSub(r.shareMintSupply, shares);
    Ok(Redeemed(r.(availableLiquidity := r.availableLiquidity - liquidity, shareMintSupply := supply), liquidity))
  }

  /** The reserve's side of a borrow: the debt is the whole amount, the payout is the amount
      less the origination fee, and the fee is owed to the protocol at once. */
  function Lend(r: ReserveState, amount: u64): Result<Lent> {
    var _ :- Need(amount <= r.availableLiquidity, InsufficientReserveLiquidity);
    var principal :- PrincipalAdded(amount, r.borrowIndex);
    var fee :- MulDivFloor(amount, r.config.originationFeeBps, BPS);
    var paidOut :- CheckedSub(amount, fee);
    var _ :- Need(paidOut > 0, ZeroAmount);
    var total :- ToU128(r.borrowedPrincipal + principal);
    var fees :- ToU64(r.accruedFees + fee);
    Ok(Lent(r.(borrowedPrincipal := total, availableLiquidity := r.availableLiquidity - paidOut, accruedFees := fees),
            principal, paidOut))
  }

  /** The reserve's side of a repayment against an entry holding `principal`. */
  function Receive(r: ReserveState, principal: u128, amount: u64): Result<Received> {
    var removed :- PrincipalRemoved(amount, principal, r.borrowIndex);
    var rest :- CheckedSub(r.borrowedPrincipal, removed);
    var available :- ToU64(r.availableLiquidity + amount);
    Ok(Received(r.(borrowedPrincipal := rest, availableLiquidity := available), removed))
  }

  /** collect_fees: pays what is owed as far as the vault reaches. */
  function CollectFees(r: ReserveState, slot: u64): Result<Redeemed> {
    var _ :- r.RequireAccrued(slot);
    var payable := Min(r.accruedFees, r.availableLiquidity);
    var _ :- Need(payable > 0, NothingToCollect);
    Ok(Redeemed(r.(accruedFees := r.accruedFees - payable, availableLiquidity := r.availableLiquidity - payable),
                payable))
  }

  /** absorb_bad_debt: principal that nobody will repay leaves the books. */
  function WriteOff(r: ReserveState, principal: u128): Result<ReserveState> {
    var owed :- MulDivCeil(principal, r.borrowIndex, SCALE);
    var _ :- ToU64(owed);
    var rest :- CheckedSub(r.borrowedPrincipal, principal);
    Ok(r.(borrowedPrincipal := rest))
  }

  // ---------- share price ----------

  /** The fees are covered, so the share token is a claim on something defined. */
  predicate Backed(r: ReserveState) { r.accruedFees <= r.Gross() }

  /** The exact share price did not fall from `r` to `s`, cross-multiplied. */
  predicate PriceKept(r: ReserveState, s: ReserveState) {
    s.Total() * r.shareMintSupply >= r.Total() * s.shareMintSupply
  }

  /** With an unchanged share supply, a total that did not fall keeps the price. */
  lemma SameSupplyKeepsPrice(r: ReserveState, s: ReserveState)
    requires r.shareMintSupply == s.shareMintSupply && r.Total() <= s.Total()
    ensures PriceKept(r, s)
  {
    hide ReserveState.Total;
    MulMonoInt(r.Total(), s.Total(), r.shareMintSupply);
  }

  lemma PriceKeptIsTransitive(a: ReserveState, b: ReserveState, c: ReserveState)
    requires PriceKept(a, b) && PriceKept(b, c) && b.shareMintSupply > 0
    ensures PriceKept(a, c)
  {
    RatiosChain(a.Total(), a.shareMintSupply, b.Total(), b.shareMintSupply, c.Total(), c.shareMintSupply);
  }

  /** s/a <= t/b and t/b <= u/c give s/a <= u/c, for b positive. */
  lemma RatiosChain(s: int, a: nat, t: int, b: nat, u: int, c: nat)
    requires t * a >= s * b && u * b >= t * c && b > 0
    ensures u * a >= s * c
  {
    MulMonoInt(t * c, u * b, a);
    MulMonoInt(s * b, t * a, c);
    assert (t * c) * a == (t * a) * c;
    assert (u * b) * a == (u * a) * b && (s * b) * c == (s * c) * b;
    assert (u * a + 1) * b == (u * a) * b + b;
    if u * a < s * c { MulMonoInt(u * a + 1, s * c, b); }
  }

  lemma MulMonoInt(a: int, b: int, c: nat)
    requires a <= b
    ensures a * c <= b * c
  {
  }

  lemma MintKeepsRatio(total: nat, supply: nat, amount: nat, minted: nat)
    requires minted * Max(total, 1) <= amount * supply
    ensures (total + amount) * supply >= total * (supply + minted)
  {
    MulMono(total, Max(total, 1), minted);
    assert (total + amount) * supply == total * supply + amount * supply;
    assert total * (supply + minted) == total * supply + minted * total;
  }

  lemma BurnKeepsRatio(total: nat, supply: nat, shares: nat, out: nat)
    requires shares <= supply && 0 < supply && out * supply <= shares * total
    ensures out <= total
    ensures (total - out) * supply >= total * (supply - shares)
  {
    MulMono(shares, supply, total);
    assert (total + 1) * supply == total * supply + supply;
    if out > total { MulMono(total + 1, out, supply); }
    assert (total - out) * supply == total * supply - out * supply;
    assert total * (supply - shares) == total * supply - shares * total;
  }

  /** The protocol's cut of the interest never exceeds it. */
  lemma CutWithinInterest(interest: nat, factor: nat)
    requires factor <= BPS
    ensures FloorDiv(interest * factor, BPS) <= interest
  {
    MulMono(factor, BPS, interest);
    FloorMono(interest * factor, interest * BPS, BPS);
  }

  lemma AccrualKeepsPrice(r: ReserveState, slot: u64)
    requires Accrued(r, slot).Ok? && Backed(r) && r.config.reserveFactorBps <= BPS
    ensures var s := Accrued(r, slot).value;
      Backed(s) && PriceKept(r, s) && r.borrowIndex <= s.borrowIndex
  {
    var s := Accrued(r, slot).value;
    if slot != r.lastUpdateSlot && r.borrowedPrincipal > 0 {
      IndexOnlyGrows(r, slot - r.lastUpdateSlot);
      OwedMono(r.borrowedPrincipal, r.borrowedPrincipal, r.borrowIndex, s.borrowIndex);
      CutWithinInterest(s.Debt() - r.Debt(), r.config.reserveFactorBps);
    }
    SameSupplyKeepsPrice(r, s);
  }

  lemma IndexOnlyGrows(r: ReserveState, elapsed: u64)
    requires r.GrownIndex(elapsed).Ok?
    ensures r.borrowIndex <= r.GrownIndex(elapsed).value
  {
    var growth := SCALE + r.BorrowRatePerSlot().value * elapsed;
    MulMono(SCALE, growth, r.borrowIndex);
    FloorIsLargest(r.borrowIndex, r.borrowIndex * growth, SCALE);
  }

  lemma SupplyKeepsPrice(r: ReserveState, amount: u64, slot: u64)
    requires Supply(r, amount, slot).Ok? && r.shareMintSupply > 0
    ensures Backed(r) && Backed(Supply(r, amount, slot).value.reserve)
    ensures PriceKept(r, Supply(r, amount, slot).value.reserve)
  {
    TotalLiquidityIsTotal(r);
    var Supplied(s, minted) := Supply(r, amount, slot).value;
    MintKeepsRatio(r.Total(), r.shareMintSupply, amount, minted);
  }

  lemma RedeemKeepsPrice(r: ReserveState, shares: u64, slot: u64)
    requires Redeem(r, shares, slot).Ok?
    ensures Backed(r) && Backed(Redeem(r, shares, slot).value.reserve)
    ensures PriceKept(r, Redeem(r, shares, slot).value.reserve)
  {
    TotalLiquidityIsTotal(r);
    var Redeemed(s, out) := Redeem(r, shares, slot).value;
    BurnKeepsRatio(r.Total(), r.shareMintSupply, shares, out);
  }

  lemma LendKeepsPrice(r: ReserveState, amount: u64)
    requires Lend(r, amount).Ok? && Backed(r)
    ensures Backed(Lend(r, amount).value.reserve) && PriceKept(r, Lend(r, amount).value.reserve)
    ensures r.Total() <= Lend(r, amount).value.reserve.Total()
  {
    OwedAfterDraw(r.borrowedPrincipal, amount, r.borrowIndex);
    SameSupplyKeepsPrice(r, Lend(r, amount).value.reserve);
  }

  lemma ReceiveKeepsPrice(r: ReserveState, principal: u128, amount: u64)
    requires Receive(r, principal, amount).Ok? && Backed(r)
    ensures Backed(Receive(r, principal, amount).value.reserve)
    ensures PriceKept(r, Receive(r, principal, amount).value.reserve)
  {
    var Received(s, removed) := Receive(r, principal, amount).value;
    MulMono(removed, FloorDiv(amount * SCALE, r.borrowIndex), r.borrowIndex);
    OwedAfterRemoval(r.borrowedPrincipal, removed, amount, r.borrowIndex);
    SameSupplyKeepsPrice(r, s);
  }

  lemma CollectFeesKeepsPrice(r: ReserveState, slot: u64)
    requires CollectFees(r, slot).Ok? && Backed(r)
    ensures Backed(CollectFees(r, slot).value.reserve) && PriceKept(r, CollectFees(r, slot).value.reserve)
    ensures r.Total() == CollectFees(r, slot).value.reserve.Total()
  {
    SameSupplyKeepsPrice(r, CollectFees(r, slot).value.reserve);
  }

  /** A write-off takes exactly the amount owed, or one unit less, off the pool's assets,
      and leaves the share price defined if and only if the fees are still covered by what
      remains. */
  lemma WriteOffCutsGross(r: ReserveState, principal: u128)
    requires WriteOff(r, principal).Ok?
    ensures var s := WriteOff(r, principal).value;
      var owed := Owed(principal, r.borrowIndex);
      && (s.Gross() == r.Gross() - owed || s.Gross() == r.Gross() - owed + 1)
      && (Backed(s) <==> r.accruedFees <= r.availableLiquidity + Owed(r.borrowedPrincipal - principal, r.borrowIndex))
  {
    OwedOfSum(r.borrowedPrincipal - principal, principal, r.borrowIndex);
  }
}
