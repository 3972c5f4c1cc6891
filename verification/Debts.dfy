/** Debt as index-scaled principal. A borrower and a whole reserve store principal p; at
index i they owe `Owed(p, i)`, rounded up. Every later bound on borrowing, repaying,
liquidating and writing off rests on the laws here. */
module Debts {
  import opened Wrappers
  import opened FixedPoint

  /** ceil(principal * index / SCALE): what index-scaled principal is worth. */
  function Owed(principal: nat, index: nat): nat { CeilDiv(principal * index, SCALE) }

  /** The program's computation, used alike by `debt_at`, `current_borrowed_amount` and the
      inlined copy in `refresh_obligation`: floor, then one more if anything was cut off. */
  function DebtAt(principal: nat, index: nat): (debt: Result<u64>)
    ensures debt.Ok? <==> principal * index <= U128_MAX && Owed(principal, index) <= U64_MAX
    ensures debt.Ok? ==> debt.value == Owed(principal, index)
  {
    var exact :- ToU128(principal * index);
    var floor := exact / SCALE;
    ToU64(if exact % SCALE == 0 then floor else floor + 1)
  }

  /** Principal charged for drawing `amount`: rounded up. */
  function PrincipalAdded(amount: nat, index: nat): Result<u128> {
    MulDivCeil(amount, SCALE, index)
  }

  /** Principal released by paying `amount` against `principal`: rounded down, capped. */
  function PrincipalRemoved(amount: nat, principal: u128, index: nat): Result<u128> {
    var removed :- MulDivFloor(amount, SCALE, index);
    Ok(Min(removed, principal))
  }

  lemma NoPrincipalNoDebt(index: nat)
    ensures Owed(0, index) == 0
  {
    assert 0 * index == 0;
  }

  lemma OwedMono(p: nat, q: nat, i: nat, j: nat)
    requires p <= q && i <= j
    ensures Owed(p, i) <= Owed(q, j)
  {
    MulMono(p, q, i);
    MulMono(i, j, q);
    CeilMono(p * i, q * j, SCALE);
  }

  /** Two debts, rounded apart, exceed the joint debt by at most one unit. */
  lemma OwedOfSum(p: nat, q: nat, i: nat)
    ensures Owed(p + q, i) <= Owed(p, i) + Owed(q, i) <= Owed(p + q, i) + 1
  {
    assert (p + q) * i == p * i + q * i;
    CeilOfSum(p * i, q * i, SCALE);
  }

  /** Drawing `amount` raises the debt by at least `amount`, and by at most `amount` plus
      one unit of principal's worth. */
  lemma OwedAfterDraw(p: nat, amount: nat, i: nat)
    requires PrincipalAdded(amount, i).Ok?
    ensures Owed(p, i) + amount <= Owed(p + PrincipalAdded(amount, i).value, i)
    ensures Owed(p + PrincipalAdded(amount, i).value, i) <= Owed(p, i) + amount + CeilDiv(i, SCALE)
  {
    var k := PrincipalAdded(amount, i).value;
    assert (p + k) * i == p * i + k * i;
    CeilOfWhole(p * i, amount, SCALE);
    CeilMono(p * i + amount * SCALE, (p + k) * i, SCALE);
    CeilMono((p + k) * i, p * i + amount * SCALE + i, SCALE);
    CeilOfSum(p * i + amount * SCALE, i, SCALE);
  }

  /** Principal bought at or below its price takes no more debt away than was paid. */
  lemma OwedAfterRemoval(p: nat, removed: nat, amount: nat, i: nat)
    requires removed <= p && removed * i <= amount * SCALE
    ensures Owed(p, i) <= Owed(p - removed, i) + amount
  {
    var q := p - removed;
    assert p * i == q * i + removed * i;
    CeilOfWhole(q * i, amount, SCALE);
    CeilMono(p * i, q * i + amount * SCALE, SCALE);
  }

  /** Paying `amount` lowers the debt by at most `amount`, and falls short of it by at most
      one unit of principal's worth. */
  lemma OwedAfterPayment(p: u128, amount: nat, i: nat)
    requires PrincipalRemoved(amount, p, i).Ok? && amount <= Owed(p, i)
    ensures var q := p - PrincipalRemoved(amount, p, i).value;
      Owed(p, i) <= Owed(q, i) + amount <= Owed(p, i) + CeilDiv(i, SCALE)
  {
    var k := PrincipalRemoved(amount, p, i).value;
    var q := p - k;
    MulMono(k, FloorDiv(amount * SCALE, i), i);
    OwedAfterRemoval(p, k, amount, i);
    assert p * i == q * i + k * i;
    if k < p {
      CeilOfWhole(q * i, amount, SCALE);
      CeilMono(q * i + amount * SCALE, p * i + i, SCALE);
      CeilOfSum(p * i, i, SCALE);
    }
  }

  /** The entry is emptied by a payment exactly when nothing less than all of the principal
      was bought; paying the whole debt always buys it. */
  lemma FullPaymentClears(p: u128, amount: nat, i: nat)
    requires PrincipalRemoved(amount, p, i).Ok?
    ensures PrincipalRemoved(amount, p, i).value == p <==> p * i <= amount * SCALE
    ensures amount >= Owed(p, i) ==> PrincipalRemoved(amount, p, i).value == p
  {
    FloorIsLargest(p, amount * SCALE, i);
  }
}
