/** A borrower's position (state/obligation.rs): at most four collateral entries and four
debt entries, one per reserve, with the valuations cached by the last refresh. */
module Obligations {
  import opened Wrappers
  import opened FixedPoint

  /** Names an account; reserves and obligations are told apart by it. */
  type Key = nat

  const MAX_OBLIGATION_RESERVES: nat := 4
  const FULL_CLOSE_HEALTH_FACTOR_BPS: nat := 9_500

  datatype Collateral = Collateral(reserve: Key, depositedShares: u64, marketValue: u128)
  datatype Liability = Liability(reserve: Key, borrowedPrincipal: u128, marketValue: u128)

  function DropAt<T>(xs: seq<T>, i: nat): seq<T>
    requires i < |xs|
  {
    xs[..i] + xs[i + 1..]
  }

  /** Index of the entry for `key`, or the length. */
  function CollateralIndex(ds: seq<Collateral>, key: Key): (i: nat)
    ensures i <= |ds| && (i < |ds| ==> ds[i].reserve == key)
    ensures forall j :: 0 <= j < i ==> ds[j].reserve != key
  {
    if ds == [] || ds[0].reserve == key then 0 else 1 + CollateralIndex(ds[1..], key)
  }

  function BorrowIndex(bs: seq<Liability>, key: Key): (i: nat)
    ensures i <= |bs| && (i < |bs| ==> bs[i].reserve == key)
    ensures forall j :: 0 <= j < i ==> bs[j].reserve != key
  {
    if bs == [] || bs[0].reserve == key then 0 else 1 + BorrowIndex(bs[1..], key)
  }

  datatype ObligationState = ObligationState(
    lastUpdateSlot: u64,
    stale: bool,
    pricesStressed: bool,
    depositedValue: u128,
    effectiveCollateralValue: u128,
    borrowedValue: u128,
    allowedBorrowValue: u128,
    unhealthyBorrowValue: u128,
    deposits: seq<Collateral>,
    borrows: seq<Liability>)
  {
    function RequireRefreshed(slot: u64): Result<()> {
      Need(!stale && lastUpdateSlot == slot, ObligationStale)
    }

    /** None is the healthy infinity of a position without debt. */
    function HealthFactorBps(): Result<Option<u128>> {
      if borrowedValue == 0 then Ok(None) else
      var hf :- MulDivFloor(unhealthyBorrowValue, BPS, borrowedValue);
      Ok(Some(hf))
    }

    predicate IsLiquidatable() { borrowedValue > unhealthyBorrowValue }

    function FindCollateral(key: Key): Result<nat> {
      var i := CollateralIndex(deposits, key);
      if i < |deposits| then Ok(i) else Err(ReserveNotFound)
    }

    function FindBorrow(key: Key): Result<nat> {
      var i := BorrowIndex(borrows, key);
      if i < |borrows| then Ok(i) else Err(ReserveNotFound)
    }
  }

  /** Entries unique per reserve, none empty, at most four of each. */
  ghost predicate WellFormed(o: ObligationState) {
    && |o.deposits| <= MAX_OBLIGATION_RESERVES
    && |o.borrows| <= MAX_OBLIGATION_RESERVES
    && (forall i :: 0 <= i < |o.deposits| ==> o.deposits[i].depositedShares > 0)
    && (forall i :: 0 <= i < |o.borrows| ==> o.borrows[i].borrowedPrincipal > 0)
    && (forall i, j :: 0 <= i < j < |o.deposits| ==> o.deposits[i].reserve != o.deposits[j].reserve)
    && (forall i, j :: 0 <= i < j < |o.borrows| ==> o.borrows[i].reserve != o.borrows[j].reserve)
  }

  /** Shares recorded against one reserve. */
  function RecordedShares(ds: seq<Collateral>, key: Key): nat {
    if ds == [] then 0 else (if ds[0].reserve == key then ds[0].depositedShares else 0) + RecordedShares(ds[1..], key)
  }

  /** Principal recorded against one reserve. */
  function RecordedPrincipal(bs: seq<Liability>, key: Key): nat {
    if bs == [] then 0 else
    (if bs[0].reserve == key then bs[0].borrowedPrincipal else 0) + RecordedPrincipal(bs[1..], key)
  }

  // ---------- entry updates ----------

  /** Find or push the entry, then add the shares. */
  function PutCollateral(ds: seq<Collateral>, key: Key, shares: u64): Result<seq<Collateral>> {
    var i := CollateralIndex(ds, key);
    if i < |ds| then
      var sum :- ToU64(ds[i].depositedShares + shares);
      Ok(ds[i := ds[i].(depositedShares := sum)])
    else if |ds| < MAX_OBLIGATION_RESERVES then Ok(ds + [Collateral(key, shares, 0)])
    else Err(TooManyReserves)
  }

  function PutPrincipal(bs: seq<Liability>, key: Key, principal: u128): Result<seq<Liability>> {
    var i := BorrowIndex(bs, key);
    if i < |bs| then
      var sum :- ToU128(bs[i].borrowedPrincipal + principal);
      Ok(bs[i := bs[i].(borrowedPrincipal := sum)])
    else if |bs| < MAX_OBLIGATION_RESERVES then Ok(bs + [Liability(key, principal, 0)])
    else Err(TooManyReserves)
  }

  /** Take shares from an entry; an emptied entry is removed. */
  function TakeCollateral(ds: seq<Collateral>, i: nat, shares: u64): seq<Collateral>
    requires i < |ds| && shares <= ds[i].depositedShares
  {
    if shares == ds[i].depositedShares then DropAt(ds, i)
    else ds[i := ds[i].(depositedShares := ds[i].depositedShares - shares)]
  }

  function TakePrincipal(bs: seq<Liability>, i: nat, principal: u128): seq<Liability>
    requires i < |bs| && principal <= bs[i].borrowedPrincipal
  {
    if principal == bs[i].borrowedPrincipal then DropAt(bs, i)
    else bs[i := bs[i].(borrowedPrincipal := bs[i].borrowedPrincipal - principal)]
  }

  /** The obligation account, updated in place. */
  class Obligation {
    var lastUpdateSlot: u64
    var stale: bool
    var pricesStressed: bool
    var depositedValue: u128
    var effectiveCollateralValue: u128
    var borrowedValue: u128
    var allowedBorrowValue: u128
    var unhealthyBorrowValue: u128
    var deposits: seq<Collateral>
    var borrows: seq<Liability>

    /** A new obligation is empty and stale. */
    constructor (slot: u64)
      ensures State() == ObligationState(slot, true, false, 0, 0, 0, 0, 0, [], [])
    {
      lastUpdateSlot, stale, pricesStressed := slot, true, false;
      depositedValue, effectiveCollateralValue, borrowedValue := 0, 0, 0;
      allowedBorrowValue, unhealthyBorrowValue := 0, 0;
      deposits, borrows := [], [];
    }

    function State(): ObligationState
      reads this
    {
      ObligationState(lastUpdateSlot, stale, pricesStressed, depositedValue, effectiveCollateralValue,
                      borrowedValue, allowedBorrowValue, unhealthyBorrowValue, deposits, borrows)
    }

    /** Index of the entry for `reserve`, pushing an empty one if there is room. */
    method UpsertCollateral(reserve: Key) returns (found: Result<nat>)
      modifies this`deposits
      ensures found.Err? <==> CollateralIndex(old(deposits), reserve) == |old(deposits)| >= MAX_OBLIGATION_RESERVES
      ensures found.Err? ==> found.error == TooManyReserves && deposits == old(deposits)
      ensures found.Ok? ==>
        && found.value == CollateralIndex(old(deposits), reserve) < |deposits|
        && deposits == old(deposits) + if found.value < |old(deposits)| then [] else [Collateral(reserve, 0, 0)]
    {
      var i := CollateralIndex(deposits, reserve);
      if i < |deposits| { return Ok(i); }
      var _ :- Need(|deposits| < MAX_OBLIGATION_RESERVES, TooManyReserves);
      deposits := deposits + [Collateral(reserve, 0, 0)];
      return Ok(|deposits| - 1);
    }

    method UpsertBorrow(reserve: Key) returns (found: Result<nat>)
      modifies this`borrows
      ensures found.Err? <==> BorrowIndex(old(borrows), reserve) == |old(borrows)| >= MAX_OBLIGATION_RESERVES
      ensures found.Err? ==> found.error == TooManyReserves && borrows == old(borrows)
      ensures found.Ok? ==>
        && found.value == BorrowIndex(old(borrows), reserve) < |borrows|
        && borrows == old(borrows) + if found.value < |old(borrows)| then [] else [Liability(reserve, 0, 0)]
    {
      var i := BorrowIndex(borrows, reserve);
      if i < |borrows| { return Ok(i); }
      var _ :- Need(|borrows| < MAX_OBLIGATION_RESERVES, TooManyReserves);
      borrows := borrows + [Liability(reserve, 0, 0)];
      return Ok(|borrows| - 1);
    }

    /** Upsert, then add: a borrower's debt entry after drawing `principal`. */
    method AddPrincipal(reserve: Key, principal: u128) returns (added: Result<()>)
      modifies this`borrows
      ensures match PutPrincipal(old(borrows), reserve, principal)
        case Ok(bs) => added.Ok? && borrows == bs
        case Err(e) => added == Err(e) && borrows == old(borrows)
    {
      var i := BorrowIndex(borrows, reserve);
      var sum :- ToU128(if i < |borrows| then borrows[i].borrowedPrincipal + principal else principal);
      var _ :- UpsertBorrow(reserve);
      borrows := borrows[i := borrows[i].(borrowedPrincipal := sum)];
      return Ok(());
    }

    method AddShares(reserve: Key, shares: u64) returns (added: Result<()>)
      modifies this`deposits
      ensures match PutCollateral(old(deposits), reserve, shares)
        case Ok(ds) => added.Ok? && deposits == ds
        case Err(e) => added == Err(e) && deposits == old(deposits)
    {
      var i := CollateralIndex(deposits, reserve);
      var sum :- ToU64(if i < |deposits| then deposits[i].depositedShares + shares else shares);
      var _ :- UpsertCollateral(reserve);
      deposits := deposits[i := deposits[i].(depositedShares := sum)];
      return Ok(());
    }

    /** Take principal from an entry, and remove the entry once it holds none. */
    method ReleasePrincipal(i: nat, principal: u128)
      requires i < |borrows| && principal <= borrows[i].borrowedPrincipal
      modifies this`borrows
      ensures borrows == TakePrincipal(old(borrows), i, principal)
    {
      borrows := borrows[i := borrows[i].(borrowedPrincipal := borrows[i].borrowedPrincipal - principal)];
      if borrows[i].borrowedPrincipal == 0 { borrows := DropAt(borrows, i); }
    }

    method ReleaseShares(i: nat, shares: u64)
      requires i < |deposits| && shares <= deposits[i].depositedShares
      modifies this`deposits
      ensures deposits == TakeCollateral(old(deposits), i, shares)
    {
      deposits := deposits[i := deposits[i].(depositedShares := deposits[i].depositedShares - shares)];
      if deposits[i].depositedShares == 0 { deposits := DropAt(deposits, i); }
    }
  }

  // ---------- what the updates record, and what they keep ----------

  lemma RecordedSharesOfConcat(xs: seq<Collateral>, ys: seq<Collateral>, key: Key)
    ensures RecordedShares(xs + ys, key) == RecordedShares(xs, key) + RecordedShares(ys, key)
  {
    if xs == [] {
      assert xs + ys == ys;
    } else {
      assert (xs + ys)[1..] == xs[1..] + ys;
      RecordedSharesOfConcat(xs[1..], ys, key);
    }
  }

  /** Replacing, or removing, the entry at i changes the record by that entry alone. */
  lemma RecordedSharesOfSplice(xs: seq<Collateral>, i: nat, mid: seq<Collateral>, key: Key)
    requires i < |xs|
    ensures RecordedShares(xs[..i] + mid + xs[i + 1..], key) + RecordedShares([xs[i]], key)
         == RecordedShares(xs, key) + RecordedShares(mid, key)
  {
    assert xs == xs[..i] + [xs[i]] + xs[i + 1..];
    RecordedSharesOfConcat(xs[..i] + mid, xs[i + 1..], key);
    RecordedSharesOfConcat(xs[..i], mid, key);
    RecordedSharesOfConcat(xs[..i] + [xs[i]], xs[i + 1..], key);
    RecordedSharesOfConcat(xs[..i], [xs[i]], key);
  }

  lemma PutCollateralRecords(xs: seq<Collateral>, key: Key, shares: u64, other: Key)
    requires PutCollateral(xs, key, shares).Ok?
    ensures RecordedShares(PutCollateral(xs, key, shares).value, other)
        == RecordedShares(xs, other) + if other == key then shares else 0
  {
    var i, es := CollateralIndex(xs, key), PutCollateral(xs, key, shares).value;
    if i < |xs| {
      assert es == xs[..i] + [es[i]] + xs[i + 1..];
      RecordedSharesOfSplice(xs, i, [es[i]], other);
    } else {
      RecordedSharesOfConcat(xs, [Collateral(key, shares, 0)], other);
    }
  }

  lemma TakeCollateralRecords(xs: seq<Collateral>, i: nat, shares: u64, other: Key)
    requires i < |xs| && shares <= xs[i].depositedShares
    ensures RecordedShares(TakeCollateral(xs, i, shares), other) + (if other == xs[i].reserve then shares else 0)
        == RecordedShares(xs, other)
  {
    var es := TakeCollateral(xs, i, shares);
    if shares == xs[i].depositedShares {
      assert es == xs[..i] + [] + xs[i + 1..];
      RecordedSharesOfSplice(xs, i, [], other);
    } else {
      assert es == xs[..i] + [es[i]] + xs[i + 1..];
      RecordedSharesOfSplice(xs, i, [es[i]], other);
    }
  }

  lemma PutCollateralKept(o: ObligationState, key: Key, shares: u64)
    requires WellFormed(o) && shares > 0 && PutCollateral(o.deposits, key, shares).Ok?
    ensures WellFormed(o.(deposits := PutCollateral(o.deposits, key, shares).value))
  {
  }

  lemma TakeCollateralKept(o: ObligationState, i: nat, shares: u64)
    requires WellFormed(o) && i < |o.deposits| && shares <= o.deposits[i].depositedShares
    ensures WellFormed(o.(deposits := TakeCollateral(o.deposits, i, shares)))
  {
    var xs, es := o.deposits, TakeCollateral(o.deposits, i, shares);
    if shares == xs[i].depositedShares {
      assert forall k :: 0 <= k < |es| ==> es[k] == xs[if k < i then k else k + 1];
    } else {
      assert forall k :: 0 <= k < |es| ==> es[k].reserve == xs[k].reserve;
    }
  }

  lemma RecordedPrincipalOfConcat(xs: seq<Liability>, ys: seq<Liability>, key: Key)
    ensures RecordedPrincipal(xs + ys, key) == RecordedPrincipal(xs, key) + RecordedPrincipal(ys, key)
  {
    if xs == [] {
      assert xs + ys == ys;
    } else {
      assert (xs + ys)[1..] == xs[1..] + ys;
      RecordedPrincipalOfConcat(xs[1..], ys, key);
    }
  }

  /** Replacing, or removing, the entry at i changes the record by that entry alone. */
  lemma RecordedPrincipalOfSplice(xs: seq<Liability>, i: nat, mid: seq<Liability>, key: Key)
    requires i < |xs|
    ensures RecordedPrincipal(xs[..i] + mid + xs[i + 1..], key) + RecordedPrincipal([xs[i]], key)
         == RecordedPrincipal(xs, key) + RecordedPrincipal(mid, key)
  {
    assert xs == xs[..i] + [xs[i]] + xs[i + 1..];
    RecordedPrincipalOfConcat(xs[..i] + mid, xs[i + 1..], key);
    RecordedPrincipalOfConcat(xs[..i], mid, key);
    RecordedPrincipalOfConcat(xs[..i] + [xs[i]], xs[i + 1..], key);
    RecordedPrincipalOfConcat(xs[..i], [xs[i]], key);
  }

  lemma PutPrincipalRecords(xs: seq<Liability>, key: Key, principal: u128, other: Key)
    requires PutPrincipal(xs, key, principal).Ok?
    ensures RecordedPrincipal(PutPrincipal(xs, key, principal).value, other)
        == RecordedPrincipal(xs, other) + if other == key then principal else 0
  {
    var i, es := BorrowIndex(xs, key), PutPrincipal(xs, key, principal).value;
    if i < |xs| {
      assert es == xs[..i] + [es[i]] + xs[i + 1..];
      RecordedPrincipalOfSplice(xs, i, [es[i]], other);
    } else {
      RecordedPrincipalOfConcat(xs, [Liability(key, principal, 0)], other);
    }
  }

  lemma TakePrincipalRecords(xs: seq<Liability>, i: nat, principal: u128, other: Key)
    requires i < |xs| && principal <= xs[i].borrowedPrincipal
    ensures RecordedPrincipal(TakePrincipal(xs, i, principal), other)
        + (if other == xs[i].reserve then principal else 0) == RecordedPrincipal(xs, other)
  {
    var es := TakePrincipal(xs, i, principal);
    if principal == xs[i].borrowedPrincipal {
      assert es == xs[..i] + [] + xs[i + 1..];
      RecordedPrincipalOfSplice(xs, i, [], other);
    } else {
      assert es == xs[..i] + [es[i]] + xs[i + 1..];
      RecordedPrincipalOfSplice(xs, i, [es[i]], other);
    }
  }

  lemma PutPrincipalKept(o: ObligationState, key: Key, principal: u128)
    requires WellFormed(o) && principal > 0 && PutPrincipal(o.borrows, key, principal).Ok?
    ensures WellFormed(o.(borrows := PutPrincipal(o.borrows, key, principal).value))
  {
  }

  lemma TakePrincipalKept(o: ObligationState, i: nat, principal: u128)
    requires WellFormed(o) && i < |o.borrows| && principal <= o.borrows[i].borrowedPrincipal
    ensures WellFormed(o.(borrows := TakePrincipal(o.borrows, i, principal)))
  {
    var xs, es := o.borrows, TakePrincipal(o.borrows, i, principal);
    if principal == xs[i].borrowedPrincipal {
      assert forall k :: 0 <= k < |es| ==> es[k] == xs[if k < i then k else k + 1];
    } else {
      assert forall k :: 0 <= k < |es| ==> es[k].reserve == xs[k].reserve;
    }
  }
}
