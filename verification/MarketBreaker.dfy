/** The breaker for market prices (oracle/market_breaker.rs): falls are always accepted,
rises are rationed, and degraded information may only lower the price. */
module MarketBreaker {
  import opened Wrappers
  import opened FixedPoint
  import opened Health
  import opened MarketHistory

  datatype Degradation = Degradation(poolsDisagree: bool, shallow: bool)
  {
    predicate Any() { poolsDisagree || shallow }
  }

  datatype MarketVerdict = MarketVerdict(acceptedPrice: u128, health: OracleHealth, movedBps: nat, rose: bool,
                                         riseCapped: bool)

  function AbsDiff(a: nat, b: nat): nat { if a >= b then a - b else b - a }

  function SaturatingMul(a: nat, b: nat): u128 { Min(a * b, U128_MAX) }

  /** Movement in basis points of `previous`; the product saturates. */
  function MovedBps(previous: u128, next: u128): nat {
    if previous == 0 then 0 else FloorDiv(SaturatingMul(AbsDiff(previous, next), BPS), previous)
  }

  function Worse(a: OracleHealth, b: OracleHealth): OracleHealth {
    if a.Rank() >= b.Rank() then a else b
  }

  function AgeHealth(age: int, c: MarketOracleConfig): OracleHealth {
    if age >= c.maxObservationAgeSeconds then BorrowFrozen
    else if age >= c.warnAgeSeconds then RateWarning
    else Healthy
  }

  /** How far one rise may go. */
  function CappedPrice(current: u128, limit: u16): (p: u128)
    ensures p == FloorDiv(SaturatingMul(current, BPS + limit), BPS)
  {
    QuotientFits(SaturatingMul(current, BPS + limit), BPS);
    FloorDiv(SaturatingMul(current, BPS + limit), BPS)
  }

  function EvaluateMarket(current: Option<u128>, twap: u128, bootstrapped: bool, age: int, d: Degradation,
                          c: MarketOracleConfig): MarketVerdict {
    if current.None? then MarketVerdict(twap, Bootstrapping, 0, false, false) else
    var price, moved := current.value, MovedBps(current.value, twap);
    var floor := if bootstrapped then Healthy else Bootstrapping;
    var ageHealth := AgeHealth(age, c);
    if twap <= price then
      MarketVerdict(twap, Worse(if d.Any() then Worse(ageHealth, BorrowFrozen) else ageHealth, floor), moved, false,
                    false)
    else if d.Any() then
      MarketVerdict(price, Worse(BorrowFrozen, floor), moved, true, true)
    else if moved <= c.maxRiseBpsPerWindow then
      MarketVerdict(twap, Worse(ageHealth, floor), moved, true, false)
    else
      MarketVerdict(Min(CappedPrice(price, c.maxRiseBpsPerWindow), twap), Worse(BorrowFrozen, floor), moved, true, true)
  }

  // ---------- direction and health ----------

  /** Falls apply at any size, whatever the state of the information; degraded information
      never raises a price; nothing overshoots the average. */
  lemma FallsAlwaysApply(price: u128, twap: u128, bootstrapped: bool, age: int, d: Degradation, c: MarketOracleConfig)
    ensures var v := EvaluateMarket(Some(price), twap, bootstrapped, age, d, c);
      && (twap <= price ==> v.acceptedPrice == twap && !v.riseCapped)
      && (d.Any() ==> v.acceptedPrice == Min(price, twap))
      && v.acceptedPrice <= Max(price, twap)
      && (v.rose <==> twap > price)
  {
  }

  /** New risk is permitted exactly on a confirmed, recent, undegraded average that did not
      rise past the limit. */
  lemma PermitsExactlyWhenSound(current: Option<u128>, twap: u128, bootstrapped: bool, age: int, d: Degradation,
                                c: MarketOracleConfig)
    requires c.Valid()
    ensures EvaluateMarket(current, twap, bootstrapped, age, d, c).health.Permits(Borrow) <==>
      && current.Some? && bootstrapped && age < c.maxObservationAgeSeconds && !d.Any()
      && (twap <= current.value || MovedBps(current.value, twap) <= c.maxRiseBpsPerWindow)
  {
  }

  // ---------- how far one evaluation may raise the price ----------

  /** The price after one evaluation on sound information. */
  function NextPrice(price: u128, twap: u128, limit: u16): u128 {
    if twap <= price || MovedBps(price, twap) <= limit then twap else Min(CappedPrice(price, limit), twap)
  }

  lemma NextPriceIsAccepted(price: u128, twap: u128, bootstrapped: bool, age: int, d: Degradation,
                            c: MarketOracleConfig)
    ensures EvaluateMarket(Some(price), twap, bootstrapped, age, d, c).acceptedPrice
         == if d.Any() then Min(price, twap) else NextPrice(price, twap, c.maxRiseBpsPerWindow)
  {
  }

  /** Without saturation, movement is exact. */
  lemma WithinLimit(price: u128, twap: u128, limit: u16)
    requires price > 0 && price <= twap
    ensures (twap - price) * BPS <= U128_MAX ==>
      (MovedBps(price, twap) <= limit <==> twap * BPS < price * (BPS + limit + 1))
    ensures (twap - price) * BPS > U128_MAX ==> (MovedBps(price, twap) <= limit <==> U128_MAX < price * (limit + 1))
  {
    hide FloorDiv;
    var n := SaturatingMul(twap - price, BPS);
    FloorIsLargest(limit + 1, n, price);
    assert (limit + 1) * price == price * (limit + 1);
    assert price * (BPS + limit + 1) == price * BPS + price * (limit + 1)
      && (twap - price) * BPS == twap * BPS - price * BPS;
  }

  lemma CapWithinLimit(price: u128, limit: u16)
    requires price > 0
    ensures CappedPrice(price, limit) * BPS <= price * (BPS + limit) < price * (BPS + limit + 1)
  {
    hide FloorDiv;
    assert price * (BPS + limit + 1) == price * (BPS + limit) + price;
  }

  /** No average can raise the price by a factor of (10001 + limit) / 10000 or more, exactly
      while the limit's product fits 128 bits or the price is too close to the width's end
      for such an average to exist. */
  lemma RiseIsBoundedIff(price: u128, limit: u16)
    requires price > 0
    ensures (forall twap: u128 :: NextPrice(price, twap, limit) * BPS < price * (BPS + limit + 1))
       <==> (price * (limit + 1) <= U128_MAX || U128_MAX * BPS < price * (BPS + limit + 1))
  {
    hide NextPrice, MovedBps;
    var top: u128 := U128_MAX;
    if price * (limit + 1) <= top || top * BPS < price * (BPS + limit + 1) {
      forall twap: u128 ensures NextPrice(price, twap, limit) * BPS < price * (BPS + limit + 1) {
        BoundedRise(price, twap, limit);
      }
    } else {
      UnboundedRise(price, limit);
    }
  }

  lemma BoundedRise(price: u128, twap: u128, limit: u16)
    requires price > 0
    requires price * (limit + 1) <= U128_MAX || twap * BPS < price * (BPS + limit + 1)
      || U128_MAX * BPS < price * (BPS + limit + 1)
    ensures NextPrice(price, twap, limit) * BPS < price * (BPS + limit + 1)
  {
    hide MovedBps, CappedPrice;
    assert price * (BPS + limit + 1) == price * BPS + price * (limit + 1);
    MulMono(1, limit + 1, price);
    MulMono(twap, U128_MAX, BPS);
    if twap > price {
      WithinLimit(price, twap, limit);
      CapWithinLimit(price, limit);
      MulMono(Min(CappedPrice(price, limit), twap), CappedPrice(price, limit), BPS);
    } else {
      MulMono(twap, price, BPS);
    }
  }

  lemma UnboundedRise(price: u128, limit: u16)
    requires price > 0 && price * (limit + 1) > U128_MAX && U128_MAX * BPS >= price * (BPS + limit + 1)
    ensures NextPrice(price, U128_MAX, limit) * BPS >= price * (BPS + limit + 1)
  {
    hide MovedBps, CappedPrice;
    assert price * (BPS + limit + 1) == price * BPS + price * (limit + 1);
    if price < U128_MAX { WithinLimit(price, U128_MAX, limit); }
  }

  /** A price may double in one evaluation under a ten per cent limit. */
  lemma RiseMayEscapeItsLimit()
    ensures var price: u128 := 400_000_000_000_000_000_000_000_000_000_000_000;
      NextPrice(price, 2 * price, 1_000) == 2 * price && 2 * price * BPS >= price * (BPS + 1_000 + 1)
  {
  }

  // ---------- convergence ----------

  /** A capped rise makes progress exactly when the limit is worth a unit and one unit more
      still has its product in 128 bits. */
  lemma CapRaisesIff(price: u128, limit: u16)
    ensures CappedPrice(price, limit) > price <==> price * limit >= BPS && (price + 1) * BPS <= U128_MAX
  {
    hide FloorDiv;
    FloorIsLargest(price + 1, SaturatingMul(price, BPS + limit), BPS);
    assert price * (BPS + limit) == price * BPS + price * limit && (price + 1) * BPS == price * BPS + BPS;
  }

  /** The price after `n` evaluations against one average. */
  function Evaluations(price: u128, twap: u128, limit: u16, n: nat): u128
    decreases n
  {
    if n == 0 then price else Evaluations(NextPrice(price, twap, limit), twap, limit, n - 1)
  }

  /** The highest price whose product with a whole still fits 128 bits: no cap is above it. */
  const CAP_CEILING: u128 := U128_MAX / BPS

  lemma CapBounds(price: u128, limit: u16)
    ensures Min(price, CAP_CEILING) <= CappedPrice(price, limit) <= CAP_CEILING
    ensures price * limit < BPS ==> CappedPrice(price, limit) <= price
    ensures price * limit >= BPS && price < CAP_CEILING ==> price < CappedPrice(price, limit)
  {
    assert price * (BPS + limit) == price * BPS + price * limit;
    QuotientBounds(price, price * limit);
  }

  lemma QuotientBounds(price: u128, over: nat)
    ensures var cap := FloorDiv(Min(price * BPS + over, U128_MAX), BPS);
      && Min(price, CAP_CEILING) <= cap <= CAP_CEILING
      && (over < BPS ==> cap <= price)
      && (over >= BPS && price < CAP_CEILING ==> price < cap)
  {
    var n := Min(price * BPS + over, U128_MAX);
    hide FloorDiv;
    FloorIsLargest(Min(price, CAP_CEILING), n, BPS);
    FloorIsLargest(CAP_CEILING + 1, n, BPS);
    FloorIsLargest(price + 1, n, BPS);
  }

  /** The measured movement to one average shrinks as the price comes closer. */
  lemma MovedAntitone(price: u128, closer: u128, twap: u128)
    requires 0 < price <= closer <= twap
    ensures MovedBps(closer, twap) <= MovedBps(price, twap)
  {
    hide FloorDiv;
    var moved := MovedBps(closer, twap);
    FloorIsLargest(moved, SaturatingMul(twap - closer, BPS), closer);
    MulMono(price, closer, moved);
    FloorIsLargest(moved, SaturatingMul(twap - price, BPS), price);
  }

  /** Within the limit already, or the limit worth a unit of price and the average within it
      at the ceiling of every cap. */
  predicate InReach(price: u128, twap: u128, limit: u16) {
    MovedBps(price, twap) <= limit || (price * limit >= BPS && MovedBps(Min(twap, CAP_CEILING), twap) <= limit)
  }

  /** Repeated evaluation reaches a higher average exactly when it is in reach. */
  lemma ConvergesIff(price: u128, twap: u128, limit: u16)
    requires 0 < price < twap
    ensures (exists n: nat :: Evaluations(price, twap, limit, n) == twap) <==> InReach(price, twap, limit)
  {
    hide InReach, Evaluations;
    if InReach(price, twap, limit) {
      ClimbsToAverage(price, twap, limit);
    } else {
      forall n: nat ensures Evaluations(price, twap, limit, n) != twap { StaysOutOfReach(price, twap, limit, n); }
    }
  }

  /** It then takes no more evaluations than the gap has units. */
  lemma {:induction false} ClimbsToAverage(price: u128, twap: u128, limit: u16)
    requires 0 < price < twap && InReach(price, twap, limit)
    ensures exists n: nat :: n <= twap - price && Evaluations(price, twap, limit, n) == twap
    decreases twap - price
  {
    hide MovedBps, CappedPrice;
    var next := NextPrice(price, twap, limit);
    if next == twap {
      ReachesAtOnce(price, twap, limit);
    } else {
      if price >= CAP_CEILING { MovedAntitone(CAP_CEILING, price, twap); }
      CapBounds(price, limit);
      MulMono(price, next, limit);
      ClimbsToAverage(next, twap, limit);
      var n: nat :| n <= twap - next && Evaluations(next, twap, limit, n) == twap;
      var m: nat := n + 1;
      assert m <= twap - price && Evaluations(price, twap, limit, m) == twap;
    }
  }

  /** Out of reach stays out of reach. */
  lemma {:induction false} StaysOutOfReach(price: u128, twap: u128, limit: u16, n: nat)
    requires 0 < price < twap && !InReach(price, twap, limit)
    ensures Evaluations(price, twap, limit, n) != twap
    decreases n
  {
    hide InReach, NextPrice;
    if n > 0 {
      OneStepOutOfReach(price, twap, limit);
      StaysOutOfReach(NextPrice(price, twap, limit), twap, limit, n - 1);
    }
  }

  lemma OneStepOutOfReach(price: u128, twap: u128, limit: u16)
    requires 0 < price < twap && !InReach(price, twap, limit)
    ensures 0 < NextPrice(price, twap, limit) < twap && !InReach(NextPrice(price, twap, limit), twap, limit)
  {
    assert MovedBps(twap, twap) == 0;
    hide MovedBps, CappedPrice;
    var next := NextPrice(price, twap, limit);
    CapBounds(price, limit);
    if price > CAP_CEILING { MovedAntitone(CAP_CEILING, price, twap); }
    if next <= CAP_CEILING < twap { MovedAntitone(next, CAP_CEILING, twap); }
  }

  lemma ReachesAtOnce(price: u128, twap: u128, limit: u16)
    requires NextPrice(price, twap, limit) == twap
    ensures exists n: nat :: n <= 1 && Evaluations(price, twap, limit, n) == twap
  {
    var n: nat := 1;
    assert Evaluations(NextPrice(price, twap, limit), twap, limit, n - 1) == twap;
    assert Evaluations(price, twap, limit, n) == twap;
  }

  /** A higher average never lowers the price, exactly while the movement is within the limit
      or the price is at most the ceiling of every cap. */
  lemma RiseNeverLowersIff(price: u128, twap: u128, limit: u16)
    requires 0 < price < twap
    ensures NextPrice(price, twap, limit) >= price <==> MovedBps(price, twap) <= limit || price <= CAP_CEILING
  {
    hide MovedBps, CappedPrice;
    CapBounds(price, limit);
  }

  /** Under a ten per cent limit a price may be more than halved by an average twice as high. */
  lemma RiseMayHalveThePrice()
    ensures var price: u128 := 70_000_000_000_000_000_000_000_000_000_000_000;
      NextPrice(price, 2 * price, 1_000) == CAP_CEILING && 2 * CAP_CEILING < price
  {
  }

  /** Two averages out of reach under a ten per cent limit: a price of one cannot move, and
      one at the ceiling of every cap is capped where it stands. */
  lemma RiseMayStandStill(n: nat)
    ensures Evaluations(1, 2, 1_000, n) == 1
    ensures Evaluations(CAP_CEILING, 2 * CAP_CEILING, 1_000, n) == CAP_CEILING
  {
    assert NextPrice(1, 2, 1_000) == 1 && NextPrice(CAP_CEILING, 2 * CAP_CEILING, 1_000) == CAP_CEILING;
    hide NextPrice;
    StandsStill(1, 2, 1_000, n);
    StandsStill(CAP_CEILING, 2 * CAP_CEILING, 1_000, n);
  }

  lemma {:induction false} StandsStill(price: u128, twap: u128, limit: u16, n: nat)
    requires NextPrice(price, twap, limit) == price
    ensures Evaluations(price, twap, limit, n) == price
    decreases n
  {
    hide NextPrice;
    if n > 0 { StandsStill(price, twap, limit, n - 1); }
  }
}
