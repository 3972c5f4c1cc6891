/** The market oracle over whole runs: what its ring holds, and how fast its reference can
rise whatever the calling pattern. */
module MarketRuns {
  import opened Wrappers
  import opened FixedPoint
  import opened Powers
  import opened MarketHistory
  import opened MarketBreaker
  import opened MarketRefresh

  ghost predicate ValidPokes(ps: seq<Poke>) { forall i :: 0 <= i < |ps| ==> ps[i].setup.config.Valid() }

  /** A failed refresh changes nothing. */
  function AfterPoke(s: MarketState, p: Poke): (t: MarketState)
    requires Genuine(s.ring) && p.setup.config.Valid()
    ensures Genuine(t.ring)
  {
    match RefreshMarket(s, p)
    case Ok(t) =>
      RingStaysInTime(s.ring, ReadPools(p.a, p.b, p.setup).value, p);
      t
    case Err(_) => s
  }

  function PokeRun(s: MarketState, ps: seq<Poke>): (t: MarketState)
    requires Genuine(s.ring) && ValidPokes(ps)
    ensures Genuine(t.ring)
    decreases ps
  {
    if ps == [] then s else PokeRun(AfterPoke(s, ps[0]), ps[1..])
  }

  /** The refresh succeeds and appends an observation. */
  predicate Appends(s: MarketState, p: Poke)
    requires Genuine(s.ring) && p.setup.config.Valid()
  {
    RefreshMarket(s, p).Ok? && IsSpaced(s.ring, p.setup.config, p.now)
  }

  // ---------- the ring refines the history ----------

  /** The history after one refresh. */
  function HistoryWith(h: seq<Observation>, s: MarketState, p: Poke): seq<Observation>
    requires Genuine(s.ring) && p.setup.config.Valid()
  {
    if Appends(s, p) then h + [Observing(ReadPools(p.a, p.b, p.setup).value, p)] else h
  }

  /** Everything recorded before and during the run. */
  function HistoryAfter(h: seq<Observation>, s: MarketState, ps: seq<Poke>): seq<Observation>
    requires Genuine(s.ring) && ValidPokes(ps)
    decreases ps
  {
    if ps == [] then h
    else HistoryAfter(HistoryWith(h, s, ps[0]), AfterPoke(s, ps[0]), ps[1..])
  }

  lemma PokeHolds(h: seq<Observation>, s: MarketState, p: Poke)
    requires Holds(s.ring, h) && Increasing(h) && p.setup.config.Valid()
    ensures Genuine(s.ring)
    ensures Holds(AfterPoke(s, p).ring, HistoryWith(h, s, p)) && Increasing(HistoryWith(h, s, p))
  {
    assert Genuine(s.ring);
    hide Holds, Increasing, ReadPools, MarketOracleConfig.Valid, TwapOf, Evaluated, Push;
    if RefreshMarket(s, p).Ok? { RefreshHolds(s.ring, h, ReadPools(p.a, p.b, p.setup).value, p); }
  }

  lemma {:induction false} RunHolds(h: seq<Observation>, s: MarketState, ps: seq<Poke>)
    requires Holds(s.ring, h) && Increasing(h) && ValidPokes(ps)
    ensures Genuine(s.ring)
    ensures var r, all := PokeRun(s, ps).ring, HistoryAfter(h, s, ps);
      && Holds(r, all) && Increasing(all)
      && SortByTime(r.observations) == Recent(all)
      && Latest(r) == if all == [] then None else Some(all[|all| - 1])
    decreases ps
  {
    assert Genuine(s.ring);
    hide Holds, Increasing, AfterPoke, Appends, Genuine, SortByTime, Latest, HistoryWith;
    if ps == [] {
      OrderedIsRecent(s.ring, h);
    } else {
      var p := ps[0];
      PokeHolds(h, s, p);
      RunHolds(HistoryWith(h, s, p), AfterPoke(s, p), ps[1..]);
    }
  }

  /** Opening for borrowing takes recordings spread over real time: enough of the recent ones,
      the oldest and the newest of them far enough apart. */
  lemma BootstrapTakesElapsedTime(h: seq<Observation>, r: Ring, c: MarketOracleConfig)
    requires Holds(r, h) && Increasing(h) && c.Valid()
    ensures var recent := Recent(h);
      IsBootstrapped(r, c) <==>
      |recent| >= c.minObservations && recent[|recent| - 1].timestamp - recent[0].timestamp >= c.minSpanSeconds
  {
    OrderedIsRecent(r, h);
    hide SortByTime, Increasing;
  }

  lemma EmptyRingIsGenuine()
    ensures Holds(EMPTY, []) && Increasing([]) && Genuine(EMPTY)
  {
  }

  /** After any run of refreshes of a new account, under valid configurations, changing ones
      included, the sorted ring is exactly the last min(n, 32) recorded observations in
      strictly increasing order, and its newest is the newest. */
  lemma RunRefinesHistory(s: MarketState, ps: seq<Poke>)
    requires s.ring == EMPTY && ValidPokes(ps)
    ensures Genuine(s.ring)
    ensures var r, all := PokeRun(s, ps).ring, HistoryAfter([], s, ps);
      && Holds(r, all) && Increasing(all)
      && SortByTime(r.observations) == Recent(all)
      && Latest(r) == if all == [] then None else Some(all[|all| - 1])
  {
    EmptyRingIsGenuine();
    RunHolds([], s, ps);
  }

  // ---------- spacing ----------

  function AppendedIn(s: MarketState, ps: seq<Poke>): nat
    requires Genuine(s.ring) && ValidPokes(ps)
    decreases ps
  {
    if ps == [] then 0 else (if Appends(s, ps[0]) then 1 else 0) + AppendedIn(AfterPoke(s, ps[0]), ps[1..])
  }

  lemma LatestAfterPoke(s: MarketState, p: Poke)
    requires Genuine(s.ring) && p.setup.config.Valid()
    ensures var t := AfterPoke(s, p);
      if Appends(s, p) then
        && Latest(t.ring).Some? && Latest(t.ring).value.timestamp == p.now
        && (Latest(s.ring).Some? ==> Latest(s.ring).value.timestamp + p.setup.config.minSpacingSeconds <= p.now)
      else t.ring == s.ring
  {
    hide Holds, SortByTime, ReadPools, TwapOf, Evaluated, Push;
    if Appends(s, p) {
      var h :| Holds(s.ring, h) && Increasing(h);
      OrderedIsRecent(s.ring, h);
      PushKeepsOrder(s.ring, h, Observing(ReadPools(p.a, p.b, p.setup).value, p));
    }
  }

  /** Within a run whose refreshes all happen up to `end`, appended observations keep their
      spacing after the latest one there was. */
  lemma {:induction false} SpacedAfterLatest(s: MarketState, ps: seq<Poke>, spacing: nat, end: int)
    requires Genuine(s.ring) && ValidPokes(ps) && Latest(s.ring).Some?
    requires forall i :: 0 <= i < |ps| ==> ps[i].now <= end && ps[i].setup.config.minSpacingSeconds >= spacing
    ensures AppendedIn(s, ps) > 0 ==> AppendedIn(s, ps) * spacing <= end - Latest(s.ring).value.timestamp
    decreases ps
  {
    hide Genuine, AfterPoke, Appends, Latest, MarketOracleConfig.Valid;
    if ps != [] {
      LatestAfterPoke(s, ps[0]);
      var t, k := AfterPoke(s, ps[0]), AppendedIn(AfterPoke(s, ps[0]), ps[1..]);
      SpacedAfterLatest(t, ps[1..], spacing, end);
      assert (k + 1) * spacing == k * spacing + spacing;
    }
  }

  /** Observations that T seconds have room for. */
  function Rations(seconds: nat, spacing: nat): (n: nat)
    requires spacing > 0
    ensures n > 0
  {
    FloorDiv(seconds, spacing) + 1
  }

  /** Any number of refreshes over T seconds append at most T / spacing + 1 observations. */
  lemma {:induction false} AppendsAreRationed(s: MarketState, ps: seq<Poke>, spacing: nat, start: int, end: int)
    requires Genuine(s.ring) && ValidPokes(ps) && spacing > 0 && start <= end
    requires forall i :: 0 <= i < |ps| ==> start <= ps[i].now <= end && ps[i].setup.config.minSpacingSeconds >= spacing
    ensures AppendedIn(s, ps) <= Rations(end - start, spacing)
    decreases ps
  {
    hide Genuine, AfterPoke, Appends, Latest, MarketOracleConfig.Valid;
    if ps != [] {
      LatestAfterPoke(s, ps[0]);
      var t, k := AfterPoke(s, ps[0]), AppendedIn(AfterPoke(s, ps[0]), ps[1..]);
      if Appends(s, ps[0]) {
        SpacedAfterLatest(t, ps[1..], spacing, end);
        CountFits(k, spacing, end - start);
      } else {
        AppendsAreRationed(t, ps[1..], spacing, start, end);
      }
    }
  }

  lemma CountFits(k: nat, spacing: nat, seconds: int)
    requires spacing > 0 && seconds >= 0 && (k > 0 ==> k * spacing <= seconds)
    ensures k + 1 <= Rations(seconds, spacing)
  {
    FloorIsLargest(k, seconds, spacing);
  }

  // ---------- how fast the reference can rise ----------

  /** A positive price whose product with the limit fits 128 bits. */
  predicate InRange(price: u128, limit: u16) { 0 < price && price * (limit + 1) <= U128_MAX }

  /** A reference that is set, at a price in range. */
  predicate Bounded(s: MarketState, limit: u16) { InRange(s.oracle.reference.effectiveRate, limit) }

  /** One refresh: an appending one raises the reference by less than the limit and a basis
      point; any other does not raise it. */
  lemma PokeRise(s: MarketState, p: Poke)
    requires Genuine(s.ring) && p.setup.config.Valid() && Bounded(s, p.setup.config.maxRiseBpsPerWindow)
    ensures var before, after := s.oracle.reference.effectiveRate, AfterPoke(s, p).oracle.reference.effectiveRate;
      if Appends(s, p) then after * BPS < before * (BPS + p.setup.config.maxRiseBpsPerWindow + 1) else after <= before
  {
    hide ReadPools, TwapOf, EvaluateMarket, RingAfter, IsSpaced, MarketOracleConfig.Valid, Genuine, IsBootstrapped,
      Latest;
    if RefreshMarket(s, p).Ok? {
      var reading := ReadPools(p.a, p.b, p.setup).value;
      var price, twap, c := s.oracle.reference.effectiveRate, AveragedBy(s, p), p.setup.config;
      var age := if Latest(s.ring).Some? then p.now - Latest(s.ring).value.timestamp else 0;
      NextPriceIsAccepted(price, twap, IsBootstrapped(RingAfter(s.ring, reading, p), c), age, reading.degradation, c);
      BoundedRise(price, twap, c.maxRiseBpsPerWindow);
      hide NextPrice;
      MulMono(price, price, BPS);
      DegradedRise(price, twap, c.maxRiseBpsPerWindow);
    }
  }

  /** The average a successful refresh judges. */
  function AveragedBy(s: MarketState, p: Poke): u128
    requires Genuine(s.ring) && p.setup.config.Valid() && RefreshMarket(s, p).Ok?
  {
    RingStaysInTime(s.ring, ReadPools(p.a, p.b, p.setup).value, p);
    TwapOf(RingAfter(s.ring, ReadPools(p.a, p.b, p.setup).value, p), p.setup.config, p.now).value
  }

  lemma DegradedRise(price: nat, twap: nat, limit: nat)
    requires price > 0
    ensures Min(price, twap) * BPS < price * (BPS + limit + 1)
  {
    MulMono(Min(price, twap), price, BPS);
    assert price * (BPS + limit + 1) == price * BPS + price * (limit + 1);
    Powers.MulStrict(0, price, limit + 1);
  }

  // ---------- when the reference stays set ----------

  /** A refresh leaves the reference set exactly when the average it judged is positive. */
  lemma StaysSetIff(s: MarketState, p: Poke)
    requires Genuine(s.ring) && p.setup.config.Valid() && RefreshMarket(s, p).Ok? && s.oracle.reference.IsSet()
    ensures AfterPoke(s, p).oracle.reference.IsSet() <==> AveragedBy(s, p) > 0
  {
    hide ReadPools, TwapOf, RingAfter, IsSpaced, MarketOracleConfig.Valid, Genuine, IsBootstrapped, Latest, MovedBps,
      CappedPrice;
    CapIsPositive(s.oracle.reference.effectiveRate, p.setup.config.maxRiseBpsPerWindow);
  }

  lemma CapIsPositive(price: u128, limit: u16)
    requires price > 0
    ensures CappedPrice(price, limit) > 0
  {
    hide FloorDiv;
    MulMono(1, price, BPS + limit);
    FloorIsLargest(1, SaturatingMul(price, BPS + limit), BPS);
  }

  ghost predicate RingInRange(r: Ring, limit: u16) {
    forall i :: 0 <= i < |r.observations| ==> InRange(r.observations[i].price, limit)
  }

  /** The pools of a poke, as far as they can be read at all, show a price in range. */
  predicate ReadsInRange(p: Poke, limit: u16) {
    var reading := ReadPools(p.a, p.b, p.setup);
    reading.Ok? ==> InRange(reading.value.price, limit)
  }

  lemma {:induction false} InsertInRange(xs: seq<Observation>, o: Observation, limit: u16)
    requires RingInRange(Ring(xs, 0), limit) && InRange(o.price, limit)
    ensures RingInRange(Ring(InsertByTime(xs, o), 0), limit)
    decreases xs
  {
    hide InRange;
    if xs != [] && xs[|xs| - 1].timestamp > o.timestamp { InsertInRange(xs[..|xs| - 1], o, limit); }
  }

  lemma {:induction false} SortInRange(xs: seq<Observation>, limit: u16)
    requires RingInRange(Ring(xs, 0), limit)
    ensures RingInRange(Ring(SortByTime(xs), 0), limit)
    decreases xs
  {
    hide InRange;
    if xs != [] {
      var n := |xs| - 1;
      SortInRange(xs[..n], limit);
      InsertInRange(SortByTime(xs[..n]), xs[n], limit);
    }
  }

  lemma {:induction false} PriceAtInRange(os: seq<Observation>, t: int, limit: u16)
    requires os != [] && RingInRange(Ring(os, 0), limit)
    ensures InRange(PriceAt(os, t), limit)
    decreases os
  {
    hide InRange;
    if |os| > 1 && os[|os| - 1].timestamp > t { PriceAtInRange(os[..|os| - 1], t, limit); }
  }

  lemma RangeIsInterval(price: u128, limit: u16)
    ensures InRange(price, limit) <==> 1 <= price <= FloorDiv(U128_MAX, limit + 1)
  {
    FloorIsLargest(price, U128_MAX, limit + 1);
  }

  /** An average of prices in range is in range. */
  lemma AverageInRange(r: Ring, c: MarketOracleConfig, now: int, limit: u16)
    requires r.observations != [] ==> InTime(SortByTime(r.observations), c.twapWindowSeconds, now)
    requires RingInRange(r, limit) && TwapOf(r, c, now).Ok?
    ensures InRange(TwapOf(r, c, now).value, limit)
  {
    var os, top := SortByTime(r.observations), FloorDiv(U128_MAX, limit + 1);
    hide SortByTime, InRange, PriceAt, AveragePrice, InTime, FloorDiv, AverageFrom, AverageTo;
    assert RingInRange(Ring(r.observations, 0), limit);
    SortInRange(r.observations, limit);
    forall t | AverageFrom(os, c.twapWindowSeconds, now) <= t < AverageTo(os, now) ensures 1 <= PriceAt(os, t) <= top {
      PriceAtInRange(os, t, limit);
      RangeIsInterval(PriceAt(os, t), limit);
    }
    AverageBetween(os, c.twapWindowSeconds, now, 1, top);
    RangeIsInterval(TwapOf(r, c, now).value, limit);
  }

  /** Prices in range keep the reference in range, and so set. */
  lemma PokeStaysInRange(s: MarketState, p: Poke, limit: u16)
    requires Genuine(s.ring) && p.setup.config.Valid() && Bounded(s, limit)
    requires RingInRange(s.ring, limit) && ReadsInRange(p, limit)
    ensures Bounded(AfterPoke(s, p), limit) && RingInRange(AfterPoke(s, p).ring, limit)
  {
    if RefreshMarket(s, p).Ok? {
      var reading := ReadPools(p.a, p.b, p.setup).value;
      RingAfterInRange(s.ring, reading, p, limit);
      RingStaysInTime(s.ring, reading, p);
      AverageInRange(RingAfter(s.ring, reading, p), p.setup.config, p.now, limit);
      StaysSetIff(s, p);
      ReferenceWithin(s, p);
      RangeIsInterval(AveragedBy(s, p), limit);
      RangeIsInterval(s.oracle.reference.effectiveRate, limit);
      RangeIsInterval(AfterPoke(s, p).oracle.reference.effectiveRate, limit);
      AfterPokeRing(s, p);
      hide *;
    }
  }

  lemma AfterPokeRing(s: MarketState, p: Poke)
    requires Genuine(s.ring) && p.setup.config.Valid() && RefreshMarket(s, p).Ok?
    ensures AfterPoke(s, p).ring == RingAfter(s.ring, ReadPools(p.a, p.b, p.setup).value, p)
  {
  }

  lemma RingAfterInRange(r: Ring, reading: PoolsReading, p: Poke, limit: u16)
    requires RingInRange(r, limit) && InRange(reading.price, limit)
    ensures RingInRange(RingAfter(r, reading, p), limit)
  {
    hide InRange, IsSpaced;
  }

  /** No refresh takes the reference past the greater of itself and the average. */
  lemma ReferenceWithin(s: MarketState, p: Poke)
    requires Genuine(s.ring) && p.setup.config.Valid() && RefreshMarket(s, p).Ok? && s.oracle.reference.IsSet()
    ensures AfterPoke(s, p).oracle.reference.effectiveRate <= Max(s.oracle.reference.effectiveRate, AveragedBy(s, p))
  {
    hide ReadPools, TwapOf, RingAfter, IsSpaced, MarketOracleConfig.Valid, Genuine, IsBootstrapped, Latest, MovedBps,
      CappedPrice;
  }

  /** A fall reaches the reference at once, recorded or not; a degraded reading, and one too
      soon to be recorded, can only lower it. */
  lemma FallsReachTheReference(s: MarketState, p: Poke)
    requires Genuine(s.ring) && p.setup.config.Valid() && RefreshMarket(s, p).Ok? && s.oracle.reference.IsSet()
    ensures var before, after := s.oracle.reference.effectiveRate, AfterPoke(s, p).oracle.reference.effectiveRate;
      && (AveragedBy(s, p) <= before ==> after == AveragedBy(s, p))
      && (ReadPools(p.a, p.b, p.setup).value.degradation.Any() ==> after == Min(before, AveragedBy(s, p)))
      && (!Appends(s, p) ==> after <= before)
  {
    hide ReadPools, TwapOf, RingAfter, IsSpaced, MarketOracleConfig.Valid, Genuine, IsBootstrapped, Latest, MovedBps,
      CappedPrice;
  }

  // ---------- the rise over runs ----------

  /** What can be checked before a run: the reference, every price in the ring and every price
      the pools will show are positive, and their products with the limit fit 128 bits. */
  ghost predicate PricesInRange(s: MarketState, ps: seq<Poke>, limit: u16) {
    Bounded(s, limit) && RingInRange(s.ring, limit) && forall i :: 0 <= i < |ps| ==> ReadsInRange(ps[i], limit)
  }

  /** The market reference over runs: k recorded refreshes raise it by less than the k-th
      power of (10001 + limit) / 10000, and refreshes that record nothing not at all. */
  lemma {:induction false} RunRise(s: MarketState, ps: seq<Poke>, c: MarketOracleConfig)
    requires Genuine(s.ring) && ValidPokes(ps) && forall i :: 0 <= i < |ps| ==> ps[i].setup.config == c
    requires PricesInRange(s, ps, c.maxRiseBpsPerWindow)
    ensures var k, a := AppendedIn(s, ps), BPS + c.maxRiseBpsPerWindow + 1;
      var r0, rn := s.oracle.reference.effectiveRate, PokeRun(s, ps).oracle.reference.effectiveRate;
      && rn > 0
      && rn * Pow(BPS, k) <= r0 * Pow(a, k) && (k > 0 ==> rn * Pow(BPS, k) < r0 * Pow(a, k))
    decreases ps
  {
    hide Genuine, AfterPoke, Appends, MarketOracleConfig.Valid, Pow, RingInRange, ReadsInRange;
    if ps == [] {
      PowZero(BPS);
      PowZero(BPS + c.maxRiseBpsPerWindow + 1);
    } else {
      PokeRise(s, ps[0]);
      PokeStaysInRange(s, ps[0], c.maxRiseBpsPerWindow);
      var t, a := AfterPoke(s, ps[0]), BPS + c.maxRiseBpsPerWindow + 1;
      var k, r0, r1 := AppendedIn(t, ps[1..]), s.oracle.reference.effectiveRate, t.oracle.reference.effectiveRate;
      RunRise(t, ps[1..], c);
      var rn := PokeRun(s, ps).oracle.reference.effectiveRate;
      if Appends(s, ps[0]) {
        UpperStep(r0, r1, rn, a, BPS, k);
      } else {
        MulMono(r1, r0, Pow(a, k));
      }
    }
  }

  /** Together: whatever the calling pattern, refreshes over T seconds under one configuration
      raise the reference by less than ((10001 + limit) / 10000) to the T / spacing + 1. */
  lemma RiseOverTime(s: MarketState, ps: seq<Poke>, c: MarketOracleConfig, start: int, end: int)
    requires Genuine(s.ring) && ValidPokes(ps) && c.Valid() && start <= end
    requires forall i :: 0 <= i < |ps| ==> ps[i].setup.config == c && start <= ps[i].now <= end
    requires PricesInRange(s, ps, c.maxRiseBpsPerWindow)
    ensures var n, a := Rations(end - start, c.minSpacingSeconds), BPS + c.maxRiseBpsPerWindow + 1;
      0 < PokeRun(s, ps).oracle.reference.effectiveRate * Pow(BPS, n) < s.oracle.reference.effectiveRate * Pow(a, n)
  {
    var n, a := Rations(end - start, c.minSpacingSeconds), BPS + c.maxRiseBpsPerWindow + 1;
    hide Rations, Pow, PokeRun, AppendedIn, RingInRange, ReadsInRange, Genuine;
    RunRise(s, ps, c);
    AppendsAreRationed(s, ps, c.minSpacingSeconds, start, end);
    MoreStepsMoreRoom(s.oracle.reference.effectiveRate, PokeRun(s, ps).oracle.reference.effectiveRate, a, BPS,
                      AppendedIn(s, ps), n);
    Powers.MulStrict(0, PokeRun(s, ps).oracle.reference.effectiveRate, Pow(BPS, n));
  }

  lemma {:induction false} MoreStepsMoreRoom(first: nat, last: nat, a: nat, b: nat, k: nat, n: nat)
    requires first > 0 && 0 < b < a && k <= n && 0 < n
    requires last * Pow(b, k) <= first * Pow(a, k) && (k > 0 ==> last * Pow(b, k) < first * Pow(a, k))
    ensures last * Pow(b, n) < first * Pow(a, n)
    decreases n - k
  {
    hide Pow;
    if k < n {
      var p, q := Pow(a, k), Pow(b, k);
      PowSteps(a, k);
      PowSteps(b, k);
      MulMono(last * q, first * p, b);
      Powers.MulStrict(0, first, p);
      Powers.MulStrict(b, a, first * p);
      Regroup(last, q, b);
      Regroup(first, p, a);
      Regroup(first, a, p);
      Regroup(last, b, q);
      MoreStepsMoreRoom(first, last, a, b, k + 1, n);
    }
  }
}
