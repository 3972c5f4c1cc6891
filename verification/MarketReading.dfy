/** A market refresh from the vaults up: what the two pools read as, when the refresh goes
through, and what it leaves. */
module MarketReading {
  import opened Wrappers
  import opened FixedPoint
  import opened Health
  import opened RateBreaker
  import opened OracleAccount
  import opened MarketHistory
  import opened MarketBreaker
  import opened MarketRefresh
  import opened MarketRuns

  // ---------- the pools ----------

  /** Quote units per whole collateral token, scaled and floored. */
  function PriceOf(v: Vaults, m: Setup): (p: nat)
    requires v.collateral > 0
    ensures IsFloor(p, v.quote * SCALE, Pow10(m.collateralDecimals), v.collateral * Pow10(m.quoteDecimals))
  {
    TenPositive(v.collateral, m.quoteDecimals);
    FloorDiv(v.quote * SCALE * Pow10(m.collateralDecimals), v.collateral * Pow10(m.quoteDecimals))
  }

  lemma TenPositive(n: nat, e: nat)
    requires n > 0
    ensures n * Pow10(e) > 0
  {
    MulMono(1, n, Pow10(e));
  }

  /** Neither vault is empty, and the side that takes the difference of the decimals stays
      within 128 bits. */
  predicate Readable(v: Vaults, m: Setup) {
    && v.collateral > 0 && v.quote > 0
    && if m.collateralDecimals >= m.quoteDecimals then
         v.quote * SCALE * Pow10(m.collateralDecimals - m.quoteDecimals) <= U128_MAX
       else
         v.collateral * Pow10(m.quoteDecimals - m.collateralDecimals) <= U128_MAX
  }

  lemma PoolPriceIff(v: Vaults, m: Setup)
    ensures PoolPrice(v, m.collateralDecimals, m.quoteDecimals).Ok? <==> Readable(v, m)
    ensures PoolPrice(v, m.collateralDecimals, m.quoteDecimals).Ok? ==>
      PoolPrice(v, m.collateralDecimals, m.quoteDecimals).value == PriceOf(v, m)
  {
    var c, q := m.collateralDecimals, m.quoteDecimals;
    if v.collateral > 0 && v.quote > 0 {
      if c >= q { MulMono(1, v.quote * SCALE, Pow10(c - q)); } else { MulMono(1, v.collateral, Pow10(q - c)); }
    }
    if PoolPrice(v, c, q).Ok? { PoolPriceIsExact(v, c, q); }
    hide Pow10, FloorDiv;
    if c < q && v.collateral > 0 { TenPositive(v.collateral, q - c); }
  }

  /** One of the pools holds less quote than the configuration asks for. */
  predicate Shallow(a: Vaults, b: Vaults, c: MarketOracleConfig) {
    a.quote < c.minPoolQuoteDepth || b.quote < c.minPoolQuoteDepth
  }

  /** The prices are at least one basis point further apart, in parts of their mean, than the
      configuration allows. */
  predicate Disagree(pa: nat, pb: nat, limit: nat) {
    2 * (Max(pa, pb) - Min(pa, pb)) * BPS >= (limit + 1) * (pa + pb)
  }

  /** Two pools read as the lower of their prices and the depth of both; the reading is
      degraded exactly when either is shallow or they disagree, and fails only for an empty
      vault, two prices of zero, and widths. */
  lemma ReadingIsExact(a: Vaults, b: Vaults, m: Setup)
    ensures ReadPools(a, b, m).Ok? <==>
      && Readable(a, m) && Readable(b, m)
      && var pa, pb := PriceOf(a, m), PriceOf(b, m);
         0 < pa + pb <= U128_MAX && 2 * (Max(pa, pb) - Min(pa, pb)) * BPS <= U128_MAX
    ensures ReadPools(a, b, m).Ok? ==>
      var reading, pa, pb := ReadPools(a, b, m).value, PriceOf(a, m), PriceOf(b, m);
      && reading.price <= pa && reading.price <= pb && (reading.price == pa || reading.price == pb)
      && reading.quoteDepth == Min(a.quote + b.quote, U64_MAX)
      && (reading.degradation.shallow <==> Shallow(a, b, m.config))
      && (reading.degradation.poolsDisagree <==> Disagree(pa, pb, m.config.maxCrossPoolDeviationBps))
  {
    PoolPriceIff(a, m);
    PoolPriceIff(b, m);
    hide PoolPrice, Readable, PriceOf, FloorDiv;
    if Readable(a, m) && Readable(b, m) && 0 < PriceOf(a, m) + PriceOf(b, m) {
      FloorIsLargest(m.config.maxCrossPoolDeviationBps + 1, AbsDiff(PriceOf(a, m), PriceOf(b, m)) * 2 * BPS,
                     PriceOf(a, m) + PriceOf(b, m));
    }
  }

  // ---------- the refresh ----------

  /** Nothing was recorded within the spacing. */
  predicate Due(h: seq<Observation>, p: Poke) {
    h == [] || p.now - h[|h| - 1].timestamp >= p.setup.config.minSpacingSeconds
  }

  /** The recordings after a refresh that reads `price`, the last 32 of them. */
  function Recordings(h: seq<Observation>, price: u128, p: Poke): seq<Observation> {
    if Due(h, p) then h + [Observation(price, p.slot, p.now, Min(p.a.quote + p.b.quote, U64_MAX))] else h
  }

  /** Sum of the prices that stood, one for every second of the window. */
  function PricesIn(os: seq<Observation>, p: Poke): nat
    requires os != []
  {
    var window := p.setup.config.twapWindowSeconds;
    PriceSeconds(os, AverageFrom(os, window, p.now), AverageTo(os, p.now))
  }

  /** The floored average of the prices that stood in the window. */
  predicate IsAverage(twap: nat, os: seq<Observation>, p: Poke)
    requires os != []
  {
    var seconds := AverageTo(os, p.now) - AverageFrom(os, p.setup.config.twapWindowSeconds, p.now);
    seconds > 0 && IsFloor(twap, 1, PricesIn(os, p), seconds)
  }

  lemma AverageIff(os: seq<Observation>, p: Poke)
    requires os != [] && InTime(os, p.setup.config.twapWindowSeconds, p.now)
    ensures var average := AveragePrice(os, p.setup.config.twapWindowSeconds, p.now);
      && (average.Ok? <==> PricesIn(os, p) <= U128_MAX)
      && (average.Ok? ==> IsAverage(average.value, os, p))
  {
    hide FloorDiv, PriceSeconds;
  }

  /** What a refresh finds in the ring: the newest recording before it, and after it the
      recordings in order. */
  lemma RingShowsHistory(s: MarketState, h: seq<Observation>, reading: PoolsReading, p: Poke)
    requires Holds(s.ring, h) && Increasing(h) && p.setup.config.Valid()
    requires reading.quoteDepth == Min(p.a.quote + p.b.quote, U64_MAX)
    ensures var after, all := RingAfter(s.ring, reading, p), Recordings(h, reading.price, p);
      && Latest(s.ring) == (if h == [] then None else Some(h[|h| - 1]))
      && (IsSpaced(s.ring, p.setup.config, p.now) <==> Due(h, p))
      && Holds(after, all) && Increasing(all) && Recent(all) != []
      && SortByTime(after.observations) == Recent(all)
      && (NotBefore(s.ring, p.now) ==> InTime(Recent(all), p.setup.config.twapWindowSeconds, p.now))
  {
    OrderedIsRecent(s.ring, h);
    RefreshHolds(s.ring, h, reading, p);
    assert Observing(reading, p) == Observation(reading.price, p.slot, p.now, Min(p.a.quote + p.b.quote, U64_MAX));
    hide Holds, SortByTime, Increasing, Latest, InTime, RingAfter, MarketOracleConfig.Valid;
    OrderedIsRecent(RingAfter(s.ring, reading, p), Recordings(h, reading.price, p));
    assert RingAfter(s.ring, reading, p).observations != [] by { NeverEmpty(s.ring, h, reading, p); }
  }

  lemma NeverEmpty(r: Ring, h: seq<Observation>, reading: PoolsReading, p: Poke)
    requires Holds(r, h) && Increasing(h)
    ensures RingAfter(r, reading, p).observations != []
  {
    OrderedIsRecent(r, h);
    hide SortByTime, Increasing;
  }

  /** A refresh goes through exactly when the account is a market oracle's, the pools can be
      read, the clock has not run back, and the prices of the window add up within 128 bits. */
  lemma RefreshMarketIsOpen(s: MarketState, h: seq<Observation>, p: Poke)
    requires Holds(s.ring, h) && Increasing(h) && p.setup.config.Valid()
    ensures Genuine(s.ring)
    ensures var reading := ReadPools(p.a, p.b, p.setup);
      && (reading.Ok? ==> Recent(Recordings(h, reading.value.price, p)) != [])
      && (RefreshMarket(s, p).Ok? <==>
          && s.oracle.config.source.kind == MarketTwap && reading.Ok?
          && (h == [] || h[|h| - 1].timestamp <= p.now)
          && PricesIn(Recent(Recordings(h, reading.value.price, p)), p) <= U128_MAX)
  {
    assert Genuine(s.ring);
    ReadingIsExact(p.a, p.b, p.setup);
    var reading := ReadPools(p.a, p.b, p.setup);
    if reading.Ok? {
      RingShowsHistory(s, h, reading.value, p);
      var os := Recent(Recordings(h, reading.value.price, p));
      if NotBefore(s.ring, p.now) { AverageIff(os, p); }
    }
    hide ReadPools, Holds, SortByTime, Increasing, Latest, InTime, RingAfter, MarketOracleConfig.Valid, Recent,
      Recordings, AveragePrice, PricesIn, Evaluated, Written, Genuine, IsSpaced, Readable, PriceOf, Shallow, Disagree;
  }

  // ---------- what it leaves ----------

  /** The average is past what one refresh may raise the price to: its rise, a saturating
      product, is a basis point over the limit. */
  predicate TooFast(current: nat, twap: nat, limit: nat) {
    twap > current && Min((twap - current) * BPS, U128_MAX) >= current * (limit + 1)
  }

  /** The next price: an average that fell at once, none above a price under degraded
      information, one that rose too fast capped, and nothing raised between recordings. */
  function NextReference(current: u128, twap: u128, limit: nat, degraded: bool, due: bool): u128 {
    if current == 0 || twap <= current then twap
    else
      var cap := FloorDiv(Min(current * (BPS + limit), U128_MAX), BPS);
      var risen := if TooFast(current, twap, limit) then Min(cap, twap) else twap;
      if degraded then current else if due then risen else Min(risen, current)
  }

  /** The state it is published in; only the first two permit new risk. */
  function NextHealth(current: nat, twap: nat, bootstrapped: bool, age: int, degraded: bool, c: MarketOracleConfig)
    : OracleHealth
  {
    if current == 0 || !bootstrapped then Bootstrapping
    else if degraded || age >= c.maxObservationAgeSeconds || TooFast(current, twap, c.maxRiseBpsPerWindow) then
      BorrowFrozen
    else if age >= c.warnAgeSeconds then RateWarning
    else Healthy
  }

  lemma TooFastIff(price: u128, twap: u128, limit: u16)
    requires 0 < price < twap
    ensures TooFast(price, twap, limit) <==> MovedBps(price, twap) > limit
  {
    hide FloorDiv;
    FloorIsLargest(limit + 1, SaturatingMul(twap - price, BPS), price);
  }

  lemma VerdictIsExact(current: u128, twap: u128, bootstrapped: bool, age: int, d: Degradation, c: MarketOracleConfig,
                       due: bool)
    requires c.Valid()
    ensures var before := if current > 0 then Some(current) else None;
      var v := EvaluateMarket(before, twap, bootstrapped, age, d, c);
      && Accepted(v, due, before) == NextReference(current, twap, c.maxRiseBpsPerWindow, d.Any(), due)
      && v.health == NextHealth(current, twap, bootstrapped, age, d.Any(), c)
      && (current == 0 ==> v.movedBps == 0)
      && (current > 0 ==>
            v.movedBps == FloorDiv(Min((Max(current, twap) - Min(current, twap)) * BPS, U128_MAX), current))
  {
    if 0 < current < twap { TooFastIff(current, twap, c.maxRiseBpsPerWindow); }
    hide FloorDiv, TooFast;
  }

  /** Opened for borrowing: enough recent recordings, over enough time. */
  predicate Seasoned(recent: seq<Observation>, c: MarketOracleConfig) {
    && |recent| >= c.minObservations
    && recent != [] && recent[|recent| - 1].timestamp - recent[0].timestamp >= c.minSpanSeconds
  }

  /** Basis points of the price before, saturating. */
  function NextMoved(current: nat, twap: nat): u64 {
    if current == 0 then 0
    else Min(FloorDiv(Min((Max(current, twap) - Min(current, twap)) * BPS, U128_MAX), current), U64_MAX)
  }

  /** The account after a refresh on recordings `h` that read `reading` and averaged `twap`. */
  function Refreshed(o: Oracle, h: seq<Observation>, reading: PoolsReading, twap: u128, p: Poke): Oracle {
    var c, recent := p.setup.config, Recent(Recordings(h, reading.price, p));
    var current, degraded := o.reference.effectiveRate, reading.degradation.Any();
    var price := NextReference(current, twap, c.maxRiseBpsPerWindow, degraded, Due(h, p));
    var age := if h == [] then 0 else p.now - h[|h| - 1].timestamp;
    o.(lastRefreshSlot := p.slot, lastMovedBps := NextMoved(current, twap),
       health := NextHealth(current, twap, Seasoned(recent, c), age, degraded, c),
       reference := Reference(price, price, 0, 0, p.slot, p.now))
  }

  lemma RefreshInSteps(s: MarketState, p: Poke)
    requires Genuine(s.ring) && p.setup.config.Valid() && RefreshMarket(s, p).Ok?
    ensures ReadPools(p.a, p.b, p.setup).Ok? && NotBefore(s.ring, p.now)
    ensures var reading, twap := ReadPools(p.a, p.b, p.setup).value, AveragedBy(s, p);
      var v := Evaluated(s, reading, twap, p);
      var price := Accepted(v, IsSpaced(s.ring, p.setup.config, p.now), CurrentPrice(s.oracle));
      RefreshMarket(s, p).value == MarketState(RingAfter(s.ring, reading, p), Written(s.oracle, v, price, p))
  {
    hide ReadPools, TwapOf, RingAfter, IsSpaced, MarketOracleConfig.Valid, Genuine, Evaluated, Written, NotBefore,
      Accepted, CurrentPrice;
  }

  lemma EvaluatedAlike(s: MarketState, h: seq<Observation>, reading: PoolsReading, twap: u128, p: Poke)
    requires Holds(s.ring, h) && Increasing(h) && p.setup.config.Valid()
    requires reading.quoteDepth == Min(p.a.quote + p.b.quote, U64_MAX)
    ensures var c := p.setup.config;
      && (IsSpaced(s.ring, c, p.now) <==> Due(h, p))
      && Evaluated(s, reading, twap, p)
          == EvaluateMarket(CurrentPrice(s.oracle), twap, Seasoned(Recent(Recordings(h, reading.price, p)), c),
                            if h == [] then 0 else p.now - h[|h| - 1].timestamp, reading.degradation, c)
  {
    hide Holds, SortByTime, Increasing, Latest, InTime, RingAfter, MarketOracleConfig.Valid, Recent, Recordings,
      IsSpaced, EvaluateMarket, IsBootstrapped;
    RingShowsHistory(s, h, reading, p);
    BootstrapTakesElapsedTime(Recordings(h, reading.price, p), RingAfter(s.ring, reading, p), p.setup.config);
  }

  lemma WrittenIsRefreshed(s: MarketState, h: seq<Observation>, reading: PoolsReading, twap: u128, p: Poke)
    requires Holds(s.ring, h) && Increasing(h) && p.setup.config.Valid()
    requires reading.quoteDepth == Min(p.a.quote + p.b.quote, U64_MAX)
    ensures var v := Evaluated(s, reading, twap, p);
      var price := Accepted(v, IsSpaced(s.ring, p.setup.config, p.now), CurrentPrice(s.oracle));
      Written(s.oracle, v, price, p) == Refreshed(s.oracle, h, reading, twap, p)
  {
    hide Holds, Increasing, MarketOracleConfig.Valid, Recent, Recordings, IsSpaced, EvaluateMarket, Evaluated, Accepted,
      NextReference, NextHealth, FloorDiv, Seasoned, Due;
    var age := if h == [] then 0 else p.now - h[|h| - 1].timestamp;
    EvaluatedAlike(s, h, reading, twap, p);
    var seasoned := Seasoned(Recent(Recordings(h, reading.price, p)), p.setup.config);
    VerdictIsExact(s.oracle.reference.effectiveRate, twap, seasoned, age, reading.degradation, p.setup.config,
                   Due(h, p));
  }

  /** What a refresh writes. The observation joins the ring when it is due; the average is the
      floor over every second of the window; price and state follow from the price before, the
      average, the age of the newest recording before it and the vaults. */
  lemma RefreshMarketWrites(s: MarketState, h: seq<Observation>, p: Poke)
    requires Genuine(s.ring) && p.setup.config.Valid() && RefreshMarket(s, p).Ok?
    requires Holds(s.ring, h) && Increasing(h)
    ensures ReadPools(p.a, p.b, p.setup).Ok?
    ensures var t, reading, twap := RefreshMarket(s, p).value, ReadPools(p.a, p.b, p.setup).value, AveragedBy(s, p);
      var all := Recordings(h, reading.price, p);
      && Holds(t.ring, all) && Recent(all) != []
      && IsAverage(twap, Recent(all), p)
      && t.oracle == Refreshed(s.oracle, h, reading, twap, p)
  {
    RefreshInSteps(s, p);
    ReadingIsExact(p.a, p.b, p.setup);
    var reading := ReadPools(p.a, p.b, p.setup).value;
    RingShowsHistory(s, h, reading, p);
    AverageIff(Recent(Recordings(h, reading.price, p)), p);
    WrittenIsRefreshed(s, h, reading, AveragedBy(s, p), p);
    hide ReadPools, Holds, SortByTime, Increasing, InTime, RingAfter, MarketOracleConfig.Valid, Recent, Recordings,
      AveragePrice, PricesIn, Genuine, IsSpaced, Readable, PriceOf, Shallow, Disagree, Evaluated, Accepted, Written,
      Refreshed, IsAverage, NotBefore, RefreshMarket, Seasoned;
  }

  /** Whether the refresh permits new risk, from the vaults, the recordings and the average:
      a price was set before, enough recordings span enough time, the newest before this one is
      recent, neither pool is shallow, they agree, and the average did not rise too fast. */
  lemma RefreshPermitsIff(s: MarketState, h: seq<Observation>, p: Poke)
    requires Genuine(s.ring) && p.setup.config.Valid() && RefreshMarket(s, p).Ok?
    requires Holds(s.ring, h) && Increasing(h)
    ensures ReadPools(p.a, p.b, p.setup).Ok? && Readable(p.a, p.setup) && Readable(p.b, p.setup)
    ensures var c, current, health := p.setup.config, s.oracle.reference.effectiveRate,
                                      RefreshMarket(s, p).value.oracle.health;
      (health == Healthy || health == RateWarning) <==>
      && current > 0 && Seasoned(Recent(Recordings(h, ReadPools(p.a, p.b, p.setup).value.price, p)), c)
      && (h == [] || p.now - h[|h| - 1].timestamp < c.maxObservationAgeSeconds)
      && !Shallow(p.a, p.b, c)
      && !Disagree(PriceOf(p.a, p.setup), PriceOf(p.b, p.setup), c.maxCrossPoolDeviationBps)
      && !TooFast(current, AveragedBy(s, p), c.maxRiseBpsPerWindow)
  {
    RefreshMarketWrites(s, h, p);
    ReadingIsExact(p.a, p.b, p.setup);
    assert p.setup.config.maxObservationAgeSeconds > 0;
    hide ReadPools, Holds, Increasing, MarketOracleConfig.Valid, Recent, Recordings, Genuine, Readable, PriceOf,
      Shallow, Disagree, IsAverage, RefreshMarket, Seasoned, AveragedBy, NextReference, TooFast;
  }
}
