/** refresh_market_oracle: two pools in, one observation into the ring, and the reference
moved as far as the breaker and the spacing rule allow. */
module MarketRefresh {
  import opened Wrappers
  import opened FixedPoint
  import opened MarketHistory
  import opened MarketBreaker
  import opened RateBreaker
  import opened OracleAccount

  // ---------- the pools ----------

  /** A pool's two reserves, once its identity has been checked. */
  datatype Vaults = Vaults(collateral: u64, quote: u64)

  /** Quote units per whole collateral token. Only the difference of the decimals is applied,
      on the side that keeps both factors small. */
  function PoolPrice(v: Vaults, collateralDecimals: u8, quoteDecimals: u8): Result<u128> {
    var _ :- Need(v.collateral > 0 && v.quote > 0, InvalidOraclePrice);
    var scaled :- ToU128(v.quote * SCALE);
    if collateralDecimals >= quoteDecimals then
      var factor :- TenPow(collateralDecimals - quoteDecimals);
      var numerator :- ToU128(scaled * factor);
      MulDivFloor(numerator, 1, v.collateral)
    else
      var factor :- TenPow(quoteDecimals - collateralDecimals);
      var denominator :- ToU128(v.collateral * factor);
      MulDivFloor(scaled, 1, denominator)
  }

  lemma {:induction false} TenPowersAdd(a: nat, b: nat)
    ensures Pow10(a + b) == Pow10(a) * Pow10(b)
  {
    if a > 0 { TenPowersAdd(a - 1, b); }
  }

  lemma FloorCancels(n: nat, d: nat, k: nat)
    requires d > 0 && k > 0
    ensures d * k > 0 && FloorDiv(n * k, d * k) == FloorDiv(n, d)
  {
    hide FloorDiv;
    var q := FloorDiv(n, d);
    MulMono(1, d, k);
    ScaledBound(q, n, d, k);
    FloorIsLargest(q, n * k, d * k);
    FloorIsLargest(q + 1, n * k, d * k);
  }

  /** A floor's two bounds, scaled. */
  lemma ScaledBound(q: nat, n: nat, d: nat, k: nat)
    requires q * d <= n < q * d + d && k > 0
    ensures q * (d * k) <= n * k < (q + 1) * (d * k)
  {
    MulMono(q * d, n, k);
    assert q * (d * k) == q * d * k;
    MulMono(n + 1, q * d + d, k);
    assert (n + 1) * k == n * k + k && (q * d + d) * k == q * d * k + d * k;
    assert (q + 1) * (d * k) == q * (d * k) + d * k;
  }

  /** Cancelling first changes nothing: this is the floor of the full formula, which leaves
      128 bits where this does not. */
  lemma PoolPriceIsExact(v: Vaults, collateralDecimals: u8, quoteDecimals: u8)
    requires PoolPrice(v, collateralDecimals, quoteDecimals).Ok?
    ensures v.collateral * Pow10(quoteDecimals) > 0
    ensures PoolPrice(v, collateralDecimals, quoteDecimals).value
         == FloorDiv(v.quote * SCALE * Pow10(collateralDecimals), v.collateral * Pow10(quoteDecimals))
  {
    var c, q := collateralDecimals, quoteDecimals;
    hide Pow10, FloorDiv;
    if c >= q {
      TenPowersAdd(c - q, q);
      CancelAbove(v.quote * SCALE, v.collateral, Pow10(c - q), Pow10(q), Pow10(c));
    } else {
      TenPowersAdd(q - c, c);
      CancelBelow(v.quote * SCALE, v.collateral, Pow10(q - c), Pow10(c), Pow10(q));
    }
  }

  lemma CancelAbove(n: nat, d: nat, j: nat, k: nat, jk: nat)
    requires d > 0 && k > 0 && jk == j * k
    ensures d * k > 0 && FloorDiv(n * jk, d * k) == FloorDiv(FloorDiv(n * j, 1), d) == FloorDiv(n * j, d)
  {
    hide FloorDiv;
    assert n * jk == n * j * k;
    FloorCancels(n * j, d, k);
    FloorIsLargest(n * j, n * j, 1);
  }

  lemma CancelBelow(n: nat, d: nat, j: nat, k: nat, jk: nat)
    requires d > 0 && j > 0 && k > 0 && jk == j * k
    ensures d * j > 0 && d * jk > 0 && FloorDiv(n * k, d * jk) == FloorDiv(n, d * j)
  {
    hide FloorDiv;
    MulMono(1, d, j);
    assert d * jk == d * j * k;
    FloorCancels(n, d * j, k);
  }

  datatype PoolsReading = PoolsReading(price: u128, quoteDepth: u64, degradation: Degradation)

  datatype Setup = Setup(collateralDecimals: u8, quoteDecimals: u8, config: MarketOracleConfig)

  /** The lower price of the two, and what is wrong with them. */
  function ReadPools(a: Vaults, b: Vaults, m: Setup): Result<PoolsReading> {
    var pa :- PoolPrice(a, m.collateralDecimals, m.quoteDecimals);
    var pb :- PoolPrice(b, m.collateralDecimals, m.quoteDecimals);
    var sum :- ToU128(pa + pb);
    var _ :- Need(sum > 0, InvalidOraclePrice);
    var twice :- ToU128(AbsDiff(pa, pb) * 2);
    var deviation :- MulDivFloor(twice, BPS, sum);
    var shallow := a.quote < m.config.minPoolQuoteDepth || b.quote < m.config.minPoolQuoteDepth;
    Ok(PoolsReading(Min(pa, pb), Min(a.quote + b.quote, U64_MAX),
                    Degradation(deviation > m.config.maxCrossPoolDeviationBps, shallow)))
  }

  /** Which pool is named first makes no difference. */
  lemma PoolsAreSymmetric(a: Vaults, b: Vaults, m: Setup)
    ensures ReadPools(a, b, m).Ok? ==> ReadPools(b, a, m) == ReadPools(a, b, m)
  {
    hide PoolPrice, MulDivFloor;
  }

  // ---------- the refresh ----------

  datatype MarketState = MarketState(ring: Ring, oracle: Oracle)

  datatype Poke = Poke(setup: Setup, a: Vaults, b: Vaults, now: int, slot: u64)

  /** A ring that some run of spaced observations has left. */
  ghost predicate Genuine(r: Ring) { exists h :: Holds(r, h) && Increasing(h) }

  /** Late enough after the last observation to be one. */
  predicate IsSpaced(r: Ring, c: MarketOracleConfig, now: int) {
    Latest(r).None? || now - Latest(r).value.timestamp >= c.minSpacingSeconds
  }

  predicate NotBefore(r: Ring, now: int) { Latest(r).None? || now >= Latest(r).value.timestamp }

  /** The observation of a poke. */
  function Observing(reading: PoolsReading, p: Poke): Observation {
    Observation(reading.price, p.slot, p.now, reading.quoteDepth)
  }

  function RingAfter(r: Ring, reading: PoolsReading, p: Poke): Ring {
    if IsSpaced(r, p.setup.config, p.now) then Push(r, Observing(reading, p)) else r
  }

  function TwapOf(r: Ring, c: MarketOracleConfig, now: int): Result<u128>
    requires r.observations != [] ==> InTime(SortByTime(r.observations), c.twapWindowSeconds, now)
  {
    if r.observations == [] then Err(InvalidOraclePrice)
    else AveragePrice(SortByTime(r.observations), c.twapWindowSeconds, now)
  }

  /** The breaker's price, which a refresh that recorded nothing may only lower. */
  function Accepted(v: MarketVerdict, recorded: bool, current: Option<u128>): u128 {
    if !recorded && current.Some? then Min(v.acceptedPrice, current.value) else v.acceptedPrice
  }

  function CurrentPrice(s: Oracle): Option<u128> {
    if s.reference.IsSet() then Some(s.reference.effectiveRate) else None
  }

  function Evaluated(s: MarketState, reading: PoolsReading, twap: u128, p: Poke): MarketVerdict {
    var c := p.setup.config;
    var age := if Latest(s.ring).Some? then p.now - Latest(s.ring).value.timestamp else 0;
    EvaluateMarket(CurrentPrice(s.oracle), twap, IsBootstrapped(RingAfter(s.ring, reading, p), c), age,
                   reading.degradation, c)
  }

  function Written(o: Oracle, v: MarketVerdict, price: u128, p: Poke): Oracle {
    o.(lastRefreshSlot := p.slot, lastMovedBps := Min(v.movedBps, U64_MAX), health := v.health,
       reference := Reference(price, price, 0, 0, p.slot, p.now))
  }

  function RefreshMarket(s: MarketState, p: Poke): Result<MarketState>
    requires Genuine(s.ring) && p.setup.config.Valid()
  {
    var _ :- Need(s.oracle.config.source.kind == MarketTwap, UnknownOracleSource);
    var reading :- ReadPools(p.a, p.b, p.setup);
    var _ :- Need(NotBefore(s.ring, p.now), ObservationTooSoon);
    RingStaysInTime(s.ring, reading, p);
    var twap :- TwapOf(RingAfter(s.ring, reading, p), p.setup.config, p.now);
    var v := Evaluated(s, reading, twap, p);
    var price := Accepted(v, IsSpaced(s.ring, p.setup.config, p.now), CurrentPrice(s.oracle));
    Ok(MarketState(RingAfter(s.ring, reading, p), Written(s.oracle, v, price, p)))
  }

  lemma PushKeepsOrder(r: Ring, h: seq<Observation>, o: Observation)
    requires Holds(r, h) && Increasing(h) && (h != [] ==> h[|h| - 1].timestamp < o.timestamp)
    ensures Holds(Push(r, o), h + [o]) && Increasing(h + [o]) && Latest(Push(r, o)) == Some(o)
  {
    hide Holds, Push, SortByTime, Latest, Recent;
    PushHolds(r, h, o);
    assert forall i :: 0 <= i < |h| ==> i == |h| - 1 || h[i].timestamp < h[|h| - 1].timestamp;
    OrderedIsRecent(Push(r, o), h + [o]);
  }

  /** One refresh on a ring that holds `h`. */
  lemma RefreshHolds(r: Ring, h: seq<Observation>, reading: PoolsReading, p: Poke)
    requires Holds(r, h) && Increasing(h) && p.setup.config.Valid()
    ensures var after := RingAfter(r, reading, p);
      var more := if IsSpaced(r, p.setup.config, p.now) then h + [Observing(reading, p)] else h;
      && Holds(after, more) && Increasing(more)
      && (after.observations != [] && NotBefore(r, p.now)
          ==> InTime(SortByTime(after.observations), p.setup.config.twapWindowSeconds, p.now))
  {
    hide Holds, SortByTime, Increasing;
    OrderedIsRecent(r, h);
    var after := RingAfter(r, reading, p);
    if IsSpaced(r, p.setup.config, p.now) {
      PushKeepsOrder(r, h, Observing(reading, p));
      OrderedIsRecent(after, h + [Observing(reading, p)]);
    }
  }

  lemma RingStaysInTime(r: Ring, reading: PoolsReading, p: Poke)
    requires Genuine(r) && p.setup.config.Valid() && NotBefore(r, p.now)
    ensures var after := RingAfter(r, reading, p);
      && Genuine(after)
      && (after.observations != [] ==> InTime(SortByTime(after.observations), p.setup.config.twapWindowSeconds, p.now))
  {
    var h :| Holds(r, h) && Increasing(h);
    RefreshHolds(r, h, reading, p);
  }

  /** The history part of the handler. The program pushes before it averages, so a failing
      average has its push rolled back. */
  method RecordAndAverage(market: MarketOracle, reading: PoolsReading, p: Poke)
    returns (average: Result<u128>, recorded: bool)
    requires Genuine(market.State()) && market.config.Valid() && market.config == p.setup.config
      && NotBefore(market.State(), p.now)
    modifies market
    ensures market.config == old(market.config)
    ensures RingAfter(old(market.State()), reading, p).observations != [] ==>
      InTime(SortByTime(RingAfter(old(market.State()), reading, p).observations), p.setup.config.twapWindowSeconds,
             p.now)
    ensures recorded == IsSpaced(old(market.State()), p.setup.config, p.now)
    ensures average == TwapOf(RingAfter(old(market.State()), reading, p), p.setup.config, p.now)
    ensures market.State() == if average.Ok? then RingAfter(old(market.State()), reading, p) else old(market.State())
  {
    hide SortByTime, MarketOracleConfig.Valid, AveragePrice, InTime, Latest, Genuine, Push, IsSpaced;
    var before := market.State();
    RingStaysInTime(before, reading, p);
    RingIsSmall(before);
    recorded := IsSpaced(before, market.config, p.now);
    if recorded {
      market.Record(Observing(reading, p));
    }
    average := market.Twap(p.now);
    if average.Err? {
      market.observations, market.nextIndex := before.observations, before.nextIndex;
    }
  }

  /** The handler: writes the ring and the oracle, or neither. */
  method HandleRefreshMarketOracle(market: MarketOracle, oracle: OracleState, a: Vaults, b: Vaults, now: int, slot: u64)
    returns (outcome: Result<()>)
    requires Genuine(market.State()) && market.config.Valid()
    modifies market, oracle
    ensures market.config == old(market.config)
    ensures
      var p := Poke(Setup(market.collateralDecimals, market.quoteDecimals, market.config), a, b, now, slot);
      match RefreshMarket(MarketState(old(market.State()), old(oracle.State())), p)
      case Ok(s) => outcome.Ok? && MarketState(market.State(), oracle.State()) == s
      case Err(e) => outcome == Err(e) && market.State() == old(market.State()) && oracle.State() == old(oracle.State())
  {
    hide ReadPools, EvaluateMarket, SortByTime, MarketOracleConfig.Valid, IsBootstrapped, TwapOf, Latest, Genuine,
      RingAfter, IsSpaced;
    var p := Poke(Setup(market.collateralDecimals, market.quoteDecimals, market.config), a, b, now, slot);
    var before := market.State();
    var _ :- Need(oracle.config.source.kind == MarketTwap, UnknownOracleSource);
    var reading :- ReadPools(a, b, p.setup);
    var previous := Latest(before);
    var _ :- Need(NotBefore(before, now), ObservationTooSoon);
    var average, recorded := RecordAndAverage(market, reading, p);
    var twap :- average;
    var age := if previous.Some? then now - previous.value.timestamp else 0;
    var current := CurrentPrice(oracle.State());
    var v := EvaluateMarket(current, twap, IsBootstrapped(market.State(), market.config), age, reading.degradation,
                            market.config);
    var price := if !recorded && current.Some? then Min(v.acceptedPrice, current.value) else v.acceptedPrice;
    oracle.lastRefreshSlot, oracle.lastMovedBps := slot, Min(v.movedBps, U64_MAX);
    oracle.health, oracle.reference := v.health, Reference(price, price, 0, 0, slot, now);
    return Ok(());
  }

  lemma RingIsSmall(r: Ring)
    requires Genuine(r)
    ensures |r.observations| <= OBSERVATION_CAPACITY
  {
  }
}
