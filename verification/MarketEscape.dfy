/** What the market oracle's breaker lets through: runs of recorded refreshes, from a newly
configured account on, whose reference leaves the bound it is meant to keep. */
module MarketEscape {
  import opened Wrappers
  import opened FixedPoint
  import opened Powers
  import opened StakePool
  import opened MarketHistory
  import opened MarketBreaker
  import opened RateBreaker
  import opened PinnedProgram
  import opened OracleAccount
  import opened OracleRuns
  import opened MarketRefresh
  import opened MarketRuns

  /** A minute between observations, half an hour to average, ten per cent a rise. */
  const RULES := MarketOracleConfig(1_800, 4, 900, 60, 900, 300, 300, 0, 1_000)

  /** The oracle configuration of a market price. */
  function Market(): OracleConfig {
    OracleConfig(Source(MarketTwap, ZeroKey(), ZeroKey(), Deployment(0, ZeroKey())), 0, 1, U128_MAX,
                 BreakerConfig(0, 0, 1, 1))
  }

  /** Both accounts as their instructions set them up: no observation, no reference. */
  function New(): MarketState { MarketState(EMPTY, Configured(ZeroKey(), Market()).oracle) }

  // ---------- one recorded refresh ----------

  /** The ring after a few recordings. */
  function Few(os: seq<Observation>): Ring
    requires |os| <= 4
  {
    Ring(os, |os|)
  }

  /** A market oracle that has recorded exactly `os`. */
  predicate Holding(s: MarketState, os: seq<Observation>) {
    |os| <= 4 && s.ring == Few(os) && s.oracle.config == Market() && Increasing(os)
  }

  /** An observation late enough after `os` to be recorded, and the average with it. */
  predicate Averages(os: seq<Observation>, o: Observation, average: u128) {
    && |os| < 4 && (os != [] ==> os[|os| - 1].timestamp + 60 <= o.timestamp)
    && Increasing(os + [o]) && AveragePrice(os + [o], 1_800, o.timestamp) == Ok(average)
  }

  /** What a recorded refresh makes of the reference. */
  function Judgement(s: MarketState, d: Degradation, average: u128): u128 {
    if !s.oracle.reference.IsSet() then average
    else if d.Any() then Min(s.oracle.reference.effectiveRate, average)
    else NextPrice(s.oracle.reference.effectiveRate, average, 1_000)
  }

  lemma JudgedSo(s: MarketState, d: Degradation, average: u128, bootstrapped: bool, age: int)
    ensures EvaluateMarket(CurrentPrice(s.oracle), average, bootstrapped, age, d, RULES).acceptedPrice
         == Judgement(s, d, average)
  {
    hide NextPrice, MovedBps, CappedPrice;
    if s.oracle.reference.IsSet() {
      NextPriceIsAccepted(s.oracle.reference.effectiveRate, average, bootstrapped, age, d, RULES);
    }
  }

  lemma RefreshedSo(s: MarketState, os: seq<Observation>, p: Poke, reading: PoolsReading, average: u128)
    requires Holding(s, os) && p.setup.config == RULES && ReadPools(p.a, p.b, p.setup) == Ok(reading)
    requires Averages(os, Observing(reading, p), average)
    ensures Genuine(s.ring) && RULES.Valid() && IsSpaced(s.ring, RULES, p.now)
    ensures var v := Evaluated(s, reading, average, p);
      RefreshMarket(s, p) == Ok(MarketState(Few(os + [Observing(reading, p)]),
                                            Written(s.oracle, v, v.acceptedPrice, p)))
  {
    RingRecords(os, p, reading, average);
    IsMarket();
    hide ReadPools, RingAfter, TwapOf, IsSpaced, NotBefore, Latest, Genuine, IsBootstrapped, Increasing, AveragePrice,
      EvaluateMarket, Evaluated, Written, Market, MarketOracleConfig.Valid, Few, SortByTime;
  }

  /** A refresh late enough after the last of a few observations is recorded. */
  lemma Recorded(s: MarketState, os: seq<Observation>, p: Poke, reading: PoolsReading, average: u128)
    requires Holding(s, os) && p.setup.config == RULES && ReadPools(p.a, p.b, p.setup) == Ok(reading)
    requires Averages(os, Observing(reading, p), average)
    ensures Genuine(s.ring) && RULES.Valid() && Appends(s, p)
    ensures Holding(AfterPoke(s, p), os + [Observing(reading, p)])
    ensures AfterPoke(s, p).oracle.reference.effectiveRate == Judgement(s, reading.degradation, average)
  {
    RefreshedSo(s, os, p, reading, average);
    hide ReadPools, RefreshMarket, RingAfter, IsSpaced, Latest, Genuine, IsBootstrapped, Increasing, AveragePrice,
      EvaluateMarket, Market, Judgement, MarketOracleConfig.Valid, Few;
    var age := if Latest(s.ring).Some? then p.now - Latest(s.ring).value.timestamp else 0;
    JudgedSo(s, reading.degradation, average, IsBootstrapped(RingAfter(s.ring, reading, p), RULES), age);
  }

  lemma IsMarket()
    ensures Market().source.kind == MarketTwap && Market().Valid() && RULES.Valid()
  {
  }

  lemma AveragedSo(s: MarketState, os: seq<Observation>, p: Poke, reading: PoolsReading, average: u128)
    requires Holding(s, os) && p.setup.config == RULES && ReadPools(p.a, p.b, p.setup) == Ok(reading)
    requires Averages(os, Observing(reading, p), average)
    requires Genuine(s.ring) && RULES.Valid() && RefreshMarket(s, p).Ok?
    ensures AveragedBy(s, p) == average
  {
    RingRecords(os, p, reading, average);
    hide ReadPools, RingAfter, TwapOf, RefreshMarket, Genuine, Increasing, AveragePrice, MarketOracleConfig.Valid, Few,
      SortByTime;
  }

  lemma RingRecords(os: seq<Observation>, p: Poke, reading: PoolsReading, average: u128)
    requires p.setup.config == RULES && Averages(os, Observing(reading, p), average) && Increasing(os)
    ensures RULES.Valid() && Genuine(Few(os))
    ensures IsSpaced(Few(os), RULES, p.now) && NotBefore(Few(os), p.now)
    ensures RingAfter(Few(os), reading, p) == Few(os + [Observing(reading, p)])
    ensures var all := os + [Observing(reading, p)];
      InTime(SortByTime(all), 1_800, p.now) && TwapOf(Few(all), RULES, p.now) == Ok(average)
  {
    FewHeld(os);
    SortKeepsIncreasing(os + [Observing(reading, p)]);
    hide SortByTime, Increasing, AveragePrice, Genuine, Latest;
  }

  lemma FewHeld(os: seq<Observation>)
    requires |os| < 4 && Increasing(os)
    ensures Genuine(Few(os)) && Latest(Few(os)) == if os == [] then None else Some(os[|os| - 1])
  {
    hide SortByTime, Holds, Increasing;
    RingOf(os);
    SortKeepsIncreasing(os);
    assert |os| % OBSERVATION_CAPACITY == |os| && Holds(Few(os), os);
  }

  // ---------- averages ----------

  /** The weighted sum over the weights, of readings in time. */
  lemma AverageOf(os: seq<Observation>, now: int, sum: nat, seconds: nat)
    requires os != [] && Increasing(os) && os[|os| - 1].timestamp == now
    requires WeightedPrices(os, |os|, 1_800, now) == sum <= U128_MAX && Weights(os, |os|, 1_800, now) == seconds
    ensures seconds > 0 && AveragePrice(os, 1_800, now) == Ok(FloorDiv(sum, seconds))
  {
    NewestWeighs(os, 1_800, now);
    TimeWeightedIsAverage(os, 1_800, now);
    hide AveragePrice, Weights, WeightedPrices, FloorDiv, Increasing;
  }

  /** One more reading inside the window, which stands until the next; the newest for one. */
  lemma Stands(os: seq<Observation>, k: nat, now: int, seconds: nat)
    requires k < |os| && now - 1_800 <= os[k].timestamp <= now && seconds > 0
    requires if k < |os| - 1 then os[k + 1].timestamp == os[k].timestamp + seconds
             else os[k].timestamp == now && seconds == 1
    ensures Weights(os, k + 1, 1_800, now) == Weights(os, k, 1_800, now) + seconds
    ensures WeightedPrices(os, k + 1, 1_800, now) == WeightedPrices(os, k, 1_800, now) + os[k].price * seconds
  {
    assert Standing(os, k, 1_800, now) == seconds;
    hide Standing;
  }

  lemma FirstAverage(a: Observation)
    ensures Averages([], a, a.price)
  {
    assert [] + [a] == [a];
    Stands([a], 0, a.timestamp, 1);
    AverageOf([a], a.timestamp, a.price, 1);
    WholeQuotient(a.price, 1);
    hide AveragePrice, FloorDiv;
  }

  /** Sixty seconds of the first price and one of the second. */
  lemma SecondAverage(a: Observation, b: Observation)
    requires a.timestamp == 0 && b.timestamp == 60 && a.price * 60 + b.price <= U128_MAX
    ensures Averages([a], b, FloorDiv(a.price * 60 + b.price, 61))
  {
    var os := [a, b];
    assert [a] + [b] == os && Increasing(os);
    hide Weights, WeightedPrices, AveragePrice, FloorDiv, Increasing;
    Stands(os, 0, 60, 60);
    Stands(os, 1, 60, 1);
    NothingYet(os, 60);
    AverageOf(os, 60, a.price * 60 + b.price, 61);
  }

  lemma NothingYet(os: seq<Observation>, now: int)
    ensures Weights(os, 0, 1_800, now) == 0 && WeightedPrices(os, 0, 1_800, now) == 0
  {
  }

  /** Sixty of the first two each, and one of the third. */
  lemma ThirdAverage(a: Observation, b: Observation, c: Observation)
    requires a.timestamp == 0 && b.timestamp == 60 && c.timestamp == 120
    requires a.price * 60 + b.price * 60 + c.price <= U128_MAX
    ensures Averages([a, b], c, FloorDiv(a.price * 60 + b.price * 60 + c.price, 121))
  {
    var os := [a, b, c];
    assert [a, b] + [c] == os && Increasing(os);
    hide Weights, WeightedPrices, AveragePrice, FloorDiv, Increasing;
    Stands(os, 0, 120, 60);
    Stands(os, 1, 120, 60);
    Stands(os, 2, 120, 1);
    NothingYet(os, 120);
    AverageOf(os, 120, a.price * 60 + b.price * 60 + c.price, 121);
  }

  // ---------- runs of two ----------

  /** Two pools alike. */
  function Alike(decimals: (u8, u8), v: Vaults, now: int, slot: u64): Poke {
    Poke(Setup(decimals.0, decimals.1, RULES), v, v, now, slot)
  }

  lemma AlikeRead(decimals: (u8, u8), v: Vaults, now: int, slot: u64, price: u128)
    requires PoolPrice(v, decimals.0, decimals.1) == Ok(price) && 0 < price <= U128_MAX / 2
    ensures var p := Alike(decimals, v, now, slot);
      ReadPools(p.a, p.b, p.setup)
        == Ok(PoolsReading(price, Min(v.quote + v.quote, U64_MAX), Degradation(false, false)))
  {
    hide PoolPrice;
    assert MulDivFloor(0, BPS, price + price) == Ok(0) by { WholeQuotient(0, price + price); }
  }

  /** One refresh of two pools alike. */
  lemma AlikeRecorded(s: MarketState, os: seq<Observation>, decimals: (u8, u8), v: Vaults, o: Observation,
                      average: u128)
    requires PoolPrice(v, decimals.0, decimals.1) == Ok(o.price) && 0 < o.price <= U128_MAX / 2
    requires o.quoteDepth == Min(v.quote + v.quote, U64_MAX) && Holding(s, os) && Averages(os, o, average)
    ensures var p := Alike(decimals, v, o.timestamp, o.slot);
      && Genuine(s.ring) && RULES.Valid() && Appends(s, p) && AveragedBy(s, p) == average
      && Holding(AfterPoke(s, p), os + [o])
      && AfterPoke(s, p).oracle.reference.effectiveRate == Judgement(s, Degradation(false, false), average)
  {
    var p := Alike(decimals, v, o.timestamp, o.slot);
    AlikeRead(decimals, v, o.timestamp, o.slot, o.price);
    var reading := ReadPools(p.a, p.b, p.setup).value;
    assert Observing(reading, p) == o;
    hide ReadPools, AfterPoke, Genuine, PoolPrice, Judgement, MarketOracleConfig.Valid, Holding, Averages,
      RefreshMarket,
      IsSpaced;
    Recorded(s, os, p, reading, average);
    AveragedSo(s, os, p, reading, average);
  }

  /** The first price is the reference. */
  lemma FirstPrice(decimals: (u8, u8), v: Vaults, o: Observation)
    requires PoolPrice(v, decimals.0, decimals.1) == Ok(o.price) && 0 < o.price <= U128_MAX / 2
    requires o.quoteDepth == Min(v.quote + v.quote, U64_MAX)
    ensures Genuine(New().ring) && RULES.Valid()
    ensures var p := Alike(decimals, v, o.timestamp, o.slot);
      && Appends(New(), p) && Holding(AfterPoke(New(), p), [o])
      && AfterPoke(New(), p).oracle.reference.effectiveRate == o.price
  {
    FirstAverage(o);
    NewHolds();
    assert [] + [o] == [o];
    hide AfterPoke, Appends, Genuine, PoolPrice, NextPrice, New, MarketOracleConfig.Valid, Holding, Averages;
    AlikeRecorded(New(), [], decimals, v, o, o.price);
  }

  lemma NewHolds()
    ensures Holding(New(), []) && !New().oracle.reference.IsSet() && Genuine(New().ring)
  {
    FewHeld([]);
    hide Genuine, Market;
  }

  /** From new accounts the first price is the reference, and the average of it and another a
      minute later is judged against it. */
  lemma TwoPrices(decimals: (u8, u8), v: Vaults, w: Vaults, a: Observation, b: Observation)
    requires PoolPrice(v, decimals.0, decimals.1) == Ok(a.price) && 0 < a.price <= U128_MAX / 2
    requires PoolPrice(w, decimals.0, decimals.1) == Ok(b.price) && 0 < b.price <= U128_MAX / 2
    requires a == Observation(a.price, 1, 0, Min(v.quote + v.quote, U64_MAX))
    requires b == Observation(b.price, 2, 60, Min(w.quote + w.quote, U64_MAX))
    requires a.price * 60 + b.price <= U128_MAX
    ensures Genuine(New().ring) && RULES.Valid()
    ensures var p, q := Alike(decimals, v, 0, 1), Alike(decimals, w, 60, 2);
      var s := AfterPoke(New(), p);
      && Appends(New(), p) && Appends(s, q) && s.oracle.reference.effectiveRate == a.price
      && AveragedBy(s, q) == FloorDiv(a.price * 60 + b.price, 61)
      && AfterPoke(s, q).oracle.reference.effectiveRate == NextPrice(a.price, AveragedBy(s, q), 1_000)
  {
    hide AfterPoke, Appends, Genuine, FloorDiv, PoolPrice, NextPrice, New, MarketOracleConfig.Valid, Holding, Averages;
    FirstPrice(decimals, v, a);
    SecondAverage(a, b);
    AlikeRecorded(AfterPoke(New(), Alike(decimals, v, 0, 1)), [a], decimals, w, b,
                  FloorDiv(a.price * 60 + b.price, 61));
  }

  /** At 24 and 9 decimals a unit of the quote against one of the collateral. */
  const DEAR: u128 := 1_000_000_000_000_000_000_000_000_000_000_000

  lemma DearPrices()
    ensures PoolPrice(Vaults(1, 70), 24, 9) == Ok(70 * DEAR) && PoolPrice(Vaults(1, 400), 24, 9) == Ok(400 * DEAR)
    ensures PoolPrice(Vaults(1, 4_340), 24, 9) == Ok(4_340 * DEAR)
    ensures PoolPrice(Vaults(1, 24_800), 24, 9) == Ok(24_800 * DEAR)
  {
    assert Pow10(4) == 10_000 && Pow10(8) == 100_000_000;
    assert Pow10(12) == 1_000_000_000_000;
    assert Pow10(15) == 1_000_000_000_000_000;
  }

  /** Two recorded refreshes of new accounts, the second of which doubles the reference. */
  lemma RiseEscapesItsLimit()
    ensures Genuine(New().ring) && RULES.Valid()
    ensures var p, q := Alike((24, 9), Vaults(1, 400), 0, 1), Alike((24, 9), Vaults(1, 24_800), 60, 2);
      var s := AfterPoke(New(), p);
      && Appends(New(), p) && Appends(s, q) && s.oracle.reference.IsSet()
      && AfterPoke(s, q).oracle.reference.effectiveRate == 2 * s.oracle.reference.effectiveRate
  {
    DearPrices();
    var a := Observation(400 * DEAR, 1, 0, 800);
    var b := Observation(24_800 * DEAR, 2, 60, 49_600);
    RiseMayEscapeItsLimit();
    assert FloorDiv(a.price * 60 + b.price, 61) == 2 * a.price;
    hide AfterPoke, Appends, Genuine, PoolPrice, NextPrice, New, MarketOracleConfig.Valid, FloorDiv, AveragedBy;
    TwoPrices((24, 9), Vaults(1, 400), Vaults(1, 24_800), a, b);
  }

  /** Two of which the second finds a higher average and more than halves the reference. */
  lemma RiseHalvesTheReference()
    ensures Genuine(New().ring) && RULES.Valid()
    ensures var p, q := Alike((24, 9), Vaults(1, 70), 0, 1), Alike((24, 9), Vaults(1, 4_340), 60, 2);
      var s := AfterPoke(New(), p);
      && Appends(New(), p) && Appends(s, q) && AveragedBy(s, q) == 2 * s.oracle.reference.effectiveRate
      && 0 < 2 * AfterPoke(s, q).oracle.reference.effectiveRate < s.oracle.reference.effectiveRate
  {
    DearPrices();
    var a := Observation(70 * DEAR, 1, 0, 140);
    var b := Observation(4_340 * DEAR, 2, 60, 8_680);
    RiseMayHalveThePrice();
    assert FloorDiv(a.price * 60 + b.price, 61) == 2 * a.price;
    hide AfterPoke, Appends, Genuine, PoolPrice, NextPrice, New, MarketOracleConfig.Valid, FloorDiv, AveragedBy;
    TwoPrices((24, 9), Vaults(1, 70), Vaults(1, 4_340), a, b);
  }

  // ---------- a price of zero ----------

  /** A pool may hold so much of the collateral against so little of the quote that its price
      floors to nothing. */
  lemma PriceMayBeZero()
    ensures PoolPrice(Vaults(U64_MAX, 1), 6, 9) == Ok(0)
    ensures PoolPrice(Vaults(1, 1), 6, 9) == Ok(1_000_000_000_000_000)
    ensures PoolPrice(Vaults(1_000_000_000_000_000, 1), 6, 9) == Ok(1)
  {
    assert Pow10(3) == 1_000;
    FloorIsLargest(1, SCALE, U64_MAX * 1_000);
  }

  /** Both pools at a price of one. */
  function Low(): Poke { Alike((6, 9), Vaults(1_000_000_000_000_000, 1), 0, 1) }

  /** A minute later one of them is swamped with the collateral. */
  function Swamped(): Poke { Poke(Setup(6, 9, RULES), Vaults(U64_MAX, 1), Vaults(1, 1), 60, 2) }

  /** Another minute later both are level. */
  function Level(): Poke { Alike((6, 9), Vaults(1, 1), 120, 3) }

  const ONE := Observation(1, 1, 0, 2)
  const ZERO := Observation(0, 2, 60, 2)
  const HIGH := Observation(1_000_000_000_000_000, 3, 120, 2)

  lemma SwampedReads()
    ensures ReadPools(Swamped().a, Swamped().b, Swamped().setup) == Ok(PoolsReading(0, 2, Degradation(true, false)))
  {
    PriceMayBeZero();
    hide PoolPrice;
  }

  /** The second refresh unsets the reference. */
  lemma SwampedUnsets(s: MarketState)
    requires Holding(s, [ONE]) && s.oracle.reference.effectiveRate == 1
    ensures Genuine(s.ring) && RULES.Valid() && Appends(s, Swamped())
    ensures Holding(AfterPoke(s, Swamped()), [ONE, ZERO]) && !AfterPoke(s, Swamped()).oracle.reference.IsSet()
  {
    SwampedReads();
    SecondAverage(ONE, ZERO);
    assert FloorDiv(60, 61) == 0;
    var reading := PoolsReading(0, 2, Degradation(true, false));
    assert Observing(reading, Swamped()) == ZERO && [ONE] + [ZERO] == [ONE, ZERO];
    hide ReadPools, AfterPoke, Appends, Genuine, MarketOracleConfig.Valid, Holding, Averages;
    Recorded(s, [ONE], Swamped(), reading, 0);
  }

  /** The third takes its average whole. */
  lemma LevelIsTakenWhole(s: MarketState)
    requires Holding(s, [ONE, ZERO]) && !s.oracle.reference.IsSet()
    ensures Genuine(s.ring) && RULES.Valid() && Appends(s, Level())
    ensures AfterPoke(s, Level()).oracle.reference.effectiveRate == 8_264_462_809_917
  {
    PriceMayBeZero();
    ThirdAverage(ONE, ZERO, HIGH);
    assert FloorDiv(1_000_000_000_000_060, 121) == 8_264_462_809_917;
    hide AfterPoke, Appends, Genuine, PoolPrice, MarketOracleConfig.Valid, Holding, Averages;
    AlikeRecorded(s, [ONE, ZERO], (6, 9), Vaults(1, 1), HIGH, 8_264_462_809_917);
  }

  lemma TwoPokes(s: MarketState, p: Poke, q: Poke)
    requires Genuine(s.ring) && p.setup.config.Valid() && q.setup.config.Valid()
    requires Appends(s, p) && Appends(AfterPoke(s, p), q)
    ensures ValidPokes([p, q]) && AppendedIn(s, [p, q]) == 2
    ensures PokeRun(s, [p, q]) == AfterPoke(AfterPoke(s, p), q)
  {
    hide AfterPoke, Appends, Genuine, MarketOracleConfig.Valid;
    assert [p, q][0] == p && [p, q][1..] == [q];
    assert ValidPokes([q]) && ValidPokes([p, q]);
    OnePoke(AfterPoke(s, p), q);
    assert PokeRun(s, [p, q]) == PokeRun(AfterPoke(s, p), [p, q][1..]);
  }

  lemma OnePoke(s: MarketState, p: Poke)
    requires Genuine(s.ring) && p.setup.config.Valid() && Appends(s, p)
    ensures ValidPokes([p]) && AppendedIn(s, [p]) == 1 && PokeRun(s, [p]) == AfterPoke(s, p)
  {
    hide AfterPoke, Appends, Genuine, MarketOracleConfig.Valid;
    var t, none := AfterPoke(s, p), [p][1..];
    assert [p][0] == p && none == [];
    assert PokeRun(t, none) == t && AppendedIn(t, none) == 0;
    assert PokeRun(s, [p]) == PokeRun(t, none);
  }

  /** Three recorded refreshes of new accounts under a ten per cent limit. The first sets the
      reference, and two later it is up eight million million times, past the bound that
      positive prices keep. */
  lemma ZeroPriceEscapesTheBound()
    ensures Genuine(New().ring) && RULES.Valid() && ValidPokes([Swamped(), Level()])
    ensures var s, ps := AfterPoke(New(), Low()), [Swamped(), Level()];
      var r0, r2 := s.oracle.reference.effectiveRate, PokeRun(s, ps).oracle.reference.effectiveRate;
      && Appends(New(), Low()) && s.oracle.reference.IsSet() && AppendedIn(s, ps) == 2
      && !AfterPoke(s, Swamped()).oracle.reference.IsSet()
      && r2 * Pow(BPS, 2) >= r0 * Pow(BPS + 1_000 + 1, 2)
  {
    PriceMayBeZero();
    assert Low() == Alike((6, 9), Vaults(1_000_000_000_000_000, 1), ONE.timestamp, ONE.slot);
    assert Swamped().setup.config == Level().setup.config == RULES;
    hide AfterPoke, Appends, Genuine, PoolPrice, MarketOracleConfig.Valid, Holding, New, Low, Swamped, Level, Alike,
      PokeRun, AppendedIn, ValidPokes;
    FirstPrice((6, 9), Vaults(1_000_000_000_000_000, 1), ONE);
    var s := AfterPoke(New(), Low());
    SwampedUnsets(s);
    LevelIsTakenWhole(AfterPoke(s, Swamped()));
    TwoPokes(s, Swamped(), Level());
    assert Pow(BPS, 2) == 100_000_000 && Pow(11_001, 2) == 121_022_001;
  }
}
