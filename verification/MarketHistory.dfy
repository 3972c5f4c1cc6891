/** The price history behind a market oracle (state/market_oracle.rs): a ring of the last 32
spaced observations, and the time-weighted average over it.

Timestamps are unbounded integers here. */
module MarketHistory {
  import opened Wrappers
  import opened FixedPoint

  const OBSERVATION_CAPACITY: nat := 32
  const U32_MAX: nat := 0xFFFF_FFFF

  type u32 = x: nat | x <= 0xFFFF_FFFF

  datatype Observation = Observation(price: u128, slot: u64, timestamp: int, quoteDepth: u64)

  datatype MarketOracleConfig = MarketOracleConfig(
    twapWindowSeconds: u32,
    minObservations: u8,
    minSpanSeconds: u32,
    minSpacingSeconds: u32,
    maxObservationAgeSeconds: u32,
    warnAgeSeconds: u32,
    maxCrossPoolDeviationBps: u16,
    minPoolQuoteDepth: u64,
    maxRiseBpsPerWindow: u16)
  {
    /** What `validate` accepts; the two products saturate at 32 bits. */
    predicate Valid() {
      && 0 < maxCrossPoolDeviationBps <= 1_000
      && 0 < maxObservationAgeSeconds <= 3_600
      && 0 < maxRiseBpsPerWindow <= 5_000
      && minSpanSeconds >= 300
      && 0 < twapWindowSeconds <= 86_400
      && 2 <= minObservations <= OBSERVATION_CAPACITY
      && minSpacingSeconds > 0
      && Min(minSpacingSeconds * (minObservations - 1), U32_MAX) <= Min(minSpanSeconds * 4, U32_MAX)
      && warnAgeSeconds < maxObservationAgeSeconds
    }
  }

  // ---------- the ring ----------

  datatype Ring = Ring(observations: seq<Observation>, nextIndex: u8)

  const EMPTY := Ring([], 0)

  /** Grows until it is full, then overwrites the oldest place. */
  function Push(r: Ring, o: Observation): Ring {
    var index := r.nextIndex % OBSERVATION_CAPACITY;
    Ring(if |r.observations| < OBSERVATION_CAPACITY then r.observations + [o] else r.observations[index := o],
         (index + 1) % OBSERVATION_CAPACITY)
  }

  /** A stable sort by time: `o` goes behind everything not younger than it. */
  function InsertByTime(xs: seq<Observation>, o: Observation): (ys: seq<Observation>)
    ensures |ys| == |xs| + 1
  {
    if xs == [] || xs[|xs| - 1].timestamp <= o.timestamp then xs + [o]
    else InsertByTime(xs[..|xs| - 1], o) + [xs[|xs| - 1]]
  }

  function SortByTime(xs: seq<Observation>): (ys: seq<Observation>)
    ensures |ys| == |xs|
  {
    if xs == [] then [] else InsertByTime(SortByTime(xs[..|xs| - 1]), xs[|xs| - 1])
  }

  predicate Increasing(xs: seq<Observation>) {
    forall i, j :: 0 <= i < j < |xs| ==> xs[i].timestamp < xs[j].timestamp
  }

  /** The last 32 of everything ever recorded. */
  function Recent(history: seq<Observation>): seq<Observation> {
    if |history| <= OBSERVATION_CAPACITY then history else history[|history| - OBSERVATION_CAPACITY..]
  }

  /** The ring is what recording `history` leaves: rotated at the next index, it is the
      recent history, oldest first. */
  ghost predicate Holds(r: Ring, history: seq<Observation>) {
    && r.nextIndex == |history| % OBSERVATION_CAPACITY
    && |r.observations| == Min(|history|, OBSERVATION_CAPACITY)
    && r.observations[r.nextIndex..] + r.observations[..r.nextIndex] == Recent(history)
  }

  lemma PushHolds(r: Ring, history: seq<Observation>, o: Observation)
    requires Holds(r, history)
    ensures Holds(Push(r, o), history + [o])
  {
    hide *;
    if |history| < OBSERVATION_CAPACITY {
      GrowingRing(r, history, o);
    } else {
      TurningRing(r, history, o);
    }
  }

  lemma TurningRing(r: Ring, history: seq<Observation>, o: Observation)
    requires Holds(r, history) && |history| >= OBSERVATION_CAPACITY
    ensures Holds(Push(r, o), history + [o])
  {
    var n, t, xs := |history|, (r.nextIndex + 1) % OBSERVATION_CAPACITY, r.observations;
    WrappedRing(xs, r.nextIndex, o);
    RecentTurns(history, o);
    assert (n + 1) % OBSERVATION_CAPACITY == t;
    hide Recent;
    assert Push(r, o) == Ring(xs[r.nextIndex := o], t);
  }

  lemma RecentTurns(history: seq<Observation>, o: Observation)
    requires |history| >= OBSERVATION_CAPACITY
    ensures Recent(history + [o]) == Recent(history)[1..] + [o]
  {
  }

  lemma GrowingRing(r: Ring, history: seq<Observation>, o: Observation)
    requires Holds(r, history) && |history| < OBSERVATION_CAPACITY
    ensures Holds(Push(r, o), history + [o])
  {
    WholeHistory(r, history);
    RingOf(history + [o]);
    hide Holds;
  }

  lemma WholeHistory(r: Ring, history: seq<Observation>)
    requires Holds(r, history) && |history| < OBSERVATION_CAPACITY
    ensures r == Ring(history, |history|)
  {
    var n, xs := |history|, r.observations;
    assert xs[n..] + xs[..n] == xs;
  }

  lemma RingOf(ys: seq<Observation>)
    requires |ys| <= OBSERVATION_CAPACITY
    ensures Holds(Ring(ys, |ys| % OBSERVATION_CAPACITY), ys)
  {
    var t := |ys| % OBSERVATION_CAPACITY;
    assert ys[t..] + ys[..t] == ys;
  }

  /** Overwriting the oldest place and moving on drops the oldest and appends the new. */
  lemma WrappedRing(xs: seq<Observation>, s: nat, o: Observation)
    requires |xs| == OBSERVATION_CAPACITY && s < OBSERVATION_CAPACITY
    ensures var t := (s + 1) % OBSERVATION_CAPACITY;
      xs[s := o][t..] + xs[s := o][..t] == (xs[s..] + xs[..s])[1..] + [o]
  {
    var ys := xs[s := o];
    assert ys[s + 1..] == xs[s + 1..];
    assert ys[..s + 1] == xs[..s] + [o];
    assert (xs[s..] + xs[..s])[1..] == xs[s + 1..] + xs[..s];
    if s + 1 == OBSERVATION_CAPACITY {
      assert ys[0..] + ys[..0] == ys == ys[..s + 1];
      assert xs[s + 1..] + xs[..s] == xs[..s];
    } else {
      assert ys[s + 1..] + ys[..s + 1] == xs[s + 1..] + xs[..s] + [o];
    }
  }

  ghost predicate Before(xs: seq<Observation>, ys: seq<Observation>) {
    forall i, j :: 0 <= i < |xs| && 0 <= j < |ys| ==> xs[i].timestamp < ys[j].timestamp
  }

  lemma {:induction false} InsertBetween(before: seq<Observation>, after: seq<Observation>, o: Observation)
    requires Before(before, [o]) && Before([o], after)
    ensures InsertByTime(before + after, o) == before + [o] + after
    decreases |after|
  {
    var all := before + after;
    if after == [] {
      assert all == before;
      if before != [] { assert before[|before| - 1].timestamp < [o][0].timestamp; }
    } else {
      var n := |after| - 1;
      assert all[..|all| - 1] == before + after[..n] && all[|all| - 1] == after[n];
      assert [o][0].timestamp < after[n].timestamp;
      InsertBetween(before, after[..n], o);
    }
  }

  lemma {:induction false} SortKeepsIncreasing(xs: seq<Observation>)
    requires Increasing(xs)
    ensures SortByTime(xs) == xs
  {
    if xs != [] {
      var n := |xs| - 1;
      SortKeepsIncreasing(xs[..n]);
      assert xs[..n] + [] == xs[..n] && xs[..n] + [xs[n]] + [] == xs;
      InsertBetween(xs[..n], [], xs[n]);
    }
  }

  /** Readings of one time, in their order. */
  function StampedAt(xs: seq<Observation>, t: int): seq<Observation> {
    if xs == [] then [] else
    var n := |xs| - 1;
    StampedAt(xs[..n], t) + if xs[n].timestamp == t then [xs[n]] else []
  }

  predicate Ordered(xs: seq<Observation>) {
    forall i, j :: 0 <= i < j < |xs| ==> xs[i].timestamp <= xs[j].timestamp
  }

  lemma {:induction false} InsertOrders(xs: seq<Observation>, o: Observation)
    requires Ordered(xs)
    ensures Ordered(InsertByTime(xs, o))
    ensures forall x :: x in InsertByTime(xs, o) ==> x in xs || x == o
  {
    if xs != [] && xs[|xs| - 1].timestamp > o.timestamp {
      var before, last := xs[..|xs| - 1], xs[|xs| - 1];
      InsertOrders(before, o);
      var ys := InsertByTime(before, o);
      forall i | 0 <= i < |ys| ensures ys[i].timestamp <= last.timestamp {
        assert ys[i] in ys;
        assert forall x :: x in before ==> x.timestamp <= last.timestamp;
      }
      assert InsertByTime(xs, o) == ys + [last];
    }
  }

  lemma StampedAppend(xs: seq<Observation>, o: Observation, t: int)
    ensures StampedAt(xs + [o], t) == StampedAt(xs, t) + if o.timestamp == t then [o] else []
  {
    assert (xs + [o])[..|xs|] == xs;
  }

  lemma {:induction false} InsertIsStable(xs: seq<Observation>, o: Observation, t: int)
    ensures StampedAt(InsertByTime(xs, o), t) == StampedAt(xs, t) + if o.timestamp == t then [o] else []
  {
    hide StampedAt;
    if xs == [] || xs[|xs| - 1].timestamp <= o.timestamp {
      StampedAppend(xs, o, t);
    } else {
      var before, last := xs[..|xs| - 1], xs[|xs| - 1];
      assert xs == before + [last];
      InsertIsStable(before, o, t);
      StampedAppend(InsertByTime(before, o), last, t);
      StampedAppend(before, last, t);
    }
  }

  /** Whatever the readings, sorting orders them by time and keeps those of one time, all of
      them, in the order they had. */
  lemma {:induction false} SortIsStable(xs: seq<Observation>, t: int)
    ensures Ordered(SortByTime(xs)) && StampedAt(SortByTime(xs), t) == StampedAt(xs, t)
  {
    if xs != [] {
      var n := |xs| - 1;
      SortIsStable(xs[..n], t);
      InsertOrders(SortByTime(xs[..n]), xs[n]);
      InsertIsStable(SortByTime(xs[..n]), xs[n], t);
    }
  }

  lemma SortAppends(xs: seq<Observation>, o: Observation)
    ensures SortByTime(xs + [o]) == InsertByTime(SortByTime(xs), o)
  {
    assert (xs + [o])[..|xs|] == xs;
  }

  /** Sorting puts an older run that was written behind a newer one back in front of it. */
  lemma {:induction false} SortUnrotates(newer: seq<Observation>, older: seq<Observation>)
    requires Increasing(older) && Increasing(newer) && Before(older, newer)
    ensures SortByTime(newer + older) == older + newer
    decreases |older|
  {
    if older == [] {
      assert newer + older == newer == older + newer;
      SortKeepsIncreasing(newer);
    } else {
      var n := |older| - 1;
      var rest, last := older[..n], older[n];
      LastIsBetween(older, newer);
      hide *;
      SortUnrotates(newer, rest);
      assert newer + older == (newer + rest) + [last] && rest + [last] + newer == older + newer;
      SortAppends(newer + rest, last);
      InsertBetween(rest, newer, last);
    }
  }

  lemma LastIsBetween(older: seq<Observation>, newer: seq<Observation>)
    requires older != [] && Increasing(older) && Before(older, newer)
    ensures var n := |older| - 1;
      && older == older[..n] + [older[n]]
      && Increasing(older[..n]) && Before(older[..n], newer) && Before(older[..n], [older[n]])
      && Before([older[n]], newer)
  {
  }

  lemma SplitIncreasing(xs: seq<Observation>, k: nat)
    requires Increasing(xs) && k <= |xs|
    ensures Increasing(xs[..k]) && Increasing(xs[k..]) && Before(xs[..k], xs[k..])
  {
  }

  /** The ring refines the history: sorting it gives exactly the last min(n, 32) recordings
      in order, wrapped around or not, and its newest is the newest. */
  lemma OrderedIsRecent(r: Ring, history: seq<Observation>)
    requires Holds(r, history) && Increasing(history)
    ensures SortByTime(r.observations) == Recent(history) && Increasing(Recent(history))
    ensures Latest(r) == if history == [] then None else Some(history[|history| - 1])
  {
    hide SortByTime;
    var s, xs := r.nextIndex, r.observations;
    var recent := Recent(history);
    assert recent[..|xs| - s] == xs[s..] && recent[|xs| - s..] == xs[..s];
    SplitIncreasing(recent, |xs| - s);
    assert xs == xs[..s] + xs[s..];
    SortUnrotates(xs[..s], xs[s..]);
  }

  // ---------- reads ----------

  function Latest(r: Ring): Option<Observation> {
    var ordered := SortByTime(r.observations);
    if ordered == [] then None else Some(ordered[|ordered| - 1])
  }

  function SpanSeconds(r: Ring): int {
    var ordered := SortByTime(r.observations);
    if ordered == [] then 0 else ordered[|ordered| - 1].timestamp - ordered[0].timestamp
  }

  predicate IsBootstrapped(r: Ring, c: MarketOracleConfig) {
    |r.observations| >= c.minObservations && SpanSeconds(r) >= c.minSpanSeconds
  }

  // ---------- the plain average ----------

  function MaxTime(a: int, b: int): int { if a >= b then a else b }

  /** The price standing at second `t`: the youngest one not younger than `t`. */
  function PriceAt(os: seq<Observation>, t: int): u128
    requires os != []
  {
    if |os| == 1 || os[|os| - 1].timestamp <= t then os[|os| - 1].price else PriceAt(os[..|os| - 1], t)
  }

  /** One standing price for every second from `a` up to `b`. */
  function PriceSeconds(os: seq<Observation>, a: int, b: int): nat
    requires os != []
    decreases b - a
  {
    if a >= b then 0 else PriceSeconds(os, a, b - 1) + PriceAt(os, b - 1)
  }

  function AverageFrom(os: seq<Observation>, window: u32, now: int): int
    requires os != []
  {
    MaxTime(os[0].timestamp, now - window)
  }

  /** Up to now, and one second more for a reading stamped now. */
  function AverageTo(os: seq<Observation>, now: int): int
    requires os != []
  {
    if os[|os| - 1].timestamp == now then now + 1 else now
  }

  /** What the oracle's instructions see to: distinct times, none after now. */
  predicate InTime(os: seq<Observation>, window: u32, now: int)
    requires os != []
  {
    Increasing(os) && os[|os| - 1].timestamp <= now && window > 0
  }

  /** The per-second average over the window, floored; it fails when the sum leaves 128 bits. */
  function AveragePrice(os: seq<Observation>, window: u32, now: int): Result<u128>
    requires os != [] && InTime(os, window, now)
  {
    var a, b := AverageFrom(os, window, now), AverageTo(os, now);
    var sum :- ToU128(PriceSeconds(os, a, b));
    QuotientFits(sum, b - a);
    Ok(FloorDiv(sum, b - a))
  }

  // ---------- the account ----------

  class MarketOracle {
    const collateralDecimals: u8
    const quoteDecimals: u8
    var config: MarketOracleConfig
    var observations: seq<Observation>
    var nextIndex: u8

    constructor (collateralDecimals: u8, quoteDecimals: u8, config: MarketOracleConfig)
      ensures this.collateralDecimals == collateralDecimals && this.quoteDecimals == quoteDecimals
      ensures this.config == config && State() == EMPTY
    {
      this.collateralDecimals, this.quoteDecimals := collateralDecimals, quoteDecimals;
      this.config, observations, nextIndex := config, [], 0;
    }

    function State(): Ring
      reads this
    {
      Ring(observations, nextIndex)
    }

    /** Appends an observation, or overwrites the oldest. */
    method Record(o: Observation)
      requires |observations| <= OBSERVATION_CAPACITY
      modifies this`observations, this`nextIndex
      ensures State() == Push(old(State()), o)
    {
      var index := nextIndex % OBSERVATION_CAPACITY;
      if |observations| < OBSERVATION_CAPACITY {
        observations := observations + [o];
      } else {
        observations := observations[index := o];
      }
      nextIndex := (index + 1) % OBSERVATION_CAPACITY;
    }

    /** The time-weighted average, whatever the readings; in time, it is the plain average. */
    method Twap(now: int) returns (twap: Result<u128>)
      ensures var os, window := SortByTime(observations), config.twapWindowSeconds;
        && twap == (if os == [] then Err(InvalidOraclePrice) else TimeWeighted(os, window, now))
        && (os != [] && InTime(os, window, now) ==> twap == AveragePrice(os, window, now))
    {
      var ordered := SortByTime(observations);
      var _ :- Need(ordered != [], InvalidOraclePrice);
      var sums := WeighReadings(ordered, config.twapWindowSeconds, now);
      if InTime(ordered, config.twapWindowSeconds, now) {
        TimeWeightedIsAverage(ordered, config.twapWindowSeconds, now);
      }
      hide SortByTime, InTime, AveragePrice, Weights, WeightedPrices;
      var weights :- sums;
      var (weighted, totalWeight) := weights;
      var _ :- Need(totalWeight > 0, InvalidOraclePrice);
      QuotientFits(weighted, totalWeight);
      return Ok(FloorDiv(weighted, totalWeight));
    }
  }

  /** Adds a price that stood from `lo` to `hi` to the weighted sum and the total weight. */
  function Weigh(weighted: u128, totalWeight: nat, price: u128, lo: int, hi: int): Result<(u128, nat)> {
    if hi <= lo then Ok((weighted, totalWeight)) else
    var product :- ToU128(price * (hi - lo));
    var sum :- ToU128(weighted + product);
    Ok((sum, totalWeight + (hi - lo)))
  }

  /** The seconds reading `i` stood before the next one or now, clipped to the window; the
      newest stands for one at least. */
  function Standing(os: seq<Observation>, i: nat, window: u32, now: int): nat
    requires i < |os|
  {
    var cutoff := now - window;
    var lo, until := MaxTime(os[i].timestamp, cutoff), if i < |os| - 1 then os[i + 1].timestamp else now;
    var hi := if i < |os| - 1 then MaxTime(until, cutoff) else MaxTime(MaxTime(until, cutoff), lo + 1);
    if hi <= lo then 0 else hi - lo
  }

  /** Total weight of the first `k` readings. */
  function Weights(os: seq<Observation>, k: nat, window: u32, now: int): nat
    requires k <= |os|
  {
    if k == 0 then 0 else Weights(os, k - 1, window, now) + Standing(os, k - 1, window, now)
  }

  /** Their prices, each as often as it weighs. */
  function WeightedPrices(os: seq<Observation>, k: nat, window: u32, now: int): nat
    requires k <= |os|
  {
    if k == 0 then 0 else WeightedPrices(os, k - 1, window, now) + os[k - 1].price * Standing(os, k - 1, window, now)
  }

  /** The floored weighted average of any readings at all. */
  function TimeWeighted(os: seq<Observation>, window: u32, now: int): Result<u128>
    requires os != []
  {
    var sum :- ToU128(WeightedPrices(os, |os|, window, now));
    var seconds := Weights(os, |os|, window, now);
    if seconds == 0 then Err(InvalidOraclePrice) else
    QuotientFits(sum, seconds);
    Ok(FloorDiv(sum, seconds))
  }

  /** There is always a weight to divide by. */
  lemma NewestWeighs(os: seq<Observation>, window: u32, now: int)
    requires os != []
    ensures Weights(os, |os|, window, now) > 0 && TimeWeighted(os, window, now) != Err(InvalidOraclePrice)
  {
    assert Standing(os, |os| - 1, window, now) > 0;
  }

  lemma {:induction false} PartialSumsGrow(os: seq<Observation>, j: nat, k: nat, window: u32, now: int)
    requires j <= k <= |os|
    ensures WeightedPrices(os, j, window, now) <= WeightedPrices(os, k, window, now)
    decreases k
  {
    hide Standing;
    if j < k { PartialSumsGrow(os, j, k - 1, window, now); }
  }

  /** The weighing loop: it fails exactly when the whole sum leaves 128 bits. */
  method WeighReadings(ordered: seq<Observation>, window: u32, now: int) returns (sums: Result<(u128, nat)>)
    requires ordered != []
    ensures var n, all := |ordered|, WeightedPrices(ordered, |ordered|, window, now);
      sums == if all <= U128_MAX then Ok((all, Weights(ordered, n, window, now))) else Err(MathOverflow)
  {
    var last, cutoff := |ordered| - 1, now - window;
    var weighted: u128, totalWeight: nat, i := 0, 0, 0;
    while i < |ordered|
      invariant 0 <= i <= |ordered|
      invariant totalWeight == Weights(ordered, i, window, now)
      invariant weighted == WeightedPrices(ordered, i, window, now)
    {
      var o := ordered[i];
      var until := if i < last then ordered[i + 1].timestamp else now;
      var lo, hi := MaxTime(o.timestamp, cutoff), MaxTime(until, cutoff);
      if i == last { hi := MaxTime(hi, lo + 1); }
      PartialSumsGrow(ordered, i + 1, |ordered|, window, now);
      assert Standing(ordered, i, window, now) == if hi <= lo then 0 else hi - lo;
      WeighAdds(weighted, totalWeight, o.price, lo, hi);
      hide Standing, Weigh;
      var next :- Weigh(weighted, totalWeight, o.price, lo, hi);
      weighted, totalWeight := next.0, next.1;
      i := i + 1;
    }
    return Ok((weighted, totalWeight));
  }

  lemma WeighAdds(weighted: u128, totalWeight: nat, price: u128, lo: int, hi: int)
    ensures var w: nat := if hi <= lo then 0 else hi - lo;
      Weigh(weighted, totalWeight, price, lo, hi)
        == if weighted + price * w <= U128_MAX then Ok((weighted + price * w, totalWeight + w)) else Err(MathOverflow)
  {
  }

  // ---------- in time ----------

  /** On readings in time the weighted average is the average over the seconds. */
  lemma TimeWeightedIsAverage(os: seq<Observation>, window: u32, now: int)
    requires os != [] && InTime(os, window, now)
    ensures TimeWeighted(os, window, now) == AveragePrice(os, window, now)
  {
    WalkBounds(os, window, now);
    WeightsAreSeconds(os, |os|, window, now);
    hide PriceSeconds, Reached, AverageFrom, AverageTo, InTime, Weights, WeightedPrices;
  }

  lemma {:induction false} WeightsAreSeconds(os: seq<Observation>, k: nat, window: u32, now: int)
    requires os != [] && k <= |os| && InTime(os, window, now)
    ensures var start, end := AverageFrom(os, window, now), Reached(os, k, now - window, now);
      Weights(os, k, window, now) == end - start && WeightedPrices(os, k, window, now) == PriceSeconds(os, start, end)
    decreases k
  {
    if k == 0 {
      WalkBounds(os, window, now);
    } else {
      WeightsAreSeconds(os, k - 1, window, now);
      StandsUntilReached(os, k - 1, window, now);
      ReadingStands(os, k - 1, window, now);
      hide PriceSeconds, Reached, AverageFrom, AverageTo, InTime, Standing;
    }
  }

  lemma StandsUntilReached(os: seq<Observation>, i: nat, window: u32, now: int)
    requires i < |os| && InTime(os, window, now)
    ensures Standing(os, i, window, now) == Reached(os, i + 1, now - window, now) - Reached(os, i, now - window, now)
  {
    TurnBounds(os, i, window, now);
    hide Reached, AverageFrom, AverageTo, InTime, MaxTime;
  }

  /** The second up to which the first `i` readings have been weighed. */
  function Reached(os: seq<Observation>, i: nat, cutoff: int, now: int): int
    requires os != []
  {
    if i < |os| then MaxTime(os[i].timestamp, cutoff) else AverageTo(os, now)
  }

  lemma WalkBounds(os: seq<Observation>, window: u32, now: int)
    requires os != [] && InTime(os, window, now)
    ensures Reached(os, 0, now - window, now) == AverageFrom(os, window, now) < AverageTo(os, now)
        == Reached(os, |os|, now - window, now)
    ensures PriceSeconds(os, AverageFrom(os, window, now), AverageFrom(os, window, now)) == 0
  {
    if |os| > 1 { assert os[0].timestamp < os[|os| - 1].timestamp; }
  }

  lemma TurnBounds(os: seq<Observation>, i: nat, window: u32, now: int)
    requires i < |os| && InTime(os, window, now)
    ensures var cutoff := now - window;
      var start, end := AverageFrom(os, window, now), AverageTo(os, now);
      var lo, next := Reached(os, i, cutoff, now), Reached(os, i + 1, cutoff, now);
      && lo == MaxTime(os[i].timestamp, cutoff)
      && next == (if i < |os| - 1 then MaxTime(os[i + 1].timestamp, cutoff) else MaxTime(MaxTime(now, cutoff), lo + 1))
      && start <= lo <= next <= end
      && (lo < next && i + 1 < |os| ==> next <= os[i + 1].timestamp)
  {
    assert i < |os| - 1 ==> os[i].timestamp < os[i + 1].timestamp;
    assert i < |os| - 2 ==> os[i + 1].timestamp < os[|os| - 1].timestamp;
    assert i > 0 ==> os[0].timestamp < os[i].timestamp;
  }

  /** One turn of the loop covers the seconds on which its reading stood. */
  lemma ReadingStands(os: seq<Observation>, i: nat, window: u32, now: int)
    requires i < |os| && InTime(os, window, now)
    ensures var start, end := AverageFrom(os, window, now), AverageTo(os, now);
      var lo, next := Reached(os, i, now - window, now), Reached(os, i + 1, now - window, now);
      && PriceSeconds(os, start, next) == PriceSeconds(os, start, lo) + os[i].price * (next - lo)
      && PriceSeconds(os, start, next) <= PriceSeconds(os, start, end)
  {
    TurnBounds(os, i, window, now);
    hide AverageFrom, AverageTo, Reached, PriceSeconds;
    var start, end := AverageFrom(os, window, now), AverageTo(os, now);
    var lo, next := Reached(os, i, now - window, now), Reached(os, i + 1, now - window, now);
    if next <= lo {
      SecondsGrow(os, start, next, end);
    } else {
      StandingPrice(os, i, start, lo, next, end);
    }
  }

  /** While observation `i` stands, every second adds its price; and no partial sum exceeds
      the whole. */
  lemma {:induction false} StandingPrice(os: seq<Observation>, i: nat, start: int, lo: int, hi: int, end: int)
    requires Increasing(os) && i < |os| && start <= lo <= hi <= end
    requires os[i].timestamp <= lo && (i + 1 < |os| ==> hi <= os[i + 1].timestamp)
    ensures PriceSeconds(os, start, hi) == PriceSeconds(os, start, lo) + os[i].price * (hi - lo)
    ensures PriceSeconds(os, start, hi) <= PriceSeconds(os, start, end)
  {
    SameStandingPrice(os, i, start, lo, hi);
    SecondsGrow(os, start, hi, end);
  }

  lemma {:induction false} PriceOfYoungest(os: seq<Observation>, i: nat, t: int)
    requires Increasing(os) && i < |os| && os[i].timestamp <= t && (i + 1 < |os| ==> t < os[i + 1].timestamp)
    ensures PriceAt(os, t) == os[i].price
  {
    if i + 1 < |os| {
      assert os[|os| - 1].timestamp > t;
      PriceOfYoungest(os[..|os| - 1], i, t);
    }
  }

  lemma {:induction false} SameStandingPrice(os: seq<Observation>, i: nat, start: int, lo: int, hi: int)
    requires Increasing(os) && i < |os| && start <= lo <= hi
    requires os[i].timestamp <= lo && (i + 1 < |os| ==> hi <= os[i + 1].timestamp)
    ensures PriceSeconds(os, start, hi) == PriceSeconds(os, start, lo) + os[i].price * (hi - lo)
    decreases hi - lo
  {
    if lo < hi {
      SameStandingPrice(os, i, start, lo, hi - 1);
      PriceOfYoungest(os, i, hi - 1);
      assert os[i].price * (hi - lo) == os[i].price * (hi - 1 - lo) + os[i].price;
    }
  }

  lemma {:induction false} SecondsGrow(os: seq<Observation>, start: int, hi: int, end: int)
    requires os != [] && hi <= end
    ensures PriceSeconds(os, start, hi) <= PriceSeconds(os, start, end)
    decreases end - hi
  {
    if hi < end { SecondsGrow(os, start, hi, end - 1); }
  }

  /** The average lies between the least and the greatest price that stood in the window. */
  lemma {:induction false} AverageBetween(os: seq<Observation>, window: u32, now: int, low: nat, high: nat)
    requires os != [] && InTime(os, window, now)
    requires forall t :: AverageFrom(os, window, now) <= t < AverageTo(os, now) ==> low <= PriceAt(os, t) <= high
    requires AveragePrice(os, window, now).Ok?
    ensures low <= AveragePrice(os, window, now).value <= high
  {
    var a, b := AverageFrom(os, window, now), AverageTo(os, now);
    SecondsBetween(os, a, b, low, high);
    QuotientBetween(PriceSeconds(os, a, b), b - a, low, high);
  }

  lemma QuotientBetween(n: nat, d: nat, low: nat, high: nat)
    requires d > 0 && low * d <= n <= high * d
    ensures low <= FloorDiv(n, d) <= high
  {
    hide FloorDiv;
    FloorIsLargest(low, n, d);
    FloorIsLargest(high + 1, n, d);
    assert (high + 1) * d == high * d + d;
  }

  lemma {:induction false} SecondsBetween(os: seq<Observation>, a: int, b: int, low: nat, high: nat)
    requires os != [] && a <= b && forall t :: a <= t < b ==> low <= PriceAt(os, t) <= high
    ensures low * (b - a) <= PriceSeconds(os, a, b) <= high * (b - a)
    decreases b - a
  {
    if a < b {
      SecondsBetween(os, a, b - 1, low, high);
      assert low * (b - a) == low * (b - 1 - a) + low && high * (b - a) == high * (b - 1 - a) + high;
    }
  }
}
