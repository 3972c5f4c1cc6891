/** The exchange-rate breaker (oracle/breaker.rs): how an observation is judged against the
last one accepted. */
module RateBreaker {
  import opened Wrappers
  import opened FixedPoint
  import opened Health
  import opened MarketBreaker

  const STALE_EPOCHS_WARNING: nat := 3

  datatype SourceKind = UnitOfAccount | NativeExchangeRate | MarketTwap

  datatype PriceObservation = PriceObservation(
    grossRate: u128, withdrawalFeeBps: u16, effectiveRate: u128, sourceEpoch: u64, slot: u64, timestamp: int,
    source: SourceKind, previousEpochRate: Option<u128>)
  {
    /** A constant needs no second opinion. */
    predicate NeedsBootstrap() { !source.UnitOfAccount? }
  }

  datatype BreakerConfig = BreakerConfig(
    maxUpBpsPerEpoch: u16, maxDownBpsPerEpoch: u16, emergencyDeviationBps: u16, maxEpochAllowance: u8)
  {
    predicate Valid() {
      && maxUpBpsPerEpoch <= emergencyDeviationBps <= BPS
      && maxDownBpsPerEpoch <= emergencyDeviationBps
      && maxEpochAllowance > 0
    }

    /** Basis points allowed per epoch in the direction of the move. */
    function PerEpoch(rising: bool): u16 { if rising then maxUpBpsPerEpoch else maxDownBpsPerEpoch }
  }

  /** The last accepted observation. */
  datatype Reference = Reference(
    grossRate: u128, effectiveRate: u128, withdrawalFeeBps: u16, sourceEpoch: u64, slot: u64, timestamp: int)
  {
    predicate IsSet() { effectiveRate > 0 }
  }

  const NO_REFERENCE := Reference(0, 0, 0, 0, 0, 0)

  datatype Verdict = Verdict(accept: bool, health: OracleHealth, movedBps: u128)

  /** Movement as basis points of `previous`, floored. */
  function MoveBps(previous: u128, next: u128): Result<u128> {
    if previous == 0 then Ok(0) else MulDivFloor(AbsDiff(previous, next), BPS, previous)
  }

  /** The first observation ever, against the source's own account of its previous epoch. */
  function BootstrapVerdict(o: PriceObservation, c: BreakerConfig): Result<Verdict> {
    if o.previousEpochRate.None? then Ok(Verdict(true, Bootstrapping, 0)) else
    var moved :- MoveBps(o.previousEpochRate.value, o.grossRate);
    if moved > c.PerEpoch(o.grossRate > o.previousEpochRate.value) then Ok(Verdict(false, Emergency, moved))
    else Ok(Verdict(true, Bootstrapping, moved))
  }

  /** Elapsed source epochs: at least one, at most the allowance. */
  function EpochsElapsed(r: Reference, o: PriceObservation, c: BreakerConfig): nat {
    Min(Max(SaturatingSub(o.sourceEpoch, r.sourceEpoch), 1), c.maxEpochAllowance)
  }

  function Evaluate(r: Reference, o: PriceObservation, c: BreakerConfig, wasBootstrapping: bool): Result<Verdict> {
    if !r.IsSet() then Ok(Verdict(true, Healthy, 0)) else
    var moved :- MoveBps(r.grossRate, o.grossRate);
    if moved >= c.emergencyDeviationBps then Ok(Verdict(false, Emergency, moved)) else
    var rising := o.grossRate > r.grossRate;
    var epochs := EpochsElapsed(r, o, c);
    if moved <= c.PerEpoch(rising) * epochs then
      if wasBootstrapping && o.sourceEpoch <= r.sourceEpoch then Ok(Verdict(true, Bootstrapping, moved))
      else Ok(Verdict(true, if epochs >= STALE_EPOCHS_WARNING then RateWarning else Healthy, moved))
    else Ok(Verdict(false, if rising then BorrowFrozen else Emergency, moved))
  }

  /** A floored movement below a bound is a move strictly inside it. */
  lemma MoveInside(previous: u128, next: u128, bound: nat)
    requires previous > 0 && MoveBps(previous, next).Ok?
    ensures MoveBps(previous, next).value < bound <==> AbsDiff(previous, next) * BPS < previous * bound
  {
    hide FloorDiv;
    FloorIsLargest(bound, AbsDiff(previous, next) * BPS, previous);
    assert bound * previous == previous * bound;
  }

  /** Every acceptance stays strictly inside the emergency band, and within the allowance of
      its direction times the clamped elapsed epochs, up to the floor's one basis point. */
  lemma AcceptedMoveIsBounded(r: Reference, o: PriceObservation, c: BreakerConfig, wasBootstrapping: bool)
    requires r.IsSet() && r.grossRate > 0 && c.Valid()
    requires Evaluate(r, o, c, wasBootstrapping).Ok? && Evaluate(r, o, c, wasBootstrapping).value.accept
    ensures r.grossRate * (BPS - c.emergencyDeviationBps) < o.grossRate * BPS
        < r.grossRate * (BPS + c.emergencyDeviationBps)
    ensures var allowance := c.PerEpoch(o.grossRate > r.grossRate) * EpochsElapsed(r, o, c);
      && (o.grossRate > r.grossRate ==> o.grossRate * BPS < r.grossRate * (BPS + allowance + 1))
      && (o.grossRate <= r.grossRate ==> r.grossRate * BPS < o.grossRate * BPS + r.grossRate * (allowance + 1))
  {
    var e, allowance, g := c.emergencyDeviationBps, c.PerEpoch(o.grossRate > r.grossRate) * EpochsElapsed(r, o, c),
      r.grossRate;
    hide MoveBps;
    MoveInside(g, o.grossRate, e);
    MoveInside(g, o.grossRate, allowance + 1);
    assert g * (BPS - e) == g * BPS - g * e && g * (BPS + e) == g * BPS + g * e;
    assert g * (BPS + allowance + 1) == g * BPS + g * (allowance + 1);
  }

  /** An observation is accepted exactly when its move is strictly inside the emergency band
      and within the clamped allowance of its direction, up to the floor's one basis point. */
  lemma AcceptsIff(r: Reference, o: PriceObservation, c: BreakerConfig, wasBootstrapping: bool)
    requires r.IsSet() && r.grossRate > 0 && Evaluate(r, o, c, wasBootstrapping).Ok?
    ensures var move, allowance := AbsDiff(r.grossRate, o.grossRate) * BPS,
                                   c.PerEpoch(o.grossRate > r.grossRate) * EpochsElapsed(r, o, c);
      Evaluate(r, o, c, wasBootstrapping).value.accept <==>
      move < r.grossRate * c.emergencyDeviationBps && move < r.grossRate * (allowance + 1)
  {
    var allowance := c.PerEpoch(o.grossRate > r.grossRate) * EpochsElapsed(r, o, c);
    MoveInside(r.grossRate, o.grossRate, c.emergencyDeviationBps);
    MoveInside(r.grossRate, o.grossRate, allowance + 1);
    hide MoveBps;
  }

  /** What an evaluation against a set reference may come to. */
  lemma HealthOfVerdict(r: Reference, o: PriceObservation, c: BreakerConfig, wasBootstrapping: bool)
    requires Evaluate(r, o, c, wasBootstrapping).Ok?
    ensures var v := Evaluate(r, o, c, wasBootstrapping).value;
      && (v.health.Permits(Borrow) <==> v.accept && !(r.IsSet() && wasBootstrapping && o.sourceEpoch <= r.sourceEpoch))
      && (v.health == Bootstrapping <==> v.accept && r.IsSet() && wasBootstrapping && o.sourceEpoch <= r.sourceEpoch)
      && (!r.IsSet() ==> v.accept)
  {
  }

  /** Moved by less than one basis point more than an epoch allows. */
  predicate WithinOneEpoch(previous: u128, next: u128, c: BreakerConfig) {
    previous == 0 || AbsDiff(previous, next) * BPS < previous * (c.PerEpoch(next > previous) + 1)
  }

  /** A first observation is taken exactly when the source has no previous epoch, or has moved
      from it by less than one basis point more than an epoch allows; it never permits new
      risk by itself. */
  lemma BootstrapAcceptsIff(o: PriceObservation, c: BreakerConfig)
    requires BootstrapVerdict(o, c).Ok?
    ensures var v := BootstrapVerdict(o, c).value;
      && !v.health.Permits(Borrow)
      && (v.accept <==> (o.previousEpochRate.None? || WithinOneEpoch(o.previousEpochRate.value, o.grossRate, c)))
  {
    hide MulDivFloor;
    if o.previousEpochRate.Some? && o.previousEpochRate.value > 0 {
      var previous := o.previousEpochRate.value;
      MoveInside(previous, o.grossRate, c.PerEpoch(o.grossRate > previous) + 1);
    }
  }
}
