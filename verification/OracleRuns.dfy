/** The exchange-rate oracle over whole runs. */
module OracleRuns {
  import opened Wrappers
  import opened FixedPoint
  import opened Powers
  import opened Health
  import opened StakePool
  import opened MarketBreaker
  import opened RateBreaker
  import opened PinnedProgram
  import opened NativeSource
  import opened OracleAccount

  // ---------- every instruction, in any order ----------

  /** Everything that writes the account. The market refresh writes only market oracles, and
      may write anything there as far as this machine is concerned. */
  datatype OracleOp =
    | RefreshOp(reading: Reading, slot: u64, now: int)
    | ResetOp(reading: Reading, slot: u64, now: int)
    | ConfigureOp(mint: Pubkey, config: OracleConfig)
    | MarketOp(reference: Reference, health: OracleHealth, slot: u64)

  /** The account, and the last observation a source gave it. */
  datatype Watched = Watched(oracle: Oracle, lastRead: Option<PriceObservation>)

  function OracleStep(s: Oracle, op: OracleOp): Result<Oracle> {
    match op
    case RefreshOp(r, slot, now) => RefreshedOracle(s, r, slot, now)
    case ResetOp(r, slot, now) => ResetOracle(s, r, slot, now)
    case ConfigureOp(mint, config) => ConfiguredOracle(s, mint, config)
    case MarketOp(reference, health, slot) =>
      var _ :- Need(s.config.source.kind == MarketTwap, UnknownOracleSource);
      Ok(s.(reference := reference, health := health, lastRefreshSlot := slot))
  }

  /** What the operation read, if it read anything. */
  function ReadBy(s: Oracle, op: OracleOp): Option<PriceObservation> {
    if !(op.RefreshOp? || op.ResetOp?) then None else
    match Observed(s, op.reading, op.slot, op.now)
    case Ok(o) => Some(o)
    case Err(_) => None
  }

  function WatchStep(w: Watched, op: OracleOp): Watched {
    match OracleStep(w.oracle, op)
    case Err(_) => w
    case Ok(s) => Watched(s, if ReadBy(w.oracle, op).Some? then ReadBy(w.oracle, op) else w.lastRead)
  }

  function WatchRun(w: Watched, ops: seq<OracleOp>): Watched
    decreases ops
  {
    if ops == [] then w else WatchRun(WatchStep(w, ops[0]), ops[1..])
  }

  /** New risk is permitted only at the rate the source last reported. */
  predicate Anchored(w: Watched) {
    w.oracle.config.source.kind != MarketTwap ==>
      && (w.oracle.health.Permits(Borrow) || w.oracle.health.Permits(WithdrawCollateral) ==>
            w.oracle.reference.IsSet() && w.lastRead.Some? && w.oracle.reference == ReferenceOf(w.lastRead.value))
      && (w.oracle.health == Bootstrapping ==> w.oracle.reference.IsSet())
  }

  lemma ObservedIsPositive(s: Oracle, r: Reading, slot: u64, now: int)
    requires Observed(s, r, slot, now).Ok?
    ensures 0 < Observed(s, r, slot, now).value.effectiveRate <= Observed(s, r, slot, now).value.grossRate
  {
    if s.config.source.kind.NativeExchangeRate? {
      ObservedIsBacked(Sighting(r.accounts[0], r.accounts[1], r.address, slot, now), s.Bounds());
    }
  }

  /** A verdict that permits new risk accepts, and so does one that bootstraps. */
  lemma PermittingVerdictAccepts(s: Oracle, o: PriceObservation)
    requires Judged(s, o).Ok?
    ensures var v := Judged(s, o).value;
      && (v.health.Permits(Borrow) || v.health == Bootstrapping ==> v.accept)
      && (s.health == Bootstrapping && s.reference.IsSet() && v.health.Permits(Borrow)
          ==> o.sourceEpoch > s.reference.sourceEpoch)
  {
    hide MoveBps;
  }

  lemma WatchStepKeepsAnchored(w: Watched, op: OracleOp)
    requires Anchored(w)
    ensures Anchored(WatchStep(w, op))
  {
    hide Observed, Judged;
    if OracleStep(w.oracle, op).Ok? && (op.RefreshOp? || op.ResetOp?)
      && Observed(w.oracle, op.reading, op.slot, op.now).Ok? {
      var o := Observed(w.oracle, op.reading, op.slot, op.now).value;
      ObservedIsPositive(w.oracle, op.reading, op.slot, op.now);
      if op.RefreshOp? { PermittingVerdictAccepts(w.oracle, o); }
    }
  }

  lemma {:induction false} RunKeepsAnchored(w: Watched, ops: seq<OracleOp>)
    requires Anchored(w)
    ensures Anchored(WatchRun(w, ops))
    decreases ops
  {
    hide Anchored, WatchStep;
    if ops != [] {
      WatchStepKeepsAnchored(w, ops[0]);
      RunKeepsAnchored(WatchStep(w, ops[0]), ops[1..]);
    }
  }

  /** The account a first configuration leaves: nothing read, nothing permitted. */
  function Configured(mint: Pubkey, config: OracleConfig): Watched {
    Watched(Oracle(mint, config, NO_REFERENCE, BorrowFrozen, 0, 0, 0), None)
  }

  lemma ConfiguredIsAnchored(mint: Pubkey, config: OracleConfig)
    ensures Anchored(Configured(mint, config))
  {
  }

  /** In every reachable state of a unit or stake-pool oracle, whatever was refreshed, reset,
      reconfigured or written since its first configuration, a health that permits borrowing
      or withdrawing collateral means a reference that is set and is what the source last
      reported. */
  lemma ReachableIsAnchored(mint: Pubkey, config: OracleConfig, ops: seq<OracleOp>)
    ensures Anchored(WatchRun(Configured(mint, config), ops))
  {
    ConfiguredIsAnchored(mint, config);
    RunKeepsAnchored(Configured(mint, config), ops);
  }

  /** A refresh that steps straight out of bootstrapping into permitting new risk has read a
      strictly later source epoch. */
  lemma LaterEpochConfirms(w: Watched, r: Reading, slot: u64, now: int)
    requires Anchored(w) && w.oracle.health == Bootstrapping
    requires RefreshedOracle(w.oracle, r, slot, now).Ok?
      && RefreshedOracle(w.oracle, r, slot, now).value.health.Permits(Borrow)
    ensures Observed(w.oracle, r, slot, now).Ok?
    ensures Observed(w.oracle, r, slot, now).value.sourceEpoch > w.oracle.reference.sourceEpoch
  {
    hide Observed, Judged;
    if Observed(w.oracle, r, slot, now).Ok? {
      PermittingVerdictAccepts(w.oracle, Observed(w.oracle, r, slot, now).value);
    }
  }

  // ---------- runs of refreshes ----------

  datatype Refresh = Refresh(reading: Reading, slot: u64, now: int)

  /** The refresh moves the reference. */
  predicate Accepts(s: Oracle, f: Refresh) {
    var o := Observed(s, f.reading, f.slot, f.now);
    o.Ok? && Judged(s, o.value).Ok? && Judged(s, o.value).value.accept
  }

  function AfterRefresh(s: Oracle, f: Refresh): Oracle {
    match RefreshedOracle(s, f.reading, f.slot, f.now)
    case Ok(t) => t
    case Err(_) => s
  }

  function RefreshRun(s: Oracle, fs: seq<Refresh>): Oracle
    decreases fs
  {
    if fs == [] then s else RefreshRun(AfterRefresh(s, fs[0]), fs[1..])
  }

  function AcceptedIn(s: Oracle, fs: seq<Refresh>): nat
    decreases fs
  {
    if fs == [] then 0 else (if Accepts(s, fs[0]) then 1 else 0) + AcceptedIn(AfterRefresh(s, fs[0]), fs[1..])
  }

  /** A reference that is set, with the gross rate it was taken from. */
  predicate Referenced(s: Oracle) { s.reference.IsSet() && s.reference.grossRate > 0 }

  /** One refresh: refused and unreadable sources leave the reference, an accepted one moves
      it inside the emergency band. */
  lemma RefreshMovesWithinBand(s: Oracle, f: Refresh)
    requires Referenced(s) && s.config.breaker.Valid()
    ensures var t, e := AfterRefresh(s, f), s.config.breaker.emergencyDeviationBps;
      && t.config == s.config && t.mint == s.mint && Referenced(t)
      && (!Accepts(s, f) ==> t.reference == s.reference)
      && (Accepts(s, f) ==>
            s.reference.grossRate * (BPS - e) < t.reference.grossRate * BPS < s.reference.grossRate * (BPS + e))
  {
    hide Observed, Evaluate;
    if Accepts(s, f) {
      var o := Observed(s, f.reading, f.slot, f.now).value;
      ObservedIsPositive(s, f.reading, f.slot, f.now);
      AcceptedMoveIsBounded(s.reference, o, s.config.breaker, s.health == Bootstrapping);
      KindIsNotMarket(s, f);
    }
  }

  lemma KindIsNotMarket(s: Oracle, f: Refresh)
    requires Observed(s, f.reading, f.slot, f.now).Ok?
    ensures s.config.source.kind != MarketTwap
  {
  }

  /** Where n moves, each strictly inside the band `e`, can lead. */
  predicate InBand(first: nat, last: nat, e: nat, n: nat)
    requires e <= BPS
  {
    if n == 0 then last == first
    else first * Pow(BPS - e, n) < last * Pow(BPS, n) && last * Pow(BPS, n) < first * Pow(BPS + e, n)
  }

  /** The movement breaker over runs: n accepted refreshes keep the rate strictly within the
      n-th power of the emergency band, whatever else was refused or unreadable between. */
  lemma {:induction false} RunStaysInBand(s: Oracle, fs: seq<Refresh>)
    requires Referenced(s) && s.config.breaker.Valid()
    ensures s.config.breaker.emergencyDeviationBps <= BPS
    ensures var n, t := AcceptedIn(s, fs), RefreshRun(s, fs);
      && InBand(s.reference.grossRate, t.reference.grossRate, s.config.breaker.emergencyDeviationBps, n)
      && t.reference.grossRate > 0 && (n == 0 ==> t.reference == s.reference)
    decreases fs
  {
    assert s.reference.grossRate > 0 && s.config.breaker.emergencyDeviationBps <= BPS;
    hide AfterRefresh, Accepts, BreakerConfig.Valid, Referenced;
    if fs != [] {
      var t, rest := AfterRefresh(s, fs[0]), fs[1..];
      RefreshMovesWithinBand(s, fs[0]);
      hide InBand;
      RunStaysInBand(t, rest);
      if Accepts(s, fs[0]) {
        BandCompounds(s.reference.grossRate, t.reference.grossRate, RefreshRun(s, fs).reference.grossRate,
                      s.config.breaker.emergencyDeviationBps, AcceptedIn(t, rest));
      }
    }
  }

  lemma BandCompounds(first: nat, next: nat, last: nat, e: nat, n: nat)
    requires e <= BPS && last > 0
    requires first * (BPS - e) < next * BPS < first * (BPS + e) && InBand(next, last, e, n)
    ensures InBand(first, last, e, n + 1)
  {
    hide Pow;
    if n == 0 { PowZero(BPS - e); PowZero(BPS); PowZero(BPS + e); }
    LowerStep(first, next, last, BPS - e, BPS, n);
    UpperStep(first, next, last, BPS + e, BPS, n);
  }

  // ---------- when a refresh fails ----------

  /** What an observation is measured against: the reference, or failing that the source's own
      previous epoch. */
  function Anchor(s: Oracle, o: PriceObservation): Option<u128> {
    if s.reference.IsSet() then Some(s.reference.grossRate)
    else if o.NeedsBootstrap() then o.previousEpochRate
    else None
  }

  /** The movement is too large to be measured in 128 bits. */
  predicate Immeasurable(s: Oracle, o: PriceObservation) {
    var anchor := Anchor(s, o);
    anchor.Some? && anchor.value > 0 && AbsDiff(anchor.value, o.grossRate) * BPS > U128_MAX
  }

  /** A refresh fails exactly when it is handed the wrong source account or reads a movement
      too large to be measured. Everything else is recorded. */
  lemma RefreshFailsIff(s: Oracle, f: Refresh)
    ensures RefreshedOracle(s, f.reading, f.slot, f.now).Err? <==>
      || RightAccounts(s, f.reading).Err?
      || (Observed(s, f.reading, f.slot, f.now).Ok? && Immeasurable(s, Observed(s, f.reading, f.slot, f.now).value))
  {
    if Observed(s, f.reading, f.slot, f.now).Ok? {
      JudgedUnlessImmeasurable(s, Observed(s, f.reading, f.slot, f.now).value);
    }
    hide Observe, Judged, RequireSource;
  }

  /** Handed any other account for the program's, with the right source, a refresh does not
      fail: it records an emergency, and the next reading has to clear it. */
  lemma ForeignProgramFreezes(s: Oracle, f: Refresh)
    requires s.config.source.kind == NativeExchangeRate && RightAccounts(s, f.reading).Ok?
    requires f.reading.accounts[1].key != f.reading.address || f.reading.accounts[1].owner != LoaderKey()
    ensures RefreshedOracle(s, f.reading, f.slot, f.now) == Ok(s.(health := Emergency, lastRefreshSlot := f.slot))
  {
    hide Parsed, LoaderKey;
  }

  lemma JudgedUnlessImmeasurable(s: Oracle, o: PriceObservation)
    ensures Judged(s, o).Err? <==> Immeasurable(s, o)
  {
    hide MoveBps;
    if Anchor(s, o).Some? { MoveFails(Anchor(s, o).value, o.grossRate); }
  }

  lemma MoveFails(previous: u128, next: u128)
    ensures MoveBps(previous, next).Err? <==> previous > 0 && AbsDiff(previous, next) * BPS > U128_MAX
  {
    if previous > 0 { QuotientFits(Min(AbsDiff(previous, next) * BPS, U128_MAX), previous); }
  }

  // ---------- bootstrapping within one epoch ----------

  /** Everything readable in the run reports one source epoch. */
  ghost predicate OneEpoch(s: Oracle, fs: seq<Refresh>, epoch: u64)
    decreases fs
  {
    fs == [] || (
      && RefreshedOracle(s, fs[0].reading, fs[0].slot, fs[0].now).Ok?
      && (Observed(s, fs[0].reading, fs[0].slot, fs[0].now).Ok? ==>
            Observed(s, fs[0].reading, fs[0].slot, fs[0].now).value.sourceEpoch == epoch)
      && OneEpoch(AfterRefresh(s, fs[0]), fs[1..], epoch))
  }

  /** The run ends with an acceptance. */
  predicate EndsAccepted(s: Oracle, fs: seq<Refresh>)
    decreases fs
  {
    fs != [] && if |fs| == 1 then Accepts(s, fs[0]) else EndsAccepted(AfterRefresh(s, fs[0]), fs[1..])
  }

  /** Some refresh of the run was refused or unreadable. */
  predicate SomeNotAccepted(s: Oracle, fs: seq<Refresh>)
    decreases fs
  {
    fs != [] && (!Accepts(s, fs[0]) || SomeNotAccepted(AfterRefresh(s, fs[0]), fs[1..]))
  }

  /** One refresh in the reference's own epoch. */
  lemma SameEpochRefresh(s: Oracle, f: Refresh)
    requires Referenced(s) && s.config.breaker.Valid()
    requires OneEpoch(s, [f], s.reference.sourceEpoch)
    ensures var t := AfterRefresh(s, f);
      && Referenced(t) && t.config == s.config && t.reference.sourceEpoch == s.reference.sourceEpoch
      && (!Accepts(s, f) ==> !t.health.Permits(Borrow) && t.health != Bootstrapping)
      && (Accepts(s, f) ==> if s.health == Bootstrapping then t.health == Bootstrapping else t.health.Permits(Borrow))
  {
    RefreshMovesWithinBand(s, f);
    hide Observed, Evaluate;
    if Observed(s, f.reading, f.slot, f.now).Ok? {
      HealthOfVerdict(s.reference, Observed(s, f.reading, f.slot, f.now).value, s.config.breaker,
                      s.health == Bootstrapping);
    }
  }

  /** Within one epoch a bootstrapping oracle can come to permit new risk although no later
      epoch confirmed it, exactly when something was refused or unreadable on the way and the
      last refresh was accepted: the refusal overwrites the health that remembers. */
  lemma {:induction false} SameEpochEscapesIff(s: Oracle, fs: seq<Refresh>)
    requires Referenced(s) && s.config.breaker.Valid()
    requires OneEpoch(s, fs, s.reference.sourceEpoch) && fs != []
    ensures RefreshRun(s, fs).health.Permits(Borrow) <==>
      EndsAccepted(s, fs) && (s.health != Bootstrapping || SomeNotAccepted(s, fs))
    decreases fs
  {
    var t, rest := AfterRefresh(s, fs[0]), fs[1..];
    assert OneEpoch(s, [fs[0]], s.reference.sourceEpoch) by { assert [fs[0]][1..] == []; }
    SameEpochRefresh(s, fs[0]);
    hide AfterRefresh, Accepts, BreakerConfig.Valid, Observed, RefreshedOracle, Referenced;
    if rest != [] { SameEpochEscapesIff(t, rest); }
  }

  // ---------- reconfiguring and resetting ----------

  /** A change of source starts over: the reference is gone, nothing is permitted, and the
      first reading of a stake pool cannot permit new risk either. */
  lemma NewSourceStartsOver(s: Oracle, mint: Pubkey, c: OracleConfig, f: Refresh)
    requires ConfiguredOracle(s, mint, c).Ok? && s.config.source != c.source && c.source.kind == NativeExchangeRate
    ensures var t := ConfiguredOracle(s, mint, c).value;
      && !t.reference.IsSet() && !t.health.Permits(Borrow)
      && !AfterRefresh(t, f).health.Permits(Borrow)
      && (Accepts(t, f) <==> AfterRefresh(t, f).reference.IsSet())
  {
    var t := ConfiguredOracle(s, mint, c).value;
    hide Observed, MoveBps;
    if Observed(t, f.reading, f.slot, f.now).Ok? {
      ObservedIsPositive(t, f.reading, f.slot, f.now);
      NativeNeedsBootstrap(t, f);
    }
  }

  lemma NativeNeedsBootstrap(s: Oracle, f: Refresh)
    requires s.config.source.kind == NativeExchangeRate && Observed(s, f.reading, f.slot, f.now).Ok?
    ensures Observed(s, f.reading, f.slot, f.now).value.NeedsBootstrap()
  {
    hide Observe, RatesOf;
    var r := f.reading;
    ObservedRates(Sighting(r.accounts[0], r.accounts[1], r.address, f.slot, f.now), s.Bounds());
  }

  lemma SameSourceKeepsReference(s: Oracle, mint: Pubkey, c: OracleConfig)
    requires ConfiguredOracle(s, mint, c).Ok? && s.config.source == c.source
    ensures var t := ConfiguredOracle(s, mint, c).value;
      t.reference == s.reference && t.config == c && t.health == BorrowFrozen && t.lastRefreshSlot == 0
  {
  }

  /** Reconfiguring with the same source is no way around the breaker: nothing is permitted
      until a refresh, and that moves the reference inside the new emergency band or not at
      all. */
  lemma ReconfiguringKeepsTheBand(s: Oracle, mint: Pubkey, c: OracleConfig, f: Refresh)
    requires Referenced(s) && ConfiguredOracle(s, mint, c).Ok? && s.config.source == c.source
    ensures var t, e := ConfiguredOracle(s, mint, c).value, c.breaker.emergencyDeviationBps;
      var before, after := s.reference.grossRate, AfterRefresh(t, f).reference.grossRate;
      && !t.health.Permits(Borrow)
      && if Accepts(t, f) then before * (BPS - e) < after * BPS < before * (BPS + e)
         else AfterRefresh(t, f).reference == s.reference
  {
    SameSourceKeepsReference(s, mint, c);
    assert c.breaker.Valid();
    hide ConfiguredOracle, AfterRefresh, Accepts, BreakerConfig.Valid;
    RefreshMovesWithinBand(ConfiguredOracle(s, mint, c).value, f);
  }

  /** A reset anchors to what the source says now, inside its absolute band, or fails. */
  lemma ResetAnchorsToSource(s: Oracle, f: Refresh)
    ensures ResetOracle(s, f.reading, f.slot, f.now).Ok? <==> Observed(s, f.reading, f.slot, f.now).Ok?
    ensures ResetOracle(s, f.reading, f.slot, f.now).Ok? ==>
      var o, t := Observed(s, f.reading, f.slot, f.now).value, ResetOracle(s, f.reading, f.slot, f.now).value;
      && t.reference == ReferenceOf(o) && t.reference.IsSet() && t.health == Healthy
      && (s.config.source.kind == NativeExchangeRate
          ==> s.config.rateFloor <= t.reference.grossRate <= s.config.rateCeiling)
  {
    if Observed(s, f.reading, f.slot, f.now).Ok? {
      ObservedIsPositive(s, f.reading, f.slot, f.now);
      if s.config.source.kind == NativeExchangeRate {
        ObservedIsBacked(Sighting(f.reading.accounts[0], f.reading.accounts[1], f.reading.address, f.slot, f.now),
                         s.Bounds());
      }
    }
    hide Observe;
  }

  /** A refused or unreadable source stops new risk and leaves liquidation on the last price
      that was trusted. */
  lemma RefusalHoldsLastPrice(s: Oracle, f: Refresh)
    requires Referenced(s) && !Accepts(s, f) && RefreshedOracle(s, f.reading, f.slot, f.now).Ok?
    ensures var q := AfterRefresh(s, f).AsQuote();
      && q.PriceFor(Liquidate, f.slot) == Ok(s.reference.effectiveRate)
      && q.PriceFor(Borrow, f.slot).Err? && q.PriceFor(WithdrawCollateral, f.slot).Err?
  {
    hide Observed, Judged;
    if Observed(s, f.reading, f.slot, f.now).Ok? {
      PermittingVerdictAccepts(s, Observed(s, f.reading, f.slot, f.now).value);
    }
  }
}
