/** A refresh of a stake-pool oracle from the pool account up: what it sees, and what it makes
of it. */
module RateReading {
  import opened Wrappers
  import opened FixedPoint
  import opened Health
  import opened StakePool
  import opened MarketBreaker
  import opened RateBreaker
  import opened PinnedProgram
  import opened NativeSource
  import opened OracleAccount
  import opened OracleRuns

  /** The rate of a pool account now, gross and net of the higher fee, as a reference. */
  function Seen(p: PoolAccount, f: Refresh): Reference
    requires p.InForm() && FeesProper(p) && Priceable(p)
  {
    var fee, gross := HigherFee(p), EpochRate(p.totalLamports, p.poolTokenSupply);
    Reference(gross, NetRate(gross, fee), fee, p.lastUpdateEpoch, f.slot, f.now)
  }

  function HigherFee(p: PoolAccount): u16
    requires p.InForm() && FeesProper(p)
  {
    Max(BpsOf(p.StakeWithdrawalFee()), BpsOf(p.SolWithdrawalFee()))
  }

  predicate Priceable(p: PoolAccount)
    requires p.InForm() && FeesProper(p)
  {
    p.poolTokenSupply > 0 && EpochRate(p.totalLamports, p.poolTokenSupply) <= U128_MAX
    && NetRate(EpochRate(p.totalLamports, p.poolTokenSupply), HigherFee(p)) <= U128_MAX
  }

  /** The refresh is handed this pool account. */
  predicate Reads(s: Oracle, f: Refresh, p: PoolAccount)
    requires p.InForm()
  {
    s.config.source.kind == NativeExchangeRate && |f.reading.accounts| >= 2
    && Serialize(p) == f.reading.accounts[0].data
  }

  lemma ObservedIsSeen(s: Oracle, f: Refresh, p: PoolAccount)
    requires p.InForm() && FeesProper(p) && Reads(s, f, p) && Observed(s, f.reading, f.slot, f.now).Ok?
    ensures Priceable(p)
    ensures var o := Observed(s, f.reading, f.slot, f.now).value;
      && ReferenceOf(o) == Seen(p, f) && o.NeedsBootstrap()
      && IsPreviousRate(o.previousEpochRate, p.LastEpochLamports(), p.LastEpochSupply())
  {
    var g := Sighting(f.reading.accounts[0], f.reading.accounts[1], f.reading.address, f.slot, f.now);
    ObservedFields(g, s.Bounds());
    hide Observe, Serialize, PoolAccount.InForm, FeesProper, NetRate, EpochRate, IsEpochRate, IsPreviousRate, Parsed,
      BpsOf;
    ObservedRates(g, s.Bounds());
    ParseUndoesSerialize(p);
    var o := Observe(g, s.Bounds()).value;
    OneEpochRate(o.grossRate, p.totalLamports, p.poolTokenSupply);
  }

  lemma ObservedFields(g: Sighting, b: NativeBounds)
    requires Observe(g, b).Ok?
    ensures Observe(g, b).value.slot == g.slot && Observe(g, b).value.timestamp == g.now
  {
    hide ReadDeployment, VerifyMatchesPin, Parsed, GrossRate, ApplyWithdrawalFee, PreviousEpochRate;
  }

  // ---------- the verdict ----------

  /** The size of a move, floored; from nothing it counts as none. */
  function MoveOf(previous: nat, next: nat): (bps: nat)
    ensures if previous == 0 then bps == 0 else IsFloor(bps, Max(previous, next) - Min(previous, next), BPS, previous)
  {
    if previous == 0 then 0 else FloorDiv((Max(previous, next) - Min(previous, next)) * BPS, previous)
  }

  /** A move from `previous` by less than one basis point more than `allowed`. */
  predicate MovedWithin(previous: nat, next: nat, allowed: nat) {
    (Max(previous, next) - Min(previous, next)) * BPS < previous * (allowed + 1)
  }

  /** Basis points a move may make: those of its direction for each elapsed epoch, of which
      there is at least one and at most the configured number. */
  function Allowance(previous: nat, next: nat, epochs: nat, c: BreakerConfig): nat {
    (if next > previous then c.maxUpBpsPerEpoch else c.maxDownBpsPerEpoch) * epochs
  }

  function Epochs(before: nat, after: nat, c: BreakerConfig): nat {
    Min(if after <= before then 1 else after - before, c.maxEpochAllowance)
  }

  /** An emergency move: at least the emergency band. */
  predicate LeavesBand(previous: nat, next: nat, c: BreakerConfig) {
    (Max(previous, next) - Min(previous, next)) * BPS >= previous * c.emergencyDeviationBps
  }

  /** The state after an observation of `next` at `epoch`, against a reference. Only the two
      states of an accepted move that does not wait for a later epoch permit new risk. */
  function JudgedHealth(r: Reference, next: nat, epoch: nat, c: BreakerConfig, waiting: bool): OracleHealth {
    var epochs := Epochs(r.sourceEpoch, epoch, c);
    if LeavesBand(r.grossRate, next, c) then Emergency
    else if !MovedWithin(r.grossRate, next, Allowance(r.grossRate, next, epochs, c)) then
      if next > r.grossRate then BorrowFrozen else Emergency
    else if waiting && epoch <= r.sourceEpoch then Bootstrapping
    else if epochs >= STALE_EPOCHS_WARNING then RateWarning
    else Healthy
  }

  predicate JudgedTaken(r: Reference, next: nat, epoch: nat, c: BreakerConfig) {
    && !LeavesBand(r.grossRate, next, c)
    && MovedWithin(r.grossRate, next, Allowance(r.grossRate, next, Epochs(r.sourceEpoch, epoch, c), c))
  }

  /** The breaker's verdict against a reference. */
  lemma VerdictIsExact(r: Reference, o: PriceObservation, c: BreakerConfig, waiting: bool)
    requires r.IsSet() && r.grossRate > 0 && Evaluate(r, o, c, waiting).Ok?
    ensures var v := Evaluate(r, o, c, waiting).value;
      && (v.accept <==> JudgedTaken(r, o.grossRate, o.sourceEpoch, c))
      && v.health == JudgedHealth(r, o.grossRate, o.sourceEpoch, c, waiting)
      && v.movedBps == MoveOf(r.grossRate, o.grossRate)
  {
    var allowance := Allowance(r.grossRate, o.grossRate, Epochs(r.sourceEpoch, o.sourceEpoch, c), c);
    assert allowance == c.PerEpoch(o.grossRate > r.grossRate) * EpochsElapsed(r, o, c);
    MoveInside(r.grossRate, o.grossRate, c.emergencyDeviationBps);
    MoveInside(r.grossRate, o.grossRate, allowance + 1);
    hide FloorDiv, Allowance;
  }

  // ---------- refreshes ----------

  /** The account's first rate is taken when the pool has no previous epoch, or that one was
      worth nothing, or the rate moved from it by no more than an epoch allows. */
  predicate FirstIsTaken(p: PoolAccount, c: BreakerConfig)
    requires p.InForm() && p.poolTokenSupply > 0
  {
    p.LastEpochLamports() == 0 || p.LastEpochSupply() == 0
    || var previous, gross := EpochRate(p.LastEpochLamports(), p.LastEpochSupply()),
                              EpochRate(p.totalLamports, p.poolTokenSupply);
       previous == 0 || MovedWithin(previous, gross, Allowance(previous, gross, 1, c))
  }

  function FirstMove(p: PoolAccount): u64
    requires p.InForm() && p.poolTokenSupply > 0
  {
    if p.LastEpochLamports() == 0 || p.LastEpochSupply() == 0 then 0
    else Min(MoveOf(EpochRate(p.LastEpochLamports(), p.LastEpochSupply()),
                    EpochRate(p.totalLamports, p.poolTokenSupply)), U64_MAX)
  }

  lemma FirstVerdict(o: PriceObservation, c: BreakerConfig, lamports: nat, supply: nat)
    requires BootstrapVerdict(o, c).Ok? && IsPreviousRate(o.previousEpochRate, lamports, supply)
    ensures var v := BootstrapVerdict(o, c).value;
      && (v.accept <==>
          || lamports == 0 || supply == 0
          || var previous := EpochRate(lamports, supply);
             previous == 0 || MovedWithin(previous, o.grossRate, Allowance(previous, o.grossRate, 1, c)))
      && v.health == (if v.accept then Bootstrapping else Emergency)
      && v.movedBps == if lamports == 0 || supply == 0 then 0 else MoveOf(EpochRate(lamports, supply), o.grossRate)
  {
    BootstrapAcceptsIff(o, c);
    if o.previousEpochRate.Some? { OneEpochRate(o.previousEpochRate.value, lamports, supply); }
    hide MoveBps, EpochRate, IsEpochRate;
  }

  /** The first refresh of a stake-pool oracle, from the fields of the pool account: it is taken
      and waits for a later epoch, or is refused as an emergency. */
  lemma FirstRefreshIsExact(s: Oracle, f: Refresh, p: PoolAccount)
    requires p.InForm() && FeesProper(p) && Reads(s, f, p) && !s.reference.IsSet()
    requires Observed(s, f.reading, f.slot, f.now).Ok? && RefreshedOracle(s, f.reading, f.slot, f.now).Ok?
    ensures Priceable(p)
    ensures var t, taken := RefreshedOracle(s, f.reading, f.slot, f.now).value, FirstIsTaken(p, s.config.breaker);
      t == s.(lastRefreshSlot := f.slot, lastSourceEpoch := p.lastUpdateEpoch, lastMovedBps := FirstMove(p),
              health := if taken then Bootstrapping else Emergency,
              reference := if taken then Seen(p, f) else s.reference)
  {
    hide Observed, Serialize, PoolAccount.InForm, FeesProper, BootstrapVerdict, Seen, EpochRate, IsPreviousRate,
      MovedWithin, Allowance, MoveOf, PoolAccount.LastEpochLamports, PoolAccount.LastEpochSupply, Priceable;
    ObservedIsSeen(s, f, p);
    var o := Observed(s, f.reading, f.slot, f.now).value;
    FirstVerdict(o, s.config.breaker, p.LastEpochLamports(), p.LastEpochSupply());
    SeenFields(p, f);
  }

  lemma SeenFields(p: PoolAccount, f: Refresh)
    requires p.InForm() && FeesProper(p) && Priceable(p)
    ensures p.poolTokenSupply > 0 && Seen(p, f).grossRate == EpochRate(p.totalLamports, p.poolTokenSupply)
    ensures Seen(p, f).sourceEpoch == p.lastUpdateEpoch
  {
  }

  /** Every later refresh, likewise: the reference moves to what the account shows, or stays,
      and the state says which and why. */
  lemma LaterRefreshIsExact(s: Oracle, f: Refresh, p: PoolAccount)
    requires p.InForm() && FeesProper(p) && Reads(s, f, p) && Referenced(s)
    requires Observed(s, f.reading, f.slot, f.now).Ok? && RefreshedOracle(s, f.reading, f.slot, f.now).Ok?
    ensures Priceable(p)
    ensures var t, c, gross := RefreshedOracle(s, f.reading, f.slot, f.now).value, s.config.breaker,
                               EpochRate(p.totalLamports, p.poolTokenSupply);
      t == s.(lastRefreshSlot := f.slot, lastSourceEpoch := p.lastUpdateEpoch,
              lastMovedBps := Min(MoveOf(s.reference.grossRate, gross), U64_MAX),
              health := JudgedHealth(s.reference, gross, p.lastUpdateEpoch, c, s.health == Bootstrapping),
              reference := if JudgedTaken(s.reference, gross, p.lastUpdateEpoch, c) then Seen(p, f) else s.reference)
  {
    hide Observed, Serialize, PoolAccount.InForm, FeesProper, Evaluate, Seen, EpochRate, IsPreviousRate, JudgedHealth,
      JudgedTaken, Priceable, MoveOf;
    ObservedIsSeen(s, f, p);
    var o := Observed(s, f.reading, f.slot, f.now).value;
    VerdictIsExact(s.reference, o, s.config.breaker, s.health == Bootstrapping);
    SeenFields(p, f);
  }

  /** A refresh is handed the right accounts exactly when it needs none, or has two of which the
      first is the configured one: under its program, read-only and alive. */
  lemma RightAccountsIff(s: Oracle, r: Reading)
    ensures RightAccounts(s, r).Ok? <==>
      || s.config.source.kind == UnitOfAccount
      || (&& s.config.source.kind == NativeExchangeRate && |r.accounts| >= 2
          && r.accounts[0].key == s.config.source.account && r.accounts[0].owner == s.config.source.program
          && !r.accounts[0].writable && r.accounts[0].lamports > 0)
  {
  }

  /** An account that is not observable freezes the oracle and changes nothing else. */
  lemma UnobservableFreezes(s: Oracle, f: Refresh, d: Deployment, p: PoolAccount)
    requires p.InForm() && FeesProper(p) && Reads(s, f, p) && RightAccounts(s, f.reading).Ok?
    requires |f.reading.accounts[1].data| >= HEADER_LEN && Header(d) <= f.reading.accounts[1].data
    ensures var g := Sighting(f.reading.accounts[0], f.reading.accounts[1], f.reading.address, f.slot, f.now);
      && (Observed(s, f.reading, f.slot, f.now).Ok? <==> Observable(g, s.Bounds(), d, ViewOf(p)))
      && (!Observable(g, s.Bounds(), d, ViewOf(p)) ==>
            RefreshedOracle(s, f.reading, f.slot, f.now) == Ok(s.(health := Emergency, lastRefreshSlot := f.slot)))
  {
    hide Observe, Serialize, PoolAccount.InForm, FeesProper, Header, Observable, ViewOf, RightAccounts;
    ObservesIff(Sighting(f.reading.accounts[0], f.reading.accounts[1], f.reading.address, f.slot, f.now), s.Bounds(), d,
                p);
  }
}
