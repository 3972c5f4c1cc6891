/** One observation from the stake pool (oracle/native_bcook.rs, oracle/mod.rs). */
module NativeSource {
  import opened Wrappers
  import opened FixedPoint
  import opened StakePool
  import opened RateBreaker
  import opened PinnedProgram

  /** What the oracle's configuration demands of its source. */
  datatype NativeBounds = NativeBounds(
    program: Pubkey, pool: Pubkey, poolMint: Pubkey, maxWithdrawalFeeBps: u16, rateFloor: u128, rateCeiling: u128,
      pin: Deployment)

  /** The worse of the two ways out. */
  function WithdrawalFeeBps(v: StakePoolView): u16 {
    if v.stakeWithdrawalFeeBps >= v.solWithdrawalFeeBps then v.stakeWithdrawalFeeBps else v.solWithdrawalFeeBps
  }

  function GrossRate(v: StakePoolView): Result<u128> {
    var _ :- Need(v.poolTokenSupply > 0, OracleZeroSupply);
    var _ :- Need(v.totalLamports > 0, OracleZeroBacking);
    MulDivFloor(v.totalLamports, SCALE, v.poolTokenSupply)
  }

  function PreviousEpochRate(v: StakePoolView): Result<Option<u128>> {
    if v.lastEpochPoolTokenSupply == 0 || v.lastEpochTotalLamports == 0 then Ok(None) else
    var rate :- MulDivFloor(v.lastEpochTotalLamports, SCALE, v.lastEpochPoolTokenSupply);
    Ok(Some(rate))
  }

  function ApplyWithdrawalFee(gross: u128, feeBps: u16): Result<u128> {
    var keep :- CheckedSub(BPS, feeBps);
    MulDivFloor(gross, keep, BPS)
  }

  /** The source account, the program's account at its derived address, and when. */
  datatype Sighting = Sighting(source: Account, programData: Account, address: Pubkey, slot: u64, now: int)

  /** The deployment first, then whose bytes they are, then the bytes, then policy. */
  function Observe(g: Sighting, b: NativeBounds): Result<PriceObservation> {
    var deployed :- ReadDeployment(g.programData, g.address);
    var _ :- VerifyMatchesPin(deployed, b.pin);
    var _ :- Need(g.source.key == b.pool, OracleAccountMismatch);
    var _ :- Need(g.source.owner == b.program, OracleOwnerMismatch);
    var v :- Parsed(g.source.data);
    var _ :- Need(v.poolMint == b.poolMint, OracleMintMismatch);
    var fee := WithdrawalFeeBps(v);
    var _ :- Need(fee <= b.maxWithdrawalFeeBps, OracleWithdrawalFeeTooHigh);
    var gross :- GrossRate(v);
    var effective :- ApplyWithdrawalFee(gross, fee);
    var _ :- Need(gross >= b.rateFloor, OracleRateBelowFloor);
    var _ :- Need(gross <= b.rateCeiling, OracleRateAboveCeiling);
    var _ :- Need(effective > 0, InvalidOraclePrice);
    var previous :- PreviousEpochRate(v);
    Ok(PriceObservation(gross, fee, effective, v.lastUpdateEpoch, g.slot, g.now, NativeExchangeRate, previous))
  }

  /** What is left of a rate after a fee, rounded down. */
  function NetRate(gross: nat, fee: nat): nat { FloorDiv(gross * SaturatingSub(BPS, fee), BPS) }

  /** The rate of one epoch: pool lamports for one pool token, scaled and floored. */
  predicate IsEpochRate(rate: nat, lamports: nat, supply: nat) { supply > 0 && IsFloor(rate, lamports, SCALE, supply) }

  /** The source's rate at the end of its previous epoch, if it reports both sides of it. */
  predicate IsPreviousRate(previous: Option<u128>, lamports: nat, supply: nat) {
    match previous
    case None => lamports == 0 || supply == 0
    case Some(rate) => lamports > 0 && IsEpochRate(rate, lamports, supply)
  }

  /** The rates of an observation, against the view it was read from. */
  ghost predicate RatesOf(o: PriceObservation, v: StakePoolView) {
    && o.sourceEpoch == v.lastUpdateEpoch
    && o.withdrawalFeeBps == Max(v.stakeWithdrawalFeeBps, v.solWithdrawalFeeBps) <= BPS
    && v.totalLamports > 0 && IsEpochRate(o.grossRate, v.totalLamports, v.poolTokenSupply)
    && o.effectiveRate == NetRate(o.grossRate, o.withdrawalFeeBps)
    && IsPreviousRate(o.previousEpochRate, v.lastEpochTotalLamports, v.lastEpochPoolTokenSupply)
  }

  /** Whose bytes an observation was read from. */
  ghost predicate Authentic(g: Sighting, b: NativeBounds) {
    && g.source.key == b.pool && g.source.owner == b.program
    && g.programData.key == g.address && g.programData.owner == LoaderKey()
    && exists d: Deployment :: Header(d) <= g.programData.data && VerifyMatchesPin(d, b.pin).Ok?
  }

  lemma ObservedIsAuthentic(g: Sighting, b: NativeBounds)
    requires Observe(g, b).Ok?
    ensures Authentic(g, b)
  {
    var d := ReadDeployment(g.programData, g.address).value;
    ReadsExactlyHeaders(g.programData, g.address, d);
    hide Header, Parsed, ReadDeployment, LoaderKey, GrossRate, PreviousEpochRate, ApplyWithdrawalFee;
  }

  lemma GrossIsEpochRate(v: StakePoolView)
    ensures GrossRate(v).Ok? <==> v.poolTokenSupply > 0 && v.totalLamports > 0
    ensures GrossRate(v).Ok? ==> IsEpochRate(GrossRate(v).value, v.totalLamports, v.poolTokenSupply)
  {
    hide FloorDiv;
    if v.poolTokenSupply > 0 { QuotientFits(v.totalLamports * SCALE, v.poolTokenSupply); }
  }

  lemma PreviousIsEpochRate(v: StakePoolView)
    ensures PreviousEpochRate(v).Ok?
    ensures IsPreviousRate(PreviousEpochRate(v).value, v.lastEpochTotalLamports, v.lastEpochPoolTokenSupply)
  {
    hide FloorDiv;
    if v.lastEpochPoolTokenSupply > 0 {
      QuotientFits(v.lastEpochTotalLamports * SCALE, v.lastEpochPoolTokenSupply);
    }
  }

  lemma ObservedRates(g: Sighting, b: NativeBounds)
    requires Observe(g, b).Ok?
    ensures Parsed(g.source.data).Ok? && Parsed(g.source.data).value.poolMint == b.poolMint
    ensures RatesOf(Observe(g, b).value, Parsed(g.source.data).value)
      && Observe(g, b).value.source == NativeExchangeRate
    ensures b.rateFloor <= Observe(g, b).value.grossRate <= b.rateCeiling && Observe(g, b).value.effectiveRate > 0
  {
    hide FloorDiv, Parsed, PreviousEpochRate, VerifyMatchesPin, ReadDeployment, GrossRate, IsPreviousRate, IsEpochRate;
    GrossIsEpochRate(Parsed(g.source.data).value);
    PreviousIsEpochRate(Parsed(g.source.data).value);
  }

  lemma NetOfFee(gross: nat, fee: nat, either: nat)
    requires either <= fee <= BPS
    ensures NetRate(gross, fee) * BPS <= gross * (BPS - either)
    ensures NetRate(gross, fee) <= gross
  {
    hide FloorDiv;
    MulMono(BPS - fee, BPS - either, gross);
    MulMono(BPS - fee, BPS, gross);
    FloorIsLargest(gross + 1, gross * (BPS - fee), BPS);
  }

  /** The observation values the account: its rate and the previous epoch's to the unit, and
      net of the higher of the two fees, so never above what a redeemer keeps. */
  ghost predicate Values(o: PriceObservation, p: PoolAccount)
    requires p.InForm() && FeesProper(p)
  {
    var stakeFee, solFee := BpsOf(p.StakeWithdrawalFee()), BpsOf(p.SolWithdrawalFee());
    && o.sourceEpoch == p.lastUpdateEpoch && 0 < o.effectiveRate <= o.grossRate && o.withdrawalFeeBps <= BPS
    && IsEpochRate(o.grossRate, p.totalLamports, p.poolTokenSupply)
    && stakeFee <= o.withdrawalFeeBps && solFee <= o.withdrawalFeeBps
    && (o.withdrawalFeeBps == stakeFee || o.withdrawalFeeBps == solFee)
    && IsFloor(o.effectiveRate, o.grossRate, BPS - o.withdrawalFeeBps, BPS)
    && o.effectiveRate * BPS <= o.grossRate * (BPS - stakeFee)
    && o.effectiveRate * BPS <= o.grossRate * (BPS - solFee)
    && IsPreviousRate(o.previousEpochRate, p.LastEpochLamports(), p.LastEpochSupply())
  }

  lemma ViewIsValued(o: PriceObservation, p: PoolAccount)
    requires p.InForm() && FeesProper(p) && RatesOf(o, ViewOf(p)) && o.effectiveRate > 0
    ensures Values(o, p)
  {
    hide PoolAccount.InForm, PoolAccount.StakeWithdrawalFee, PoolAccount.SolWithdrawalFee, BpsOf, FloorDiv,
      IsEpochRate, IsPreviousRate, PoolAccount.LastEpochLamports, PoolAccount.LastEpochSupply;
    NetOfFee(o.grossRate, o.withdrawalFeeBps, BpsOf(p.StakeWithdrawalFee()));
    NetOfFee(o.grossRate, o.withdrawalFeeBps, BpsOf(p.SolWithdrawalFee()));
  }

  /** Whatever is observed comes from the configured account, owned by the configured program
      under its pinned deployment, in form and of the priced asset; the gross rate lies in the
      band, and the effective rate never credits more than a redeemer keeps after either fee. */
  lemma ObservedIsBacked(g: Sighting, b: NativeBounds)
    requires Observe(g, b).Ok?
    ensures Authentic(g, b)
    ensures var o := Observe(g, b).value;
      b.rateFloor <= o.grossRate <= b.rateCeiling && 0 < o.effectiveRate <= o.grossRate
    ensures exists p: PoolAccount ::
      && p.InForm() && FeesProper(p) && Serialize(p) == g.source.data && p.poolMint == b.poolMint
      && Values(Observe(g, b).value, p)
  {
    ObservedIsAuthentic(g, b);
    ObservedRates(g, b);
    ParsesExactlyAccounts(g.source.data);
    hide PoolAccount.InForm, FeesProper, Serialize, Parsed, Observe, RatesOf, Authentic;
    var p: PoolAccount :| p.InForm() && FeesProper(p) && Serialize(p) == g.source.data;
    ParseUndoesSerialize(p);
    ViewIsValued(Observe(g, b).value, p);
  }

  function EpochRate(lamports: nat, supply: nat): (rate: nat)
    requires supply > 0
    ensures IsEpochRate(rate, lamports, supply)
  {
    FloorDiv(lamports * SCALE, supply)
  }

  /** What makes an account in form observable under the bounds: whose it is and which program
      deployed it, the asset and the fee, and a rate inside the band of which something is left. */
  predicate Observable(g: Sighting, b: NativeBounds, d: Deployment, v: StakePoolView) {
    var fee := Max(v.stakeWithdrawalFeeBps, v.solWithdrawalFeeBps);
    && g.programData.key == g.address && g.programData.owner == LoaderKey()
    && d.slot == b.pin.slot && (d.upgradeAuthority == b.pin.upgradeAuthority || d.upgradeAuthority == ZeroKey())
    && g.source.key == b.pool && g.source.owner == b.program && v.poolMint == b.poolMint
    && fee <= b.maxWithdrawalFeeBps && fee <= BPS && v.totalLamports > 0 && v.poolTokenSupply > 0
    && var gross := EpochRate(v.totalLamports, v.poolTokenSupply);
       b.rateFloor <= gross <= b.rateCeiling && gross * (BPS - fee) <= U128_MAX && NetRate(gross, fee) > 0
  }

  lemma OneEpochRate(q: nat, lamports: nat, supply: nat)
    requires IsEpochRate(q, lamports, supply)
    ensures q == EpochRate(lamports, supply)
  {
    FloorIsLargest(q, lamports * SCALE, supply);
    FloorIsLargest(q + 1, lamports * SCALE, supply);
    assert (q + 1) * supply == q * supply + supply;
  }

  lemma NetOfFeeIff(gross: u128, fee: u16)
    ensures ApplyWithdrawalFee(gross, fee).Ok? <==> fee <= BPS && gross * (BPS - fee) <= U128_MAX
    ensures ApplyWithdrawalFee(gross, fee).Ok? ==> ApplyWithdrawalFee(gross, fee).value == NetRate(gross, fee)
  {
    hide FloorDiv;
  }

  lemma ViewIsObservedIff(g: Sighting, b: NativeBounds, d: Deployment, v: StakePoolView)
    requires Parsed(g.source.data) == Ok(v)
    requires var read := ReadDeployment(g.programData, g.address);
      && (read.Ok? <==> g.programData.key == g.address && g.programData.owner == LoaderKey())
      && (read.Ok? ==> read.value == d)
    ensures Observe(g, b).Ok? <==> Observable(g, b, d, v)
  {
    hide LoaderKey, FloorDiv, Parsed, ReadDeployment, PreviousEpochRate, GrossRate, ApplyWithdrawalFee, IsEpochRate,
      NetRate, EpochRate, ZeroKey;
    GrossIsEpochRate(v);
    PreviousIsEpochRate(v);
    if GrossRate(v).Ok? {
      OneEpochRate(GrossRate(v).value, v.totalLamports, v.poolTokenSupply);
      NetOfFeeIff(GrossRate(v).value, WithdrawalFeeBps(v));
    }
  }

  /** An observation is made exactly of an observable account: one in form, with proper fees,
      under a program account that begins with a deployment's header. */
  lemma ObservesIff(g: Sighting, b: NativeBounds, d: Deployment, p: PoolAccount)
    requires p.InForm() && FeesProper(p) && Serialize(p) == g.source.data
    requires |g.programData.data| >= HEADER_LEN && Header(d) <= g.programData.data
    ensures Observe(g, b).Ok? <==> Observable(g, b, d, ViewOf(p))
  {
    hide Header, LoaderKey, Parsed, Observe, Observable, ViewOf, Serialize, PoolAccount.InForm, FeesProper;
    ParseUndoesSerialize(p);
    ReadsExactlyHeaders(g.programData, g.address, d);
    ReadsTheLoaders(g.programData, g.address);
    ViewIsObservedIff(g, b, d, ViewOf(p));
  }

  lemma ReadsTheLoaders(a: Account, address: Pubkey)
    ensures ReadDeployment(a, address).Ok? ==> a.key == address && a.owner == LoaderKey()
  {
    hide LoaderKey;
  }
}
