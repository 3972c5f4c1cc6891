/** The oracle account and the instructions that write it (state/oracle.rs,
instructions/refresh_oracle.rs, instructions/admin/init_oracle.rs).

`Oracle` is the account's value; `OracleState` is the account updated in place. */
module OracleAccount {
  import opened Wrappers
  import opened FixedPoint
  import opened Health
  import opened StakePool
  import opened RateBreaker
  import opened PinnedProgram
  import opened NativeSource

  /** Which source is read, and under which deployment of its program. */
  datatype Source = Source(kind: SourceKind, program: Pubkey, account: Pubkey, pin: Deployment)

  datatype OracleConfig = OracleConfig(
    source: Source, maxWithdrawalFeeBps: u16, rateFloor: u128, rateCeiling: u128, breaker: BreakerConfig)
  {
    predicate Valid() {
      && maxWithdrawalFeeBps < BPS && 0 < rateFloor <= rateCeiling && breaker.Valid()
      && match source.kind
         case MarketTwap => source.program == ZeroKey() && source.account == ZeroKey()
         case UnitOfAccount => source.program == ZeroKey() && source.account == ZeroKey()
           && rateFloor <= SCALE <= rateCeiling
         case NativeExchangeRate => source.program != ZeroKey() && source.account != ZeroKey()
    }
  }

  datatype Oracle = Oracle(
    mint: Pubkey, config: OracleConfig, reference: Reference, health: OracleHealth,
    lastMovedBps: u64, lastRefreshSlot: u64, lastSourceEpoch: u64)
  {
    function Bounds(): NativeBounds {
      NativeBounds(config.source.program, config.source.account, mint, config.maxWithdrawalFeeBps, config.rateFloor,
                   config.rateCeiling, config.source.pin)
    }

    /** What a lending handler reads. */
    function AsQuote(): Quote { Quote(lastRefreshSlot, reference.effectiveRate, health) }
  }

  /** The accounts handed to a refresh, the source and its program's, and the address that the
      loader derives for the latter. */
  datatype Reading = Reading(accounts: seq<Account>, address: Pubkey)

  function UnitObservation(slot: u64, now: int): PriceObservation {
    PriceObservation(SCALE, 0, SCALE, 0, slot, now, UnitOfAccount, Some(SCALE))
  }

  function ReferenceOf(o: PriceObservation): Reference {
    Reference(o.grossRate, o.effectiveRate, o.withdrawalFeeBps, o.sourceEpoch, o.slot, o.timestamp)
  }

  /** The diagnostics always follow the observation; the reference only an accepted one. */
  function Recorded(s: Oracle, o: PriceObservation, v: Verdict, slot: u64): Oracle {
    s.(lastRefreshSlot := slot, lastSourceEpoch := o.sourceEpoch, lastMovedBps := Min(v.movedBps, U64_MAX),
       health := v.health,
       reference := if v.accept then ReferenceOf(o) else s.reference)
  }

  /** Being handed the wrong source account is the caller's error. */
  function RightAccounts(s: Oracle, r: Reading): Result<()> {
    match s.config.source.kind
    case UnitOfAccount => Ok(())
    case MarketTwap => Err(UnknownOracleSource)
    case NativeExchangeRate =>
      var _ :- Need(|r.accounts| >= 1, OracleAccountMismatch);
      var _ :- Need(|r.accounts| >= 2, OracleProgramDataMismatch);
      RequireSource(r.accounts[0], s.config.source.account, s.config.source.program)
  }

  /** What is observed; an error is a source that read badly. */
  function Observed(s: Oracle, r: Reading, slot: u64, now: int): Result<PriceObservation> {
    var _ :- RightAccounts(s, r);
    if s.config.source.kind.UnitOfAccount? then Ok(UnitObservation(slot, now))
    else Observe(Sighting(r.accounts[0], r.accounts[1], r.address, slot, now), s.Bounds())
  }

  function Judged(s: Oracle, o: PriceObservation): Result<Verdict> {
    if !s.reference.IsSet() && o.NeedsBootstrap() then BootstrapVerdict(o, s.config.breaker)
    else Evaluate(s.reference, o, s.config.breaker, s.health == Bootstrapping)
  }

  /** refresh_oracle: a bad read of the right account is recorded as an emergency and does not
      fail. */
  function RefreshedOracle(s: Oracle, r: Reading, slot: u64, now: int): Result<Oracle> {
    var _ :- RightAccounts(s, r);
    match Observed(s, r, slot, now)
    case Err(_) => Ok(s.(health := Emergency, lastRefreshSlot := slot))
    case Ok(o) =>
      var v :- Judged(s, o);
      Ok(Recorded(s, o, v, slot))
  }

  /** reset_oracle_breaker: re-anchors to what the source says, and fails if it says nothing. */
  function ResetOracle(s: Oracle, r: Reading, slot: u64, now: int): Result<Oracle> {
    var o :- Observed(s, r, slot, now);
    Ok(Recorded(s, o, Verdict(true, Healthy, 0), slot))
  }

  /** set_oracle: a change of source clears the reference; any reconfiguration freezes. */
  function ConfiguredOracle(s: Oracle, mint: Pubkey, c: OracleConfig): Result<Oracle> {
    var _ :- Need(c.Valid(), InvalidOracleConfig);
    var changed := s.config.source != c.source;
    Ok(Oracle(mint, c, if changed then NO_REFERENCE else s.reference, BorrowFrozen,
              if changed then 0 else s.lastMovedBps, 0, if changed then 0 else s.lastSourceEpoch))
  }

  /** The account, updated in place. */
  class OracleState {
    var mint: Pubkey
    var config: OracleConfig
    var reference: Reference
    var health: OracleHealth
    var lastMovedBps: u64
    var lastRefreshSlot: u64
    var lastSourceEpoch: u64

    /** A freshly configured account has read nothing. */
    constructor (mint: Pubkey, config: OracleConfig)
      ensures State() == Oracle(mint, config, NO_REFERENCE, BorrowFrozen, 0, 0, 0)
    {
      this.mint, this.config, reference, health := mint, config, NO_REFERENCE, BorrowFrozen;
      lastMovedBps, lastRefreshSlot, lastSourceEpoch := 0, 0, 0;
    }

    function State(): Oracle
      reads this
    {
      Oracle(mint, config, reference, health, lastMovedBps, lastRefreshSlot, lastSourceEpoch)
    }

    method Record(o: PriceObservation, v: Verdict, slot: u64)
      modifies this
      ensures State() == Recorded(old(State()), o, v, slot)
    {
      lastRefreshSlot := slot;
      lastSourceEpoch := o.sourceEpoch;
      lastMovedBps := Min(v.movedBps, U64_MAX);
      health := v.health;
      if v.accept {
        reference := Reference(o.grossRate, o.effectiveRate, o.withdrawalFeeBps, o.sourceEpoch, o.slot, o.timestamp);
      }
    }

    method Refresh(r: Reading, slot: u64, now: int) returns (outcome: Result<()>)
      modifies this
      ensures match RefreshedOracle(old(State()), r, slot, now)
        case Ok(s) => outcome.Ok? && State() == s
        case Err(e) => outcome == Err(e) && State() == old(State())
    {
      hide Observe, Evaluate, BootstrapVerdict;
      var _ :- RightAccounts(State(), r);
      var observed := Observed(State(), r, slot, now);
      if observed.Err? {
        health := Emergency;
        lastRefreshSlot := slot;
        return Ok(());
      }
      var verdict :- Judged(State(), observed.value);
      Record(observed.value, verdict, slot);
      return Ok(());
    }

    method Reset(r: Reading, slot: u64, now: int) returns (outcome: Result<()>)
      modifies this
      ensures match ResetOracle(old(State()), r, slot, now)
        case Ok(s) => outcome.Ok? && State() == s
        case Err(e) => outcome == Err(e) && State() == old(State())
    {
      hide Observe;
      var observation :- Observed(State(), r, slot, now);
      Record(observation, Verdict(true, Healthy, 0), slot);
      return Ok(());
    }

    method Configure(newMint: Pubkey, newConfig: OracleConfig) returns (outcome: Result<()>)
      modifies this
      ensures match ConfiguredOracle(old(State()), newMint, newConfig)
        case Ok(s) => outcome.Ok? && State() == s
        case Err(e) => outcome == Err(e) && State() == old(State())
    {
      var _ :- Need(newConfig.Valid(), InvalidOracleConfig);
      var sourceChanged := config.source != newConfig.source;
      mint, config := newMint, newConfig;
      if sourceChanged {
        reference := NO_REFERENCE;
        lastMovedBps := 0;
        lastSourceEpoch := 0;
      }
      health := BorrowFrozen;
      lastRefreshSlot := 0;
      return Ok(());
    }
  }
}
