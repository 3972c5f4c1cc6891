/** Concrete readings of a newly configured rate oracle: one that comes to permit borrowing
within one source epoch, and one that fails where it should be recorded. */
module BootstrapEscape {
  import opened Wrappers
  import opened FixedPoint
  import opened Health
  import opened Bytes
  import opened StakePool
  import opened RateBreaker
  import opened PinnedProgram
  import opened NativeSource
  import opened OracleAccount
  import opened OracleRuns

  function SomeKey(): Pubkey { [1] + Zeros(31) }

  const FREE := Fee(0, 0)

  /** A pool at parity that charges nothing; `supply` and `lamports` are its previous epoch's,
      zero if it has completed none. */
  function Pool(supply: u64, lamports: u64): PoolAccount {
    PoolAccount(
    Zeros(161), ZeroKey(), ZeroKey(), ZeroKey(), 1, 1, 7, Zeros(64),
    [NoFee, NoKey, NoKey, FeeField(FREE), FeeField(FREE), NoFee, ByteField(0), NoKey,
     FeeField(FREE), ByteField(0), NoKey, FeeField(FREE), NoFee, AmountField(supply), AmountField(lamports)],
    Zeros(176))
  }

  lemma HeadLengths(supply: u64, lamports: u64)
    ensures |Pool(supply, lamports).Parts()| == 25 && Lengths(Pool(supply, lamports).Parts(), 9) == OFF_VARIABLE
  {
    var parts := Pool(supply, lamports).Parts();
    hide Concat, LeBytes, Field.Bytes;
    assert Lengths(parts, 1) == 1 && Lengths(parts, 2) == 162 && Lengths(parts, 3) == 194 && Lengths(parts, 4) == 226;
    assert Lengths(parts, 5) == 258 && Lengths(parts, 6) == 266 && Lengths(parts, 7) == 274 && Lengths(parts, 8) == 282;
    assert Lengths(parts, 9) == 346;
  }

  lemma TailLengths(supply: u64, lamports: u64)
    ensures |Pool(supply, lamports).Parts()| == 25 && Lengths(Pool(supply, lamports).Parts(), 25) == STAKE_POOL_LEN
  {
    var parts := Pool(supply, lamports).Parts();
    HeadLengths(supply, lamports);
    TailPartLengths(supply, lamports);
    hide Concat, LeBytes, Field.Bytes, PoolAccount.Parts;
    assert Lengths(parts, 10) == 347 && Lengths(parts, 11) == 348 && Lengths(parts, 12) == 349
      && Lengths(parts, 13) == 365;
    assert Lengths(parts, 14) == 381 && Lengths(parts, 15) == 382 && Lengths(parts, 16) == 383
      && Lengths(parts, 17) == 384;
    assert Lengths(parts, 18) == 400 && Lengths(parts, 19) == 401 && Lengths(parts, 20) == 402
      && Lengths(parts, 21) == 418;
    assert Lengths(parts, 22) == 419 && Lengths(parts, 23) == 427 && Lengths(parts, 24) == 435
      && Lengths(parts, 25) == 611;
  }

  lemma PartsAfterHead(p: PoolAccount)
    requires |p.tail| == TAIL_FIELDS
    ensures |p.Parts()| == 25 && p.Parts()[24] == p.padding
    ensures forall i :: 0 <= i < TAIL_FIELDS ==> p.Parts()[HEAD_PARTS + i] == p.tail[i].Bytes()
  {
    hide Field.Bytes, LeBytes;
  }

  lemma TailPartLengths(supply: u64, lamports: u64)
    ensures |Pool(supply, lamports).Parts()| == 25
    ensures var parts := Pool(supply, lamports).Parts();
      && |parts[9]| == 1 && |parts[10]| == 1 && |parts[11]| == 1 && |parts[12]| == 16 && |parts[13]| == 16
      && |parts[14]| == 1 && |parts[15]| == 1 && |parts[16]| == 1 && |parts[17]| == 16 && |parts[18]| == 1
      && |parts[19]| == 1 && |parts[20]| == 16 && |parts[21]| == 1 && |parts[22]| == 8 && |parts[23]| == 8
      && |parts[24]| == 176
  {
    PartsAfterHead(Pool(supply, lamports));
    hide Concat, LeBytes, Zeros, PoolAccount.Parts, Fee.Bytes;
    var t, parts := Pool(supply, lamports).tail, Pool(supply, lamports).Parts();
    assert parts[9 + 0] == t[0].Bytes() && parts[9 + 1] == t[1].Bytes() && parts[9 + 2] == t[2].Bytes()
      && parts[9 + 3] == t[3].Bytes();
    assert parts[9 + 4] == t[4].Bytes() && parts[9 + 5] == t[5].Bytes() && parts[9 + 6] == t[6].Bytes()
      && parts[9 + 7] == t[7].Bytes();
    assert parts[9 + 8] == t[8].Bytes() && parts[9 + 9] == t[9].Bytes() && parts[9 + 10] == t[10].Bytes()
      && parts[9 + 11] == t[11].Bytes();
    assert parts[9 + 12] == t[12].Bytes() && parts[9 + 13] == t[13].Bytes() && parts[9 + 14] == t[14].Bytes();
  }

  lemma PoolFits(supply: u64, lamports: u64)
    ensures forall i :: 0 <= i < TAIL_FIELDS ==> Pool(supply, lamports).tail[i].Fits(KindAt(i))
  {
  }

  lemma PoolInForm(supply: u64, lamports: u64)
    ensures Pool(supply, lamports).InForm() && FeesProper(Pool(supply, lamports))
  {
    hide Concat, Lengths, PoolAccount.Parts, KindAt, Field.Fits, Zeros;
    var parts := Pool(supply, lamports).Parts();
    TailLengths(supply, lamports);
    LengthsAdd(parts, 25);
    assert parts[..25] == parts;
    PoolFits(supply, lamports);
  }

  function Lengths(parts: seq<Blob>, n: nat): nat
    requires n <= |parts|
  {
    if n == 0 then 0 else Lengths(parts, n - 1) + |parts[n - 1]|
  }

  lemma {:induction false} LengthsAdd(parts: seq<Blob>, n: nat)
    requires n <= |parts|
    ensures |Concat(parts[..n])| == Lengths(parts, n)
  {
    if n > 0 {
      LengthsAdd(parts, n - 1);
      NextOffset(parts, n - 1);
    }
  }

  function Pin(): Deployment { Deployment(5, SomeKey()) }

  function Terms(): OracleConfig {
    OracleConfig(Source(NativeExchangeRate, SomeKey(), SomeKey(), Pin()), 500, 1, 10 * SCALE,
                 BreakerConfig(200, 100, 1_000, 10))
  }

  /** As first configured: nothing read. */
  function Unread(): Oracle { Configured(ZeroKey(), Terms()).oracle }

  /** After its first reading, of a pool that has completed no epoch. */
  function Bootstrapped(): Oracle {
    Oracle(ZeroKey(), Terms(), Reference(SCALE, SCALE, 0, 7, 3, 3), Bootstrapping, 0, 3, 7)
  }

  /** The source, holding `data`. */
  function SourceOf(data: Blob): Account { Account(SomeKey(), SomeKey(), false, 1, data) }

  /** The source and its program's account. */
  function Handed(data: Blob): Reading {
    Reading([SourceOf(data), Account(ZeroKey(), LoaderKey(), false, 1, Header(Pin()))], ZeroKey())
  }

  /** The source once more in place of its program's account. */
  function Misled(data: Blob): Reading { Reading([SourceOf(data), SourceOf(data)], ZeroKey()) }

  lemma KeysDiffer()
    ensures SomeKey() != ZeroKey() && Terms().Valid()
  {
    assert SomeKey()[0] != ZeroKey()[0];
  }

  lemma PoolView(supply: u64, lamports: u64)
    ensures Pool(supply, lamports).InForm() && FeesProper(Pool(supply, lamports))
    ensures var v := ViewOf(Pool(supply, lamports));
      && v.poolMint == ZeroKey() && v.totalLamports == 1 && v.poolTokenSupply == 1 && v.lastUpdateEpoch == 7
      && v.stakeWithdrawalFeeBps == 0 && v.solWithdrawalFeeBps == 0
      && v.lastEpochPoolTokenSupply == supply && v.lastEpochTotalLamports == lamports
  {
    PoolInForm(supply, lamports);
    hide ZeroKey, Zeros, PoolAccount.InForm;
  }

  lemma HandedReads(data: Blob)
    ensures RightAccounts(Unread(), Handed(data)).Ok?
    ensures ReadDeployment(Handed(data).accounts[1], ZeroKey()) == Ok(Pin())
  {
    KeysDiffer();
    hide LoaderKey, SomeKey, ZeroKey, LeBytes;
    ReadsExactlyHeaders(Handed(data).accounts[1], ZeroKey(), Pin());
  }

  lemma PoolRates(v: StakePoolView)
    requires v.totalLamports == 1 && v.poolTokenSupply == 1 && v.lastEpochPoolTokenSupply <= 1
    ensures GrossRate(v) == Ok(SCALE) && ApplyWithdrawalFee(SCALE, 0) == Ok(SCALE)
    ensures var supply, lamports := v.lastEpochPoolTokenSupply, v.lastEpochTotalLamports;
      PreviousEpochRate(v) == Ok(if supply == 0 || lamports == 0 then None else Some(lamports * SCALE))
  {
  }

  lemma PoolReads(supply: u64, lamports: u64, s: Oracle, slot: u64, now: int)
    requires s.config == Terms() && s.mint == ZeroKey() && supply <= 1
    ensures Observed(s, Handed(Serialize(Pool(supply, lamports))), slot, now)
         == Ok(PriceObservation(SCALE, 0, SCALE, 7, slot, now, NativeExchangeRate,
                                if supply == 0 || lamports == 0 then None else Some(lamports * SCALE)))
  {
    hide Pool, Serialize, Parsed, PoolAccount.InForm, FeesProper, ViewOf, ZeroKey, SomeKey, ReadDeployment, Header,
      LoaderKey;
    PoolView(supply, lamports);
    ParseUndoesSerialize(Pool(supply, lamports));
    HandedReads(Serialize(Pool(supply, lamports)));
    PoolRates(ViewOf(Pool(supply, lamports)));
    hide GrossRate, ApplyWithdrawalFee, PreviousEpochRate;
  }

  /** Read twice in epoch 7 a newly configured oracle keeps bootstrapping, as meant. With a
      refresh between that was handed the wrong account for the program's, the second reading
      permits borrowing. */
  lemma EscapesWithinOneEpoch()
    ensures Terms().Valid()
    ensures var data, s := Serialize(Pool(0, 0)), Unread();
      var first, bad, good := Refresh(Handed(data), 3, 3), Refresh(Misled(data), 7, 7), Refresh(Handed(data), 8, 8);
      && RefreshRun(s, [first, good]).health == Bootstrapping
      && RefreshRun(s, [first, bad, good]).health.Permits(Borrow)
      && RefreshRun(s, [first, bad, good]).reference.sourceEpoch == RefreshRun(s, [first]).reference.sourceEpoch
  {
    var data := Serialize(Pool(0, 0));
    var first, bad, good := Refresh(Handed(data), 3, 3), Refresh(Misled(data), 7, 7), Refresh(Handed(data), 8, 8);
    var frozen := Bootstrapped().(health := Emergency, lastRefreshSlot := 7);
    KeysDiffer();
    MisledFreezes(data);
    hide Pool, Serialize, Parsed, ZeroKey, SomeKey, Handed, Misled;
    PoolReads(0, 0, Unread(), 3, 3);
    FirstReading(first);
    PoolReads(0, 0, Bootstrapped(), 8, 8);
    PoolReads(0, 0, frozen, 8, 8);
    ReadingJudged(Bootstrapped(), good);
    ReadingJudged(frozen, good);
    hide AfterRefresh, Unread;
    RunOfOne(Unread(), first);
    RunOfOne(Bootstrapped(), good);
    RunOfOne(frozen, good);
    assert [first, good][1..] == [good] && [first, bad, good][1..] == [bad, good] && [bad, good][1..] == [good];
    assert RefreshRun(Bootstrapped(), [bad, good]) == RefreshRun(frozen, [good]);
  }

  lemma RunOfOne(s: Oracle, f: Refresh)
    ensures RefreshRun(s, [f]) == AfterRefresh(s, f)
  {
    hide AfterRefresh;
    assert [f][1..] == [];
  }

  lemma FirstReading(f: Refresh)
    requires f.slot == 3 == f.now
    requires Observed(Unread(), f.reading, 3, 3)
        == Ok(PriceObservation(SCALE, 0, SCALE, 7, 3, 3, NativeExchangeRate, None))
    ensures AfterRefresh(Unread(), f) == Bootstrapped()
  {
    hide ZeroKey, SomeKey, Observe, RequireSource;
  }

  lemma MisledFreezes(data: Blob)
    ensures AfterRefresh(Bootstrapped(), Refresh(Misled(data), 7, 7))
         == Bootstrapped().(health := Emergency, lastRefreshSlot := 7)
  {
    KeysDiffer();
    hide ZeroKey, SomeKey, LoaderKey, RefreshedOracle;
    ForeignProgramFreezes(Bootstrapped(), Refresh(Misled(data), 7, 7));
  }

  lemma ReadingJudged(s: Oracle, f: Refresh)
    requires s.reference == Bootstrapped().reference && s.config == Terms()
    requires Observed(s, f.reading, f.slot, f.now)
        == Ok(PriceObservation(SCALE, 0, SCALE, 7, f.slot, f.now, NativeExchangeRate, None))
    ensures AfterRefresh(s, f).health == if s.health == Bootstrapping then Bootstrapping else Healthy
    ensures AfterRefresh(s, f).reference.sourceEpoch == 7
  {
    hide ZeroKey, SomeKey, Observe, RequireSource;
    assert MoveBps(SCALE, SCALE) == Ok(0);
  }

  /** A pool whose previous epoch is past measuring is not recorded as an emergency: the
      refresh fails. */
  lemma ImmeasurableReadFails()
    ensures var r := Handed(Serialize(Pool(1, U64_MAX)));
      Observed(Unread(), r, 8, 8).Ok? && RefreshedOracle(Unread(), r, 8, 8).Err?
  {
    var r := Handed(Serialize(Pool(1, U64_MAX)));
    hide Pool, Serialize, Parsed, ZeroKey, SomeKey, Handed, Observed;
    PoolReads(1, U64_MAX, Unread(), 8, 8);
    assert Anchor(Unread(), Observed(Unread(), r, 8, 8).value) == Some(U64_MAX * SCALE);
    hide Unread, RefreshedOracle, Anchor;
    RefreshFailsIff(Unread(), Refresh(r, 8, 8));
  }
}
