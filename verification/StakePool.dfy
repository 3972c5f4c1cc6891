/** The stake-pool account behind the native exchange-rate oracle (oracle/native_bcook.rs):
its 611-byte layout, written and parsed, and the rates derived from it.

Past a fixed prefix the layout is walked, tag by tag. `Serialize` writes an account; the
parser reads back from it exactly what it holds, and accepts nothing `Serialize` cannot
write. */
module StakePool {
  import opened Wrappers
  import opened FixedPoint
  import opened Bytes

  /** The key of all zeros stands for no key. */
  function ZeroKey(): (k: Blob)
    ensures |k| == 32
  {
    Zeros(32)
  }

  type Pubkey = k: Blob | |k| == 32 witness ZeroKey()

  const STAKE_POOL_LEN: nat := 611
  const ACCOUNT_TYPE_STAKE_POOL: u8 := 1
  const FEE_LEN: nat := 16

  const OFF_POOL_MINT: nat := 162
  const OFF_TOKEN_PROGRAM: nat := 226
  const OFF_TOTAL_LAMPORTS: nat := 258
  const OFF_POOL_TOKEN_SUPPLY: nat := 266
  const OFF_LAST_UPDATE_EPOCH: nat := 274
  const OFF_VARIABLE: nat := 346

  // ---------- the account and its bytes ----------

  /** A fee is stored denominator first; a zero denominator means no fee. */
  datatype Fee = Fee(denominator: u64, numerator: u64)
  {
    function Bytes(): (b: Blob)
      ensures |b| == FEE_LEN
    {
      LeBytes(denominator, 8) + LeBytes(numerator, 8)
    }

    predicate Proper() { denominator == 0 || numerator <= denominator }

    /** In basis points, rounded up. */
    function Bps(): nat { if denominator == 0 then 0 else CeilDiv(numerator * BPS, denominator) }
  }

  datatype Kind = FutureFee | OptionalKey | PlainFee | Byte | Amount

  /** One field of the variable tail. A future fee is absent, or due in one epoch or two. */
  datatype Field =
    | NoFee
    | DueFee(epochs: nat, fee: Fee)
    | NoKey
    | Key(key: Pubkey)
    | FeeField(fee: Fee)
    | ByteField(byte: u8)
    | AmountField(amount: u64)
  {
    predicate Fits(k: Kind) {
      match k
      case FutureFee => NoFee? || (DueFee? && 1 <= epochs <= 2)
      case OptionalKey => NoKey? || Key?
      case PlainFee => FeeField?
      case Byte => ByteField?
      case Amount => AmountField?
    }

    function Bytes(): Blob {
      match this
      case NoFee => [0]
      case DueFee(epochs, f) => [epochs % 256] + f.Bytes()
      case NoKey => [0]
      case Key(k) => [1] + k
      case FeeField(f) => f.Bytes()
      case ByteField(b) => [b]
      case AmountField(n) => LeBytes(n, 8)
    }
  }

  const TAIL_FIELDS: nat := 15

  /** The tail in declaration order. */
  function KindAt(i: nat): Kind
    requires i < TAIL_FIELDS
  {
    match i
    case 0 => FutureFee
    case 1 => OptionalKey
    case 2 => OptionalKey
    case 3 => PlainFee
    case 4 => PlainFee
    case 5 => FutureFee
    case 6 => Byte
    case 7 => OptionalKey
    case 8 => PlainFee
    case 9 => Byte
    case 10 => OptionalKey
    case 11 => PlainFee
    case 12 => FutureFee
    case _ => Amount
  }

  const STAKE_WITHDRAWAL_FEE: nat := 4
  const SOL_WITHDRAWAL_FEE: nat := 11
  const LAST_EPOCH_SUPPLY: nat := 13
  const LAST_EPOCH_LAMPORTS: nat := 14

  /** `lead` is what stands between the account type and the mint, `rest` the lockup and the
      epoch fee; the parser reads neither. */
  datatype PoolAccount = PoolAccount(
    lead: Blob, poolMint: Pubkey, feeAccount: Pubkey, tokenProgram: Pubkey,
    totalLamports: u64, poolTokenSupply: u64, lastUpdateEpoch: u64, rest: Blob,
    tail: seq<Field>, padding: Blob)
  {
    function Head(): seq<Blob> {
      [[ACCOUNT_TYPE_STAKE_POOL], lead, poolMint, feeAccount, tokenProgram, LeBytes(totalLamports, 8),
       LeBytes(poolTokenSupply, 8), LeBytes(lastUpdateEpoch, 8), rest]
    }

    function Parts(): seq<Blob> { Head() + TailBytes(tail) + [padding] }

    predicate InForm() {
      && |lead| == 161 && |rest| == 64 && |tail| == TAIL_FIELDS
      && (forall i :: 0 <= i < TAIL_FIELDS ==> tail[i].Fits(KindAt(i)))
      && |Concat(Parts())| == STAKE_POOL_LEN
    }

    function StakeWithdrawalFee(): Fee
      requires InForm()
    {
      assert tail[STAKE_WITHDRAWAL_FEE].Fits(KindAt(STAKE_WITHDRAWAL_FEE));
      tail[STAKE_WITHDRAWAL_FEE].fee
    }

    function SolWithdrawalFee(): Fee
      requires InForm()
    {
      assert tail[SOL_WITHDRAWAL_FEE].Fits(KindAt(SOL_WITHDRAWAL_FEE));
      tail[SOL_WITHDRAWAL_FEE].fee
    }

    function LastEpochSupply(): u64
      requires InForm()
    {
      assert tail[LAST_EPOCH_SUPPLY].Fits(KindAt(LAST_EPOCH_SUPPLY));
      tail[LAST_EPOCH_SUPPLY].amount
    }

    function LastEpochLamports(): u64
      requires InForm()
    {
      assert tail[LAST_EPOCH_LAMPORTS].Fits(KindAt(LAST_EPOCH_LAMPORTS));
      tail[LAST_EPOCH_LAMPORTS].amount
    }
  }

  const HEAD_PARTS: nat := 9

  function TailBytes(fs: seq<Field>): (parts: seq<Blob>)
    ensures |parts| == |fs| && forall i :: 0 <= i < |fs| ==> parts[i] == fs[i].Bytes()
  {
    seq(|fs|, i requires 0 <= i < |fs| => fs[i].Bytes())
  }

  function Serialize(p: PoolAccount): Blob { Concat(p.Parts()) }

  // ---------- reading primitives ----------

  function ReadU8(data: Blob, at: nat): Result<u8> {
    if at < |data| then Ok(data[at]) else Err(OracleAccountMalformed)
  }

  function ReadU64(data: Blob, at: nat): Result<u64> {
    if at + 8 <= |data| then
      ValueFits(data[at..at + 8]);
      EightBytes();
      Ok(LeValue(data[at..at + 8]))
    else Err(OracleAccountMalformed)
  }

  function ReadPubkey(data: Blob, at: nat): Result<Pubkey> {
    if at + 32 <= |data| then Ok(data[at..at + 32]) else Err(OracleAccountMalformed)
  }

  function ReadFeeBps(data: Blob, at: nat): Result<u16> {
    var denominator :- ReadU64(data, at);
    var numerator :- ReadU64(data, at + 8);
    if denominator == 0 then Ok(0) else
    var _ :- Need(numerator <= denominator, OracleAccountMalformed);
    var bps :- MulDivCeil(numerator, BPS, denominator);
    if bps < 0x1_0000 then Ok(bps) else Err(OracleAccountMalformed)
  }

  /** Past one variable-width field: the tag picks the width, and a tag past the table is
      malformed. */
  function SkipTagged(data: Blob, at: nat, widths: seq<nat>): Result<nat> {
    var tag :- ReadU8(data, at);
    if tag < |widths| then Ok(at + 1 + widths[tag]) else Err(OracleAccountMalformed)
  }

  function Skip(data: Blob, at: nat, k: Kind): Result<nat> {
    match k
    case FutureFee => SkipTagged(data, at, [0, FEE_LEN, FEE_LEN])
    case OptionalKey => SkipTagged(data, at, [0, 32])
    case PlainFee => Ok(at + FEE_LEN)
    case Byte => Ok(at + 1)
    case Amount => Ok(at + 8)
  }

  // ---------- the parse ----------

  datatype StakePoolView = StakePoolView(
    poolMint: Pubkey, tokenProgram: Pubkey, totalLamports: u64, poolTokenSupply: u64, lastUpdateEpoch: u64,
    stakeWithdrawalFeeBps: u16, solWithdrawalFeeBps: u16, lastEpochTotalLamports: u64, lastEpochPoolTokenSupply: u64)

  /** Where tail field `i` begins. */
  function Walk(data: Blob, i: nat): Result<nat>
    requires i <= TAIL_FIELDS
  {
    if i == 0 then Ok(OFF_VARIABLE) else
    var at :- Walk(data, i - 1);
    Skip(data, at, KindAt(i - 1))
  }

  /** The fixed prefix. */
  function ParsedHead(data: Blob): Result<(Pubkey, Pubkey, u64, u64, u64)> {
    var _ :- Need(|data| == STAKE_POOL_LEN, OracleAccountMalformed);
    var accountType :- ReadU8(data, 0);
    var _ :- Need(accountType == ACCOUNT_TYPE_STAKE_POOL, OracleAccountMalformed);
    var mint :- ReadPubkey(data, OFF_POOL_MINT);
    var program :- ReadPubkey(data, OFF_TOKEN_PROGRAM);
    var lamports :- ReadU64(data, OFF_TOTAL_LAMPORTS);
    var supply :- ReadU64(data, OFF_POOL_TOKEN_SUPPLY);
    var epoch :- ReadU64(data, OFF_LAST_UPDATE_EPOCH);
    Ok((mint, program, lamports, supply, epoch))
  }

  /** The fields read along the walk: two fees, then last epoch's supply and lamports. */
  function ParsedTail(data: Blob): Result<(u16, u16, u64, u64)> {
    var stakeAt :- Walk(data, STAKE_WITHDRAWAL_FEE);
    var stakeFee :- ReadFeeBps(data, stakeAt);
    var solAt :- Walk(data, SOL_WITHDRAWAL_FEE);
    var solFee :- ReadFeeBps(data, solAt);
    var lastAt :- Walk(data, LAST_EPOCH_SUPPLY);
    var lastSupply :- ReadU64(data, lastAt);
    var lastLamports :- ReadU64(data, lastAt + 8);
    Ok((stakeFee, solFee, lastSupply, lastLamports))
  }

  function Parsed(data: Blob): Result<StakePoolView> {
    var head :- ParsedHead(data);
    var tail :- ParsedTail(data);
    Ok(StakePoolView(head.0, head.1, head.2, head.3, head.4, tail.0, tail.1, tail.3, tail.2))
  }

  /** The parser: one offset, advanced field by field. */
  method ParseStakePool(data: Blob) returns (view: Result<StakePoolView>)
    ensures view == Parsed(data)
  {
    hide Walk, Skip, ReadFeeBps, ReadU64, ReadU8, ReadPubkey;
    var _ :- Need(|data| == STAKE_POOL_LEN, OracleAccountMalformed);
    var accountType :- ReadU8(data, 0);
    var _ :- Need(accountType == ACCOUNT_TYPE_STAKE_POOL, OracleAccountMalformed);
    var mint :- ReadPubkey(data, OFF_POOL_MINT);
    var program :- ReadPubkey(data, OFF_TOKEN_PROGRAM);
    var lamports :- ReadU64(data, OFF_TOTAL_LAMPORTS);
    var supply :- ReadU64(data, OFF_POOL_TOKEN_SUPPLY);
    var epoch :- ReadU64(data, OFF_LAST_UPDATE_EPOCH);
    var at := OFF_VARIABLE;
    FirstStep(data);
    WalkStep(data, 0, at);
    at :- Skip(data, at, FutureFee);
    WalkStep(data, 1, at);
    at :- Skip(data, at, OptionalKey);
    WalkStep(data, 2, at);
    at :- Skip(data, at, OptionalKey);
    WalkStep(data, 3, at);
    at := at + FEE_LEN;
    var stakeFee :- ReadFeeBps(data, at);
    WalkStep(data, 4, at);
    at := at + FEE_LEN;
    WalkStep(data, 5, at);
    at :- Skip(data, at, FutureFee);
    WalkStep(data, 6, at);
    at := at + 1;
    WalkStep(data, 7, at);
    at :- Skip(data, at, OptionalKey);
    WalkStep(data, 8, at);
    at := at + FEE_LEN;
    WalkStep(data, 9, at);
    at := at + 1;
    WalkStep(data, 10, at);
    at :- Skip(data, at, OptionalKey);
    var solFee :- ReadFeeBps(data, at);
    WalkStep(data, 11, at);
    at := at + FEE_LEN;
    WalkStep(data, 12, at);
    at :- Skip(data, at, FutureFee);
    var lastSupply :- ReadU64(data, at);
    var lastLamports :- ReadU64(data, at + 8);
    return Ok(StakePoolView(mint, program, lamports, supply, epoch, stakeFee, solFee, lastLamports, lastSupply));
  }

  lemma FirstStep(data: Blob)
    ensures Walk(data, 0) == Ok(OFF_VARIABLE)
  {
  }

  /** One turn of the walk; a turn that fails fails every later one. */
  lemma WalkStep(data: Blob, i: nat, at: nat)
    requires i < TAIL_FIELDS && Walk(data, i) == Ok(at)
    ensures Walk(data, i + 1) == Skip(data, at, KindAt(i))
    ensures KindAt(i) == PlainFee ==> Walk(data, i + 1) == Ok(at + FEE_LEN)
    ensures KindAt(i) == Byte ==> Walk(data, i + 1) == Ok(at + 1)
    ensures Walk(data, i + 1).Err? ==> Walk(data, NextStop(i)) == Walk(data, i + 1)
  {
    var next := Walk(data, i + 1);
    assert next == Skip(data, at, KindAt(i));
    if next.Err? { WalkFails(data, i + 1, NextStop(i)); }
  }

  /** The next offset past field `i` that the parser reads at. */
  function NextStop(i: nat): (j: nat)
    requires i < TAIL_FIELDS
    ensures i < j <= TAIL_FIELDS
  {
    if i < STAKE_WITHDRAWAL_FEE then STAKE_WITHDRAWAL_FEE
    else if i < SOL_WITHDRAWAL_FEE then SOL_WITHDRAWAL_FEE
    else if i < LAST_EPOCH_SUPPLY then LAST_EPOCH_SUPPLY
    else TAIL_FIELDS
  }

  lemma {:induction false} WalkFails(data: Blob, i: nat, j: nat)
    requires i <= j <= TAIL_FIELDS && Walk(data, i).Err?
    ensures Walk(data, j) == Walk(data, i)
    decreases j
  {
    hide Skip;
    if i < j { WalkFails(data, i, j - 1); }
  }

  // ---------- parsing undoes serializing ----------

  /** A proper fee in basis points, as the parser reports it. */
  function BpsOf(f: Fee): u16
    requires f.Proper()
  {
    FeeBpsFit(f);
    f.Bps()
  }

  predicate FeesProper(p: PoolAccount)
    requires p.InForm()
  {
    p.StakeWithdrawalFee().Proper() && p.SolWithdrawalFee().Proper()
  }

  /** What the parser reports of an account. */
  function ViewOf(p: PoolAccount): StakePoolView
    requires p.InForm() && FeesProper(p)
  {
    StakePoolView(p.poolMint, p.tokenProgram, p.totalLamports, p.poolTokenSupply, p.lastUpdateEpoch,
                  BpsOf(p.StakeWithdrawalFee()), BpsOf(p.SolWithdrawalFee()), p.LastEpochLamports(),
                    p.LastEpochSupply())
  }

  /** A proper fee is at most the whole, and never understated. */
  lemma FeeBpsFit(f: Fee)
    requires f.Proper()
    ensures f.Bps() <= BPS
    ensures f.denominator > 0 ==> f.numerator * BPS <= f.Bps() * f.denominator < f.numerator * BPS + f.denominator
  {
    hide CeilDiv;
    if f.denominator > 0 {
      MulMono(f.numerator, f.denominator, BPS);
      CeilIsSmallest(BPS, f.numerator * BPS, f.denominator);
    }
  }

  lemma AmountIsRead(data: Blob, at: nat, n: u64)
    requires at + 8 <= |data| && data[at..at + 8] == LeBytes(n, 8)
    ensures ReadU64(data, at) == Ok(n)
  {
    EightBytes();
    ValueOfBytes(n, 8);
  }

  lemma FeeIsRead(data: Blob, at: nat, f: Fee)
    requires at + FEE_LEN <= |data| && data[at..at + FEE_LEN] == f.Bytes()
    ensures ReadFeeBps(data, at) == if f.Proper() then Ok(BpsOf(f)) else Err(OracleAccountMalformed)
  {
    assert data[at..at + 8] == data[at..at + FEE_LEN][..8] == LeBytes(f.denominator, 8);
    assert data[at + 8..at + 16] == data[at..at + FEE_LEN][8..] == LeBytes(f.numerator, 8);
    AmountIsRead(data, at, f.denominator);
    AmountIsRead(data, at + 8, f.numerator);
    hide LeBytes, ReadU64, CeilDiv;
    if f.Proper() { FeeBpsFit(f); }
  }

  /** A tail field is passed exactly when its tag says so. */
  lemma FieldIsSkipped(data: Blob, at: nat, f: Field, k: Kind)
    requires f.Fits(k) && at + |f.Bytes()| <= |data| && data[at..at + |f.Bytes()|] == f.Bytes()
    ensures Skip(data, at, k) == Ok(at + |f.Bytes()|)
  {
    hide LeBytes;
    assert f.Bytes()[0] == data[at..at + |f.Bytes()|][0] == data[at];
  }

  /** The fixed prefix. */
  lemma HeadOffsets(p: PoolAccount)
    requires p.InForm()
    ensures var parts := p.Parts();
      && |parts| == HEAD_PARTS + TAIL_FIELDS + 1
      && (forall i :: 0 <= i < HEAD_PARTS ==> parts[i] == p.Head()[i])
      && (forall i :: 0 <= i < TAIL_FIELDS ==> parts[HEAD_PARTS + i] == p.tail[i].Bytes())
      && Offset(parts, 0) == 0 && Offset(parts, 1) == 1 && Offset(parts, 2) == OFF_POOL_MINT
      && Offset(parts, 4) == OFF_TOKEN_PROGRAM && Offset(parts, 5) == OFF_TOTAL_LAMPORTS
      && Offset(parts, 6) == OFF_POOL_TOKEN_SUPPLY && Offset(parts, 7) == OFF_LAST_UPDATE_EPOCH
      && Offset(parts, 9) == OFF_VARIABLE
  {
    var parts := p.Parts();
    hide LeBytes, Concat, Field.Bytes;
    assert Offset(parts, 0) == 0 by { EmptyOffset(parts); }
    NextOffset(parts, 0); NextOffset(parts, 1); NextOffset(parts, 2); NextOffset(parts, 3); NextOffset(parts, 4);
    NextOffset(parts, 5); NextOffset(parts, 6); NextOffset(parts, 7); NextOffset(parts, 8);
  }

  lemma EmptyOffset(parts: seq<Blob>)
    ensures Offset(parts, 0) == 0
  {
  }

  /** Walking a serialized account stops at the offsets of its parts. */
  lemma {:induction false} WalkFollowsParts(p: PoolAccount, i: nat)
    requires p.InForm() && i <= TAIL_FIELDS
    ensures |p.Parts()| == HEAD_PARTS + TAIL_FIELDS + 1
    ensures Walk(Serialize(p), i) == Ok(Offset(p.Parts(), HEAD_PARTS + i))
    decreases i
  {
    HeadOffsets(p);
    if i > 0 {
      WalkFollowsParts(p, i - 1);
      hide *;
      OneField(p, i - 1);
      WalkStep(Serialize(p), i - 1, Offset(p.Parts(), HEAD_PARTS + (i - 1)));
    }
  }

  lemma OneField(p: PoolAccount, i: nat)
    requires p.InForm() && i < TAIL_FIELDS
    ensures |p.Parts()| == HEAD_PARTS + TAIL_FIELDS + 1
    ensures var at := Offset(p.Parts(), HEAD_PARTS + i);
      Skip(Serialize(p), at, KindAt(i)) == Ok(Offset(p.Parts(), HEAD_PARTS + (i + 1)))
  {
    HeadOffsets(p);
    var parts, k := p.Parts(), HEAD_PARTS + i;
    PartAt(parts, k);
    assert parts[k] == p.tail[i].Bytes() && p.tail[i].Fits(KindAt(i));
    assert k + 1 == HEAD_PARTS + (i + 1);
    hide Field.Bytes, Field.Fits, Skip, Offset, Concat, PoolAccount.Parts;
    FieldIsSkipped(Serialize(p), Offset(parts, k), p.tail[i], KindAt(i));
  }

  lemma HeadIsRead(p: PoolAccount)
    requires p.InForm()
    ensures ParsedHead(Serialize(p)) == Ok((p.poolMint, p.tokenProgram, p.totalLamports, p.poolTokenSupply,
                                            p.lastUpdateEpoch))
  {
    HeadOffsets(p);
    var parts, data := p.Parts(), Serialize(p);
    hide LeBytes, Concat, Offset, ReadU64, Field.Bytes;
    PartAt(parts, 0); PartAt(parts, 2); PartAt(parts, 4); PartAt(parts, 5); PartAt(parts, 6); PartAt(parts, 7);
    assert data[0..1][0] == data[0];
    AmountIsRead(data, OFF_TOTAL_LAMPORTS, p.totalLamports);
    AmountIsRead(data, OFF_POOL_TOKEN_SUPPLY, p.poolTokenSupply);
    AmountIsRead(data, OFF_LAST_UPDATE_EPOCH, p.lastUpdateEpoch);
  }

  /** The bytes of tail field `i` stand where the walk stops for it. */
  lemma TailAt(p: PoolAccount, i: nat)
    requires p.InForm() && i < TAIL_FIELDS
    ensures Walk(Serialize(p), i).Ok?
    ensures var at := Walk(Serialize(p), i).value;
      at + |p.tail[i].Bytes()| <= |Serialize(p)| && Serialize(p)[at..at + |p.tail[i].Bytes()|] == p.tail[i].Bytes()
    ensures p.tail[i].Fits(KindAt(i))
  {
    HeadOffsets(p);
    WalkFollowsParts(p, i);
    PartAt(p.Parts(), HEAD_PARTS + i);
  }

  lemma FeeStop(p: PoolAccount, i: nat)
    requires p.InForm() && i < TAIL_FIELDS && KindAt(i) == PlainFee
    ensures p.tail[i].FeeField? && Walk(Serialize(p), i).Ok?
    ensures var f := p.tail[i].fee;
      ReadFeeBps(Serialize(p), Walk(Serialize(p), i).value)
          == if f.Proper() then Ok(BpsOf(f)) else Err(OracleAccountMalformed)
  {
    TailAt(p, i);
    hide Walk, Serialize, Fee.Bps, Fee.Proper, Fee.Bytes, ReadFeeBps, BpsOf;
    FeeIsRead(Serialize(p), Walk(Serialize(p), i).value, p.tail[i].fee);
  }

  lemma AmountStop(p: PoolAccount, i: nat)
    requires p.InForm() && i < TAIL_FIELDS && KindAt(i) == Amount
    ensures p.tail[i].AmountField? && Walk(Serialize(p), i).Ok?
    ensures ReadU64(Serialize(p), Walk(Serialize(p), i).value) == Ok(p.tail[i].amount)
    ensures Walk(Serialize(p), i + 1) == Ok(Walk(Serialize(p), i).value + 8)
  {
    TailAt(p, i);
    WalkStep(Serialize(p), i, Walk(Serialize(p), i).value);
    hide Walk, Serialize, LeBytes, ReadU64;
    AmountIsRead(Serialize(p), Walk(Serialize(p), i).value, p.tail[i].amount);
  }

  lemma StakeFeeStop(p: PoolAccount)
    requires p.InForm()
    ensures var stop, f := Walk(Serialize(p), STAKE_WITHDRAWAL_FEE), p.StakeWithdrawalFee();
      stop.Ok? && ReadFeeBps(Serialize(p), stop.value)
          == if f.Proper() then Ok(BpsOf(f)) else Err(OracleAccountMalformed)
  {
    hide Walk, Serialize, ReadFeeBps, BpsOf, Fee.Proper;
    FeeStop(p, STAKE_WITHDRAWAL_FEE);
  }

  lemma SolFeeStop(p: PoolAccount)
    requires p.InForm()
    ensures var stop, f := Walk(Serialize(p), SOL_WITHDRAWAL_FEE), p.SolWithdrawalFee();
      stop.Ok? && ReadFeeBps(Serialize(p), stop.value)
          == if f.Proper() then Ok(BpsOf(f)) else Err(OracleAccountMalformed)
  {
    hide Walk, Serialize, ReadFeeBps, BpsOf, Fee.Proper;
    FeeStop(p, SOL_WITHDRAWAL_FEE);
  }

  lemma SupplyStop(p: PoolAccount)
    requires p.InForm()
    ensures var stop := Walk(Serialize(p), LAST_EPOCH_SUPPLY);
      && stop.Ok? && ReadU64(Serialize(p), stop.value) == Ok(p.LastEpochSupply())
      && Walk(Serialize(p), LAST_EPOCH_LAMPORTS) == Ok(stop.value + 8)
  {
    hide Walk, Serialize, ReadU64;
    AmountStop(p, LAST_EPOCH_SUPPLY);
  }

  lemma LamportsStop(p: PoolAccount)
    requires p.InForm()
    ensures var stop := Walk(Serialize(p), LAST_EPOCH_LAMPORTS);
      stop.Ok? && ReadU64(Serialize(p), stop.value) == Ok(p.LastEpochLamports())
  {
    hide Walk, Serialize, ReadU64;
    AmountStop(p, LAST_EPOCH_LAMPORTS);
  }

  lemma TailIsRead(p: PoolAccount)
    requires p.InForm()
    ensures ParsedTail(Serialize(p)) ==
      if FeesProper(p) then Ok((BpsOf(p.StakeWithdrawalFee()), BpsOf(p.SolWithdrawalFee()), p.LastEpochSupply(),
                                p.LastEpochLamports()))
      else Err(OracleAccountMalformed)
  {
    hide PoolAccount.InForm, Walk, Serialize, ReadU64, ReadFeeBps, BpsOf, Fee.Proper, ParsedTail,
      PoolAccount.StakeWithdrawalFee,
      PoolAccount.SolWithdrawalFee, PoolAccount.LastEpochSupply, PoolAccount.LastEpochLamports;
    StakeFeeStop(p);
    SolFeeStop(p);
    SupplyStop(p);
    LamportsStop(p);
    TailAssembles(Serialize(p), p.StakeWithdrawalFee(), p.SolWithdrawalFee(), p.LastEpochSupply(),
                  p.LastEpochLamports());
  }

  lemma TailAssembles(data: Blob, a: Fee, b: Fee, supply: u64, lamports: u64)
    requires var stop := Walk(data, STAKE_WITHDRAWAL_FEE);
      stop.Ok? && ReadFeeBps(data, stop.value) == if a.Proper() then Ok(BpsOf(a)) else Err(OracleAccountMalformed)
    requires var stop := Walk(data, SOL_WITHDRAWAL_FEE);
      stop.Ok? && ReadFeeBps(data, stop.value) == if b.Proper() then Ok(BpsOf(b)) else Err(OracleAccountMalformed)
    requires var stop := Walk(data, LAST_EPOCH_SUPPLY);
      stop.Ok? && ReadU64(data, stop.value) == Ok(supply) && ReadU64(data, stop.value + 8) == Ok(lamports)
    ensures ParsedTail(data) ==
      if a.Proper() && b.Proper() then Ok((BpsOf(a), BpsOf(b), supply, lamports)) else Err(OracleAccountMalformed)
  {
    hide Walk, ReadU64, ReadFeeBps, BpsOf, Fee.Proper;
  }

  /** Parsing undoes serializing: for every account and every combination of tags, the parse
      returns the written mint, amounts and epochs and the fees rounded up; it fails exactly
      when a withdrawal fee exceeds the whole. */
  lemma ParseUndoesSerialize(p: PoolAccount)
    requires p.InForm()
    ensures Parsed(Serialize(p)) == if FeesProper(p) then Ok(ViewOf(p)) else Err(OracleAccountMalformed)
  {
    HeadIsRead(p);
    TailIsRead(p);
    hide Serialize, ParsedHead, ParsedTail, BpsOf, FeesProper, PoolAccount.InForm, PoolAccount.StakeWithdrawalFee,
      PoolAccount.SolWithdrawalFee, PoolAccount.LastEpochSupply, PoolAccount.LastEpochLamports;
  }

  // ---------- nothing else parses ----------

  function FeeAt(data: Blob, at: nat): Fee
    requires at + FEE_LEN <= |data|
  {
    ValueFits(data[at..at + 8]);
    ValueFits(data[at + 8..at + 16]);
    EightBytes();
    Fee(LeValue(data[at..at + 8]), LeValue(data[at + 8..at + 16]))
  }

  /** The field that stands at `at`. */
  function FieldAt(data: Blob, at: nat, k: Kind): Field
    requires Skip(data, at, k).Ok? && at <= Skip(data, at, k).value <= |data|
  {
    match k
    case FutureFee => if data[at] == 0 then NoFee else DueFee(data[at], FeeAt(data, at + 1))
    case OptionalKey => if data[at] == 0 then NoKey else Key(data[at + 1..at + 33])
    case PlainFee => FeeField(FeeAt(data, at))
    case Byte => ByteField(data[at])
    case Amount =>
      ValueFits(data[at..at + 8]);
      EightBytes();
      AmountField(LeValue(data[at..at + 8]))
  }

  lemma FeeBytesBack(data: Blob, at: nat)
    requires at + FEE_LEN <= |data|
    ensures FeeAt(data, at).Bytes() == data[at..at + FEE_LEN]
  {
    BytesOfValue(data[at..at + 8]);
    BytesOfValue(data[at + 8..at + 16]);
    assert data[at..at + FEE_LEN] == data[at..at + 8] + data[at + 8..at + 16];
  }

  lemma FieldBytesBack(data: Blob, at: nat, k: Kind)
    requires Skip(data, at, k).Ok? && at <= Skip(data, at, k).value <= |data|
    ensures FieldAt(data, at, k).Fits(k) && FieldAt(data, at, k).Bytes() == data[at..Skip(data, at, k).value]
  {
    hide LeValue, LeBytes, FeeAt, Fee.Bytes;
    match k
    case FutureFee => TaggedFeeBack(data, at);
    case OptionalKey => TaggedKeyBack(data, at);
    case PlainFee => FeeBytesBack(data, at);
    case Byte =>
    case Amount => BytesOfValue(data[at..at + 8]);
  }

  lemma TaggedFeeBack(data: Blob, at: nat)
    requires Skip(data, at, FutureFee).Ok? && at <= Skip(data, at, FutureFee).value <= |data|
    ensures var f := FieldAt(data, at, FutureFee);
      f.Fits(FutureFee) && f.Bytes() == data[at..Skip(data, at, FutureFee).value]
  {
    hide FeeAt, Fee.Bytes;
    if data[at] != 0 {
      FeeBytesBack(data, at + 1);
      assert data[at..at + 17] == [data[at]] + data[at + 1..at + 17];
    }
  }

  lemma TaggedKeyBack(data: Blob, at: nat)
    requires Skip(data, at, OptionalKey).Ok? && at <= Skip(data, at, OptionalKey).value <= |data|
    ensures var f := FieldAt(data, at, OptionalKey);
      f.Fits(OptionalKey) && f.Bytes() == data[at..Skip(data, at, OptionalKey).value]
  {
    if data[at] != 0 { assert data[at..at + 33] == [data[at]] + data[at + 1..at + 33]; }
  }

  /** The walk gets through, and stays inside. */
  ghost predicate WalksThrough(data: Blob) {
    |data| == STAKE_POOL_LEN && data[0] == ACCOUNT_TYPE_STAKE_POOL
    && forall i :: 0 <= i <= TAIL_FIELDS ==> Walk(data, i).Ok? && OFF_VARIABLE <= Walk(data, i).value <= |data|
  }

  lemma {:induction false} WalkClimbs(data: Blob, i: nat, j: nat)
    requires i <= j <= TAIL_FIELDS && Walk(data, j).Ok?
    ensures Walk(data, i).Ok? && OFF_VARIABLE <= Walk(data, i).value <= Walk(data, j).value
    decreases j
  {
    if i < j { WalkClimbs(data, i, j - 1); } else if j > 0 { WalkClimbs(data, j - 1, j - 1); }
  }

  lemma ParsedWalksThrough(data: Blob)
    requires Parsed(data).Ok?
    ensures WalksThrough(data)
  {
    var at := Walk(data, LAST_EPOCH_SUPPLY).value;
    WalkStep(data, LAST_EPOCH_SUPPLY, at);
    WalkStep(data, LAST_EPOCH_LAMPORTS, at + 8);
    assert Walk(data, TAIL_FIELDS) == Ok(at + 16) && at + 16 <= |data|;
    forall i | 0 <= i <= TAIL_FIELDS ensures Walk(data, i).Ok? && OFF_VARIABLE <= Walk(data, i).value <= |data| {
      WalkClimbs(data, i, TAIL_FIELDS);
    }
  }

  function TailOf(data: Blob): (fs: seq<Field>)
    requires WalksThrough(data)
    ensures |fs| == TAIL_FIELDS
  {
    seq(TAIL_FIELDS, i requires 0 <= i < TAIL_FIELDS => StopField(data, i))
  }

  function StopField(data: Blob, i: nat): Field
    requires WalksThrough(data) && i < TAIL_FIELDS
  {
    var at := Walk(data, i).value;
    WalkStep(data, i, at);
    WalkClimbs(data, i, i + 1);
    assert Walk(data, i + 1).Ok? && Walk(data, i + 1).value <= |data|;
    FieldAt(data, at, KindAt(i))
  }

  lemma StopFieldBytes(data: Blob, i: nat)
    requires WalksThrough(data) && i < TAIL_FIELDS
    ensures Walk(data, i).value <= Walk(data, i + 1).value <= |data|
    ensures StopField(data, i).Fits(KindAt(i))
    ensures StopField(data, i).Bytes() == data[Walk(data, i).value..Walk(data, i + 1).value]
  {
    var at := Walk(data, i).value;
    WalkStep(data, i, at);
    WalkClimbs(data, i, i + 1);
    hide Skip, FieldAt, Walk;
    FieldBytesBack(data, at, KindAt(i));
  }

  function U64At(data: Blob, at: nat): u64
    requires at + 8 <= |data|
  {
    ValueFits(data[at..at + 8]);
    EightBytes();
    LeValue(data[at..at + 8])
  }

  /** The account whose bytes these are. */
  function AccountOf(data: Blob): PoolAccount
    requires WalksThrough(data)
  {
    PoolAccount(data[1..OFF_POOL_MINT], data[162..194], data[194..226], data[226..258],
                U64At(data, 258), U64At(data, 266), U64At(data, 274), data[282..346],
                TailOf(data), data[Walk(data, TAIL_FIELDS).value..])
  }

  lemma HeadBytesBack(data: Blob)
    requires WalksThrough(data)
    ensures Concat(AccountOf(data).Head()) == data[..OFF_VARIABLE]
  {
    BytesOfValue(data[258..266]);
    BytesOfValue(data[266..274]);
    BytesOfValue(data[274..282]);
    var h := AccountOf(data).Head();
    assert Concat(h[..0]) == data[..0];
    assert |data| == STAKE_POOL_LEN;
    hide LeBytes, LeValue, Walk, TailOf, Concat, WalksThrough;
    assert h[..1] == h[..0] + [h[0]] && h[..2] == h[..1] + [h[1]] && h[..3] == h[..2] + [h[2]];
    assert h[..4] == h[..3] + [h[3]] && h[..5] == h[..4] + [h[4]] && h[..6] == h[..5] + [h[5]];
    assert h[..7] == h[..6] + [h[6]] && h[..8] == h[..7] + [h[7]] && h == h[..8] + [h[8]];
    NextPart(data, h[..0], h[0], 0);
    NextPart(data, h[..1], h[1], 1);
    NextPart(data, h[..2], h[2], 162);
    NextPart(data, h[..3], h[3], 194);
    NextPart(data, h[..4], h[4], 226);
    NextPart(data, h[..5], h[5], 258);
    NextPart(data, h[..6], h[6], 266);
    NextPart(data, h[..7], h[7], 274);
    NextPart(data, h[..8], h[8], 282);
  }

  lemma {:induction false} TailBytesBack(data: Blob, i: nat)
    requires WalksThrough(data) && i <= TAIL_FIELDS
    ensures Concat(AccountOf(data).Head() + TailBytes(TailOf(data))[..i]) == data[..Walk(data, i).value]
    decreases i
  {
    var h, t := AccountOf(data).Head(), TailBytes(TailOf(data));
    if i == 0 {
      HeadBytesBack(data);
      assert h + t[..0] == h;
    } else {
      TailBytesBack(data, i - 1);
      OnePieceBack(data, h, t, i - 1);
    }
  }

  lemma OnePieceBack(data: Blob, h: seq<Blob>, t: seq<Blob>, i: nat)
    requires WalksThrough(data) && i < TAIL_FIELDS && t == TailBytes(TailOf(data))
    requires Concat(h + t[..i]) == data[..Walk(data, i).value]
    ensures Concat(h + t[..i + 1]) == data[..Walk(data, i + 1).value]
  {
    StopFieldBytes(data, i);
    assert t[i] == StopField(data, i).Bytes();
    assert Walk(data, i).Ok? && Walk(data, i + 1).Ok?;
    hide *;
    OneMorePart(h, t, i);
    NextPart(data, h + t[..i], t[i], Walk(data, i).value);
  }

  lemma OneMorePart(h: seq<Blob>, t: seq<Blob>, i: nat)
    requires i < |t|
    ensures h + t[..i + 1] == h + t[..i] + [t[i]]
  {
  }

  lemma PartsConcatBack(data: Blob)
    requires WalksThrough(data)
    ensures Concat(AccountOf(data).Parts()) == data
  {
    var p, t := AccountOf(data), TailBytes(TailOf(data));
    var at := Walk(data, TAIL_FIELDS).value;
    TailBytesBack(data, TAIL_FIELDS);
    assert at <= |data| && p.padding == data[at..] && p.Parts() == p.Head() + t + [p.padding];
    hide *;
    assert t[..TAIL_FIELDS] == t;
    NextPart(data, p.Head() + t, p.padding, at);
    assert data[..at + |p.padding|] == data;
  }

  lemma AccountSerializesBack(data: Blob)
    requires WalksThrough(data)
    ensures AccountOf(data).InForm() && Serialize(AccountOf(data)) == data
  {
    var p := AccountOf(data);
    PartsConcatBack(data);
    forall i | 0 <= i < TAIL_FIELDS ensures p.tail[i].Fits(KindAt(i)) { StopFieldBytes(data, i); }
    hide Concat, Walk, StopField, Field.Bytes, Field.Fits, PoolAccount.Parts, KindAt;
  }

  /** The parser accepts exactly the accounts with proper withdrawal fees: whatever it
      accepts is some account's bytes, down to the last, and any other tag, length or type
      fails. */
  lemma ParsesExactlyAccounts(data: Blob)
    ensures Parsed(data).Ok? <==> exists p: PoolAccount :: p.InForm() && FeesProper(p) && Serialize(p) == data
  {
    if Parsed(data).Ok? {
      ParsedWalksThrough(data);
      AccountSerializesBack(data);
      var p := AccountOf(data);
      hide Parsed, WalksThrough, AccountOf, PoolAccount.InForm, Serialize;
      ParseUndoesSerialize(p);
      assert p.InForm() && FeesProper(p) && Serialize(p) == data;
    }
    if p: PoolAccount :| p.InForm() && FeesProper(p) && Serialize(p) == data {
      hide Parsed, PoolAccount.InForm, Serialize;
      ParseUndoesSerialize(p);
    }
  }

  predicate Present(f: Field) { !f.NoFee? && !f.NoKey? }

  predicate AllPresent(fs: seq<Field>) { forall i :: 0 <= i < |fs| ==> Present(fs[i]) }

  /** Every combination of tags has room for its tail: it ends at 611 at the latest, and does
      so exactly when every optional field is there. */
  lemma LongestTailEndsAtTheEnd(fs: seq<Field>)
    requires |fs| == TAIL_FIELDS && forall i :: 0 <= i < TAIL_FIELDS ==> fs[i].Fits(KindAt(i))
    ensures OFF_VARIABLE + |Concat(TailBytes(fs))| <= STAKE_POOL_LEN
    ensures OFF_VARIABLE + |Concat(TailBytes(fs))| == STAKE_POOL_LEN <==> AllPresent(fs)
  {
    TailLength(fs);
    WidestTail();
  }

  lemma WidestTail()
    ensures Widest(TAIL_FIELDS) == STAKE_POOL_LEN - OFF_VARIABLE
  {
    assert Widest(5) == 115;
    assert Widest(10) == 183;
  }

  function Width(k: Kind): nat {
    match k
    case FutureFee => 17
    case OptionalKey => 33
    case PlainFee => 16
    case Byte => 1
    case Amount => 8
  }

  /** Bytes of the first `i` tail fields with nothing left out. */
  function Widest(i: nat): nat
    requires i <= TAIL_FIELDS
  {
    if i == 0 then 0 else Widest(i - 1) + Width(KindAt(i - 1))
  }

  lemma FieldWidth(f: Field, k: Kind)
    requires f.Fits(k)
    ensures |f.Bytes()| <= Width(k) && (|f.Bytes()| == Width(k) <==> Present(f))
  {
  }

  lemma TailBytesPrefix(fs: seq<Field>)
    requires fs != []
    ensures TailBytes(fs) == TailBytes(fs[..|fs| - 1]) + [fs[|fs| - 1].Bytes()]
  {
    hide Field.Bytes;
  }

  lemma OneMorePresent(fs: seq<Field>)
    requires fs != []
    ensures AllPresent(fs) <==> AllPresent(fs[..|fs| - 1]) && Present(fs[|fs| - 1])
  {
    hide Present;
  }

  lemma {:induction false} TailLength(fs: seq<Field>)
    requires |fs| <= TAIL_FIELDS && forall i :: 0 <= i < |fs| ==> fs[i].Fits(KindAt(i))
    ensures |Concat(TailBytes(fs))| <= Widest(|fs|)
    ensures |Concat(TailBytes(fs))| == Widest(|fs|) <==> AllPresent(fs)
    decreases |fs|
  {
    if fs != [] {
      var n := |fs| - 1;
      hide KindAt, Width, Field.Bytes, Field.Fits, Present, Concat, TailBytes, AllPresent;
      TailLength(fs[..n]);
      FieldWidth(fs[n], KindAt(n));
      TailBytesPrefix(fs);
      ConcatAppends(TailBytes(fs[..n]), fs[n].Bytes());
      OneMorePresent(fs);
    } else {
      assert TailBytes(fs) == [];
    }
  }
}
