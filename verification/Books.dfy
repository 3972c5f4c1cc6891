/** One reserve together with the token balances behind it: the liquidity vault, what every
account holds of the asset and of its shares, and the share vault of every obligation.

Each operation is the reserve's step and the token moves the handler makes with it. A token
move fails when its source is short, and the runtime then discards the instruction. */
module Books {
  import opened Wrappers
  import opened FixedPoint
  import opened Reserves
  import opened PoolSteps
  import opened Sums

  /** `donated` counts tokens sent straight to the vault, and `burned` shares destroyed
      straight on the share mint; the program hears of neither. */
  datatype Book = Book(
    reserve: ReserveState,
    vault: nat,
    cash: seq<nat>,
    shares: seq<nat>,
    locked: seq<nat>,
    donated: nat,
    burned: nat)
  {
    /** All tokens of the asset: they move, and are never made or lost. */
    function Holdings(): nat { Sum(cash) + vault }

    /** Share tokens that exist. */
    function Outstanding(): nat { Sum(shares) + Sum(locked) }
  }

  /** The vault holds the recorded liquidity and the donations; the recorded share supply is
      the shares that exist and those burned behind the program's back. */
  predicate Balanced(b: Book) {
    && b.vault == b.reserve.availableLiquidity + b.donated
    && b.Outstanding() + b.burned == b.reserve.shareMintSupply
  }

  /** An operation that loses no token and keeps a balanced book balanced. */
  predicate Conserves(b: Book, c: Book) {
    && |c.cash| == |b.cash| && |c.shares| == |b.shares| && |c.locked| == |b.locked|
    && c.Holdings() == b.Holdings()
    && (Balanced(b) ==> Balanced(c))
  }

  // ---------- token moves ----------

  function Debit(xs: seq<nat>, i: nat, n: nat): Result<seq<nat>> {
    if i < |xs| && n <= xs[i] then Ok(xs[i := xs[i] - n]) else Err(TransferRefused)
  }

  function Credit(xs: seq<nat>, i: nat, n: nat): Result<seq<nat>> {
    if i < |xs| then Ok(xs[i := xs[i] + n]) else Err(UnknownAccount)
  }

  function PayIn(b: Book, from: nat, n: nat): Result<Book> {
    var cash :- Debit(b.cash, from, n);
    Ok(b.(cash := cash, vault := b.vault + n))
  }

  function PayOut(b: Book, to: nat, n: nat): Result<Book> {
    var rest :- if n <= b.vault then Ok(b.vault - n) else Err(TransferRefused);
    var cash :- Credit(b.cash, to, n);
    Ok(b.(cash := cash, vault := rest))
  }

  function MintTo(b: Book, to: nat, n: nat): Result<Book> {
    var shares :- Credit(b.shares, to, n);
    Ok(b.(shares := shares))
  }

  function BurnFrom(b: Book, from: nat, n: nat): Result<Book> {
    var shares :- Debit(b.shares, from, n);
    Ok(b.(shares := shares))
  }

  /** Shares from an account into an obligation's vault, and back. */
  function Lock(b: Book, from: nat, o: nat, n: nat): Result<Book> {
    var shares :- Debit(b.shares, from, n);
    var locked :- Credit(b.locked, o, n);
    Ok(b.(shares := shares, locked := locked))
  }

  function Unlock(b: Book, to: nat, o: nat, n: nat): Result<Book> {
    var locked :- Debit(b.locked, o, n);
    var shares :- Credit(b.shares, to, n);
    Ok(b.(shares := shares, locked := locked))
  }

  lemma DebitSums(xs: seq<nat>, i: nat, n: nat)
    requires Debit(xs, i, n).Ok?
    ensures |Debit(xs, i, n).value| == |xs| && Sum(Debit(xs, i, n).value) + n == Sum(xs)
  {
    SumsDifferAt(xs, xs[i := xs[i] - n], i);
  }

  lemma CreditSums(xs: seq<nat>, i: nat, n: nat)
    requires Credit(xs, i, n).Ok?
    ensures |Credit(xs, i, n).value| == |xs| && Sum(Credit(xs, i, n).value) == Sum(xs) + n
  {
    SumsDifferAt(xs, xs[i := xs[i] + n], i);
  }

  // ---------- operations on one book ----------

  /** What anyone may do to one reserve and its tokens without a position. */
  datatype BookOp =
    | Crank
    | Configure(config: ReserveConfig)
    | SupplyTokens(who: nat, amount: u64)
    | RedeemShares(who: nat, shares: u64)
    | PayFees(to: nat)
    | MoveShares(from: nat, to: nat, n: nat)
    | MoveTokens(from: nat, to: nat, n: nat)
    | DonateTokens(from: nat, n: nat)
    | DestroyShares(who: nat, n: nat)

  function BookStep(b: Book, op: BookOp, slot: u64): Result<Book> {
    match op
    case Crank =>
      var r :- Accrued(b.reserve, slot);
      Ok(b.(reserve := r))
    case Configure(config) =>
      var _ :- Need(config.Valid(), InvalidConfig);
      Ok(b.(reserve := b.reserve.(config := config)))
    case SupplyTokens(who, amount) =>
      var s :- Supply(b.reserve, amount, slot);
      var paid :- PayIn(b.(reserve := s.reserve), who, amount);
      MintTo(paid, who, s.shares)
    case RedeemShares(who, shares) =>
      var s :- Redeem(b.reserve, shares, slot);
      var burnt :- BurnFrom(b.(reserve := s.reserve), who, shares);
      PayOut(burnt, who, s.liquidity)
    case PayFees(to) =>
      var s :- CollectFees(b.reserve, slot);
      PayOut(b.(reserve := s.reserve), to, s.liquidity)
    case MoveShares(from, to, n) =>
      var debited :- Debit(b.shares, from, n);
      var shares :- Credit(debited, to, n);
      Ok(b.(shares := shares))
    case MoveTokens(from, to, n) =>
      var debited :- Debit(b.cash, from, n);
      var cash :- Credit(debited, to, n);
      Ok(b.(cash := cash))
    case DonateTokens(from, n) =>
      var paid :- PayIn(b, from, n);
      Ok(paid.(donated := b.donated + n))
    case DestroyShares(who, n) =>
      var burnt :- BurnFrom(b, who, n);
      Ok(burnt.(burned := b.burned + n))
  }

  lemma AccrualNeverShrinks(r: ReserveState, slot: u64)
    requires Accrued(r, slot).Ok?
    ensures r.borrowIndex <= Accrued(r, slot).value.borrowIndex
  {
    hide ReserveState.GrownIndex, ReserveState.CurrentBorrowedAmount;
    if slot > r.lastUpdateSlot && r.borrowedPrincipal > 0 { IndexOnlyGrows(r, slot - r.lastUpdateSlot); }
  }

  lemma BookStepKeepsRecords(b: Book, op: BookOp, slot: u64)
    requires BookStep(b, op, slot).Ok?
    ensures var c := BookStep(b, op, slot).value;
      && c.locked == b.locked && c.reserve.borrowedPrincipal == b.reserve.borrowedPrincipal
      && c.reserve.borrowIndex >= b.reserve.borrowIndex
      && (b.reserve.config.Valid() ==> c.reserve.config.Valid())
  {
    hide Debit, Credit, ReserveState.LiquidityToShares, ReserveState.SharesToLiquidity, CheckSupplyCap,
      ReserveConfig.Valid, ReserveState.GrownIndex, ReserveState.CurrentBorrowedAmount;
    if op.Crank? { AccrualNeverShrinks(b.reserve, slot); }
  }

  lemma SupplyTokensConserves(b: Book, who: nat, amount: u64, slot: u64)
    requires BookStep(b, SupplyTokens(who, amount), slot).Ok?
    ensures Conserves(b, BookStep(b, SupplyTokens(who, amount), slot).value)
  {
    hide Sum, CheckSupplyCap, ReserveState.LiquidityToShares;
    DebitSums(b.cash, who, amount);
    CreditSums(b.shares, who, Supply(b.reserve, amount, slot).value.shares);
  }

  lemma RedeemSharesConserves(b: Book, who: nat, shares: u64, slot: u64)
    requires BookStep(b, RedeemShares(who, shares), slot).Ok?
    ensures Conserves(b, BookStep(b, RedeemShares(who, shares), slot).value)
  {
    hide Sum, ReserveState.SharesToLiquidity;
    DebitSums(b.shares, who, shares);
    CreditSums(b.cash, who, Redeem(b.reserve, shares, slot).value.liquidity);
  }

  /** No operation on a book loses a token, unbalances it, or touches what positions record. */
  lemma BookStepConserves(b: Book, op: BookOp, slot: u64)
    requires BookStep(b, op, slot).Ok?
    ensures var c := BookStep(b, op, slot).value;
      && Conserves(b, c)
      && c.locked == b.locked && c.reserve.borrowedPrincipal == b.reserve.borrowedPrincipal
      && c.reserve.borrowIndex >= b.reserve.borrowIndex
      && (b.reserve.config.Valid() ==> c.reserve.config.Valid())
  {
    BookStepKeepsRecords(b, op, slot);
    hide Sum, Supply, Redeem, ReserveConfig.Valid, ReserveState.GrownIndex, ReserveState.CurrentBorrowedAmount;
    match op
    case Crank =>
    case Configure(_) =>
    case SupplyTokens(who, amount) => SupplyTokensConserves(b, who, amount, slot);
    case RedeemShares(who, shares) => RedeemSharesConserves(b, who, shares, slot);
    case PayFees(to) => CreditSums(b.cash, to, CollectFees(b.reserve, slot).value.liquidity);
    case MoveShares(from, to, n) =>
      DebitSums(b.shares, from, n);
      CreditSums(Debit(b.shares, from, n).value, to, n);
    case MoveTokens(from, to, n) =>
      DebitSums(b.cash, from, n);
      CreditSums(Debit(b.cash, from, n).value, to, n);
    case DonateTokens(from, n) => DebitSums(b.cash, from, n);
    case DestroyShares(who, n) => DebitSums(b.shares, who, n);
  }

  /** The fees stay covered, and with shares outstanding the share price never falls. */
  lemma BookStepKeepsPrice(b: Book, op: BookOp, slot: u64)
    requires BookStep(b, op, slot).Ok? && Backed(b.reserve) && b.reserve.config.Valid()
    ensures var r := BookStep(b, op, slot).value.reserve;
      Backed(r) && (b.reserve.shareMintSupply > 0 ==> PriceKept(b.reserve, r))
  {
    match op
    case Crank => AccrualKeepsPrice(b.reserve, slot);
    case Configure(config) => SameSupplyKeepsPrice(b.reserve, b.reserve.(config := config));
    case SupplyTokens(_, amount) =>
      if b.reserve.shareMintSupply > 0 { SupplyKeepsPrice(b.reserve, amount, slot); }
    case RedeemShares(_, shares) => RedeemKeepsPrice(b.reserve, shares, slot);
    case PayFees(_) => CollectFeesKeepsPrice(b.reserve, slot);
    case _ => SameSupplyKeepsPrice(b.reserve, b.reserve);
  }

  /** A reserve that lends `paidOut`, or receives `amount`, moves with its vault. */
  lemma PayOutConserves(b: Book, r: ReserveState, to: nat, n: nat)
    requires PayOut(b.(reserve := r), to, n).Ok?
    requires r.availableLiquidity + n == b.reserve.availableLiquidity && r.shareMintSupply == b.reserve.shareMintSupply
    ensures Conserves(b, PayOut(b.(reserve := r), to, n).value)
  {
    hide Sum;
    CreditSums(b.cash, to, n);
  }

  lemma PayInConserves(b: Book, r: ReserveState, from: nat, n: nat)
    requires PayIn(b.(reserve := r), from, n).Ok?
    requires r.availableLiquidity == b.reserve.availableLiquidity + n && r.shareMintSupply == b.reserve.shareMintSupply
    ensures Conserves(b, PayIn(b.(reserve := r), from, n).value)
  {
    hide Sum;
    DebitSums(b.cash, from, n);
  }

  lemma LockConserves(b: Book, from: nat, o: nat, n: nat)
    requires Lock(b, from, o, n).Ok?
    ensures Conserves(b, Lock(b, from, o, n).value)
  {
    hide Sum;
    DebitSums(b.shares, from, n);
    CreditSums(b.locked, o, n);
  }

  lemma UnlockConserves(b: Book, to: nat, o: nat, n: nat)
    requires Unlock(b, to, o, n).Ok?
    ensures Conserves(b, Unlock(b, to, o, n).value)
  {
    hide Sum;
    DebitSums(b.locked, o, n);
    CreditSums(b.shares, to, n);
  }

  /** The vault of a balanced book is never the reason a payout fails. */
  lemma VaultIsNeverShort(b: Book, r: ReserveState, to: nat, n: nat)
    requires Balanced(b) && r.availableLiquidity + n == b.reserve.availableLiquidity
    ensures PayOut(b.(reserve := r), to, n).Ok? <==> to < |b.cash|
  {
  }
}
