/** Integer money arithmetic: machine widths, checked operations and the two rounding
directions (math.rs). `FloorDiv` and `CeilDiv` are the exact quotients; the `MulDiv*`
functions are the program's, which fail instead of leaving 128 bits. */
module FixedPoint {
  import opened Wrappers

  const U64_MAX: nat := 0xFFFF_FFFF_FFFF_FFFF
  const U128_MAX: nat := 0xFFFF_FFFF_FFFF_FFFF_FFFF_FFFF_FFFF_FFFF

  type u8 = x: nat | x < 0x100
  type u16 = x: nat | x < 0x1_0000
  type u64 = x: nat | x <= 0xFFFF_FFFF_FFFF_FFFF
  type u128 = x: nat | x <= 0xFFFF_FFFF_FFFF_FFFF_FFFF_FFFF_FFFF_FFFF

  /** Fixed-point one: indexes, rates and values carry this factor. */
  const SCALE: nat := 1_000_000_000_000_000_000
  const BPS: nat := 10_000

  datatype Rounding = Down | Up

  function Min(a: nat, b: nat): nat { if a <= b then a else b }

  function Max(a: nat, b: nat): nat { if a >= b then a else b }

  function SaturatingSub(a: nat, b: nat): nat { if a >= b then a - b else 0 }

  function FloorDiv(n: nat, d: nat): (q: nat)
    requires d > 0
    ensures q * d <= n < q * d + d
  {
    n / d
  }

  function CeilDiv(n: nat, d: nat): (q: nat)
    requires d > 0
    ensures n <= q * d < n + d
  {
    (n + d - 1) / d
  }

  /** q is a * b / d rounded down, which only one number is. */
  predicate IsFloor(q: nat, a: nat, b: nat, d: nat) { q * d <= a * b < q * d + d }

  /** q is a * b / d rounded up. */
  predicate IsCeil(q: nat, a: nat, b: nat, d: nat) { a * b <= q * d < a * b + d }

  function Floored(a: nat, b: nat, d: nat): (q: nat)
    requires d > 0
    ensures IsFloor(q, a, b, d)
  {
    FloorDiv(a * b, d)
  }

  function Ceiled(a: nat, b: nat, d: nat): (q: nat)
    requires d > 0
    ensures IsCeil(q, a, b, d)
  {
    CeilDiv(a * b, d)
  }

  function ToU64(n: nat): Result<u64> {
    if n <= U64_MAX then Ok(n) else Err(MathOverflow)
  }

  function ToU128(n: nat): Result<u128> {
    if n <= U128_MAX then Ok(n) else Err(MathOverflow)
  }

  function CheckedSub(a: nat, b: nat): Result<nat> {
    if b <= a then Ok(a - b) else Err(MathOverflow)
  }

  function MulDivFloor(a: nat, b: nat, d: nat): Result<u128> {
    if d == 0 || a * b > U128_MAX then Err(MathOverflow)
    else QuotientFits(a * b, d); Ok(FloorDiv(a * b, d))
  }

  function MulDivCeil(a: nat, b: nat, d: nat): Result<u128> {
    if d == 0 || a * b + (d - 1) > U128_MAX then Err(MathOverflow)
    else QuotientFits(a * b, d); Ok(CeilDiv(a * b, d))
  }

  function MulDiv(a: nat, b: nat, d: nat, rounding: Rounding): Result<u128> {
    match rounding
    case Down => MulDivFloor(a, b, d)
    case Up => MulDivCeil(a, b, d)
  }

  function Pow10(e: nat): (p: nat)
    ensures p > 0
  {
    if e == 0 then 1 else 10 * Pow10(e - 1)
  }

  function TenPow(e: nat): Result<u128> {
    ToU128(Pow10(e))
  }

  /** Scaled value of `amount` base units at `price`. */
  function MarketValue(amount: nat, decimals: u8, price: nat, rounding: Rounding): Result<u128> {
    var divisor :- TenPow(decimals);
    MulDiv(amount, price, divisor, rounding)
  }

  /** How many base units `value` buys at `price`. */
  function ValueToAmount(value: nat, decimals: u8, price: nat, rounding: Rounding): Result<u64> {
    var multiplier :- TenPow(decimals);
    var amount :- MulDiv(value, multiplier, price, rounding);
    ToU64(amount)
  }

  // ---------- laws of the two quotients ----------

  lemma MulMono(a: nat, b: nat, c: nat)
    requires a <= b
    ensures a * c <= b * c
  {
  }

  lemma QuotientFits(n: nat, d: nat)
    requires d > 0
    ensures FloorDiv(n, d) <= n && CeilDiv(n, d) <= n + (d - 1)
  {
    MulMono(1, d, FloorDiv(n, d));
    MulMono(1, d, CeilDiv(n, d));
  }

  /** `FloorDiv(n, d)` is the largest q with q * d <= n. */
  lemma FloorIsLargest(q: nat, n: nat, d: nat)
    requires d > 0
    ensures q * d <= n <==> q <= FloorDiv(n, d)
  {
    var f := FloorDiv(n, d);
    if q <= f { MulMono(q, f, d); } else { MulMono(f + 1, q, d); }
  }

  /** `CeilDiv(n, d)` is the smallest q with n <= q * d. */
  lemma CeilIsSmallest(q: nat, n: nat, d: nat)
    requires d > 0
    ensures n <= q * d <==> CeilDiv(n, d) <= q
  {
    var c := CeilDiv(n, d);
    if c <= q { MulMono(c, q, d); } else { MulMono(q + 1, c, d); }
  }

  lemma FloorMono(m: nat, n: nat, d: nat)
    requires d > 0 && m <= n
    ensures FloorDiv(m, d) <= FloorDiv(n, d)
  {
    FloorIsLargest(FloorDiv(m, d), n, d);
  }

  lemma CeilMono(m: nat, n: nat, d: nat)
    requires d > 0 && m <= n
    ensures CeilDiv(m, d) <= CeilDiv(n, d)
  {
    CeilIsSmallest(CeilDiv(n, d), m, d);
  }

  /** Rounding sums: a floor gains, and a ceiling loses, at most one unit per split. */
  lemma FloorOfSum(m: nat, n: nat, d: nat)
    requires d > 0
    ensures FloorDiv(m, d) + FloorDiv(n, d) <= FloorDiv(m + n, d) <= FloorDiv(m, d) + FloorDiv(n, d) + 1
  {
    var a, b, c := FloorDiv(m, d), FloorDiv(n, d), FloorDiv(m + n, d);
    assert (a + b) * d == a * d + b * d;
    FloorIsLargest(a + b, m + n, d);
    assert (a + b + 2) * d == a * d + b * d + d + d;
    FloorIsLargest(a + b + 2, m + n, d);
  }

  lemma CeilOfSum(m: nat, n: nat, d: nat)
    requires d > 0
    ensures CeilDiv(m + n, d) <= CeilDiv(m, d) + CeilDiv(n, d) <= CeilDiv(m + n, d) + 1
  {
    var a, b, c := CeilDiv(m, d), CeilDiv(n, d), CeilDiv(m + n, d);
    assert (a + b) * d == a * d + b * d;
    CeilIsSmallest(a + b, m + n, d);
    assert (c + 2) * d == c * d + d + d;
    if a + b > c + 1 { MulMono(c + 2, a + b, d); }
  }

  /** Whole multiples of the divisor pass through a ceiling unrounded. */
  lemma CeilOfWhole(n: nat, k: nat, d: nat)
    requires d > 0
    ensures CeilDiv(n + k * d, d) == CeilDiv(n, d) + k
  {
    var a, c := CeilDiv(n, d), CeilDiv(n + k * d, d);
    assert (a + k) * d == a * d + k * d;
    CeilIsSmallest(a + k, n + k * d, d);
    assert (c + 1) * d == c * d + d;
    if c < a + k { MulMono(c + 1, a + k, d); }
  }

  /** Subtracting a ceiling never leaves more than the floor of the difference. */
  lemma FloorOfDifference(m: nat, n: nat, d: nat)
    requires d > 0
    ensures FloorDiv(m, d) <= FloorDiv(SaturatingSub(m, n), d) + CeilDiv(n, d)
  {
    var f, c := FloorDiv(SaturatingSub(m, n), d), CeilDiv(n, d);
    assert (f + c + 1) * d == f * d + c * d + d;
    FloorIsLargest(f + c + 1, m, d);
  }

  lemma WholeQuotient(value: nat, d: nat)
    requires d > 0
    ensures FloorDiv(value * d, d) == value
  {
    FloorIsLargest(value, value * d, d);
    FloorIsLargest(value + 1, value * d, d);
  }
}
