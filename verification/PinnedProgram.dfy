/** The accounts a price source is read from (oracle/validation.rs), and the deployment of the
program behind them (oracle/deployment.rs). */
module PinnedProgram {
  import opened Wrappers
  import opened FixedPoint
  import opened Bytes
  import opened StakePool

  /** An account as an instruction is handed it. */
  datatype Account = Account(key: Pubkey, owner: Pubkey, writable: bool, lamports: u64, data: Blob)

  /** The configured account, owned by the configured program, passed read-only and alive. */
  function RequireSource(a: Account, key: Pubkey, owner: Pubkey): Result<()> {
    var _ :- Need(a.key == key, OracleAccountMismatch);
    var _ :- Need(a.owner == owner, OracleOwnerMismatch);
    var _ :- Need(!a.writable, OracleAccountMalformed);
    Need(a.lamports > 0, OracleAccountMalformed)
  }

  // ---------- the loader's header ----------

  const HEADER_LEN: nat := 45
  const PROGRAM_DATA_VARIANT: u8 := 3

  /** The upgradeable loader's own id, BPFLoaderUpgradeab1e11111111111111111111111, read as a
      little-endian number. */
  function LoaderKey(): Pubkey {
    LeBytes(0x8004_107a_53c0_d224_c116_3db9_c200_2bae_63f7_3e15_10e2_b0a1_884e_91f6_a802, 32)
  }

  /** A deployment of the source program; the zero key is no upgrade authority. */
  datatype Deployment = Deployment(slot: u64, upgradeAuthority: Pubkey)

  /** `address` is the one the loader derives from the program's id. */
  function ReadDeployment(a: Account, address: Pubkey): Result<Deployment> {
    var _ :- Need(a.key == address && a.owner == LoaderKey() && |a.data| >= HEADER_LEN, OracleProgramDataMismatch);
    var _ :- Need(LeValue(a.data[..4]) == PROGRAM_DATA_VARIANT, OracleProgramDataMismatch);
    ValueFits(a.data[4..12]);
    EightBytes();
    var slot, authority := LeValue(a.data[4..12]), a.data[13..45];
    if a.data[12] == 0 then Ok(Deployment(slot, ZeroKey()))
    else if a.data[12] == 1 && authority != ZeroKey() then Ok(Deployment(slot, authority))
    else Err(OracleProgramDataMismatch)
  }

  /** What the loader writes before a program's code. */
  function Header(d: Deployment): Blob {
    LeBytes(PROGRAM_DATA_VARIANT, 4) + LeBytes(d.slot, 8)
    + if d.upgradeAuthority == ZeroKey() then [0] else [1] + d.upgradeAuthority
  }

  /** A deployment is read exactly from the loader's account for the program that begins with
      its header. */
  lemma ReadsExactlyHeaders(a: Account, address: Pubkey, d: Deployment)
    ensures ReadDeployment(a, address) == Ok(d) <==>
      a.key == address && a.owner == LoaderKey() && |a.data| >= HEADER_LEN && Header(d) <= a.data
  {
    hide LoaderKey, ZeroKey, LeValue, LeBytes;
    if |a.data| >= HEADER_LEN {
      CutHeader(a.data, d);
      NumberAt(a.data[..4], PROGRAM_DATA_VARIANT);
      NumberAt(a.data[4..12], d.slot);
    }
  }

  lemma NumberAt(bytes: Blob, n: nat)
    requires n < Pow256(|bytes|)
    ensures LeValue(bytes) == n <==> bytes == LeBytes(n, |bytes|)
  {
    ValueOfBytes(n, |bytes|);
    BytesOfValue(bytes);
  }

  lemma CutHeader(data: Blob, d: Deployment)
    requires |data| >= HEADER_LEN
    ensures Pow256(4) > PROGRAM_DATA_VARIANT && Pow256(8) > d.slot
    ensures Header(d) <= data <==>
      && data[..4] == LeBytes(PROGRAM_DATA_VARIANT, 4) && data[4..12] == LeBytes(d.slot, 8)
      && if d.upgradeAuthority == ZeroKey() then data[12] == 0 else data[12] == 1 && data[13..45] == d.upgradeAuthority
  {
    EightBytes();
    assert Pow256(4) == 0x1_0000_0000;
    hide LeBytes, Pow256, ZeroKey;
    var h, k := Header(d), d.upgradeAuthority;
    assert h[..4] == LeBytes(PROGRAM_DATA_VARIANT, 4) && h[4..12] == LeBytes(d.slot, 8);
    if k == ZeroKey() {
      assert data[..13] == data[..4] + data[4..12] + [data[12]];
      assert h <= data <==> h == data[..13];
    } else {
      assert h[13..45] == k;
      assert data[..45] == data[..4] + data[4..12] + ([data[12]] + data[13..45]);
      assert h <= data <==> h == data[..45];
    }
  }

  // ---------- the pin ----------

  /** The pinned deployment: the same slot, and the same authority unless it was given up. */
  function VerifyMatchesPin(observed: Deployment, pin: Deployment): Result<()> {
    var _ :- Need(observed.slot == pin.slot, OracleProgramUpgraded);
    Need(observed.upgradeAuthority == pin.upgradeAuthority || observed.upgradeAuthority == ZeroKey(),
         OracleAuthorityChanged)
  }

  /** Accepting a deployment makes it as good a pin: whatever matches it matched before, so no
      chain of accepted deployments ends at a redeploy or a new authority. */
  lemma PinOnlyTightens(pin: Deployment, observed: Deployment, later: Deployment)
    requires VerifyMatchesPin(observed, pin).Ok? && VerifyMatchesPin(later, observed).Ok?
    ensures VerifyMatchesPin(later, pin).Ok? && later.slot == pin.slot
    ensures observed.upgradeAuthority == ZeroKey() ==> later.upgradeAuthority == ZeroKey()
  {
  }
}
