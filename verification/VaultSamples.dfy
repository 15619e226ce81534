// Sample hashes and a sample vault for runs that show a property failing.
module VaultSamples {
  import opened Prelude
  import opened Crypto
  import opened Vault

  /** A commitment that is its nonce. */
  function PlainHashes(): Hashes {
    Hashes((x, y) => x, (lo, hi, amount, owner, nonce: Fr, blinding) => nonce,
           (tag, id: uint64, role: uint8) => id * 256 + role, (x, y) => x, (i, x, y) => x)
  }

  function EmptyVault(depth: nat, tee: Digest, owner: Digest): VaultState {
    VaultState(depth, tee, owner, [], map[], {}, {}, map[])
  }
}
