// The cryptographic primitives, as far as the programs see them.
//
// A 32-byte string is the big-endian number it encodes, so "all zero bytes" is 0 and
// "not a field element" is a comparison with the BN254 scalar modulus. The hash functions
// are parameters: nothing is assumed of them unless a lemma says so.
module Crypto {
  import opened Prelude

  const BN254_R: int :=
    21888242871839275222246405745257275088548364400416034343698204186575808495617

  type Digest = x: int | 0 <= x < 0x1_0000_0000_0000_0000_0000_0000_0000_0000_0000_0000_0000_0000_0000_0000_0000_0000
  type OrderId = x: int | 0 <= x < 0x1_0000_0000_0000_0000_0000_0000_0000_0000
  type Fr = x: int | 0 <= x < 21888242871839275222246405745257275088548364400416034343698204186575808495617

  const TWO_128: int := 0x1_0000_0000_0000_0000_0000_0000_0000_0000
  const TWO_244: int := 0x10_0000_0000_0000_0000_0000_0000_0000_0000_0000_0000_0000_0000_0000_0000_0000

  /** The two domain tags of the change-note derivation. */
  datatype DeriveTag = NonceTag | BlindTag

  datatype Hashes = Hashes(
    poseidon2: (Fr, Fr) -> Fr,
    poseidon6: (Fr, Fr, uint64, Fr, Fr, Fr) -> Fr,
    deriveSha: (DeriveTag, uint64, uint8) -> Digest,
    sha2: (Digest, Digest) -> Digest,
    inclusionSha: (uint64, Digest, Digest) -> Digest)

  const CHANGE_ROLE_BUYER: uint8 := 0xB1
  const CHANGE_ROLE_SELLER: uint8 := 0x5E
  const FEE_ROLE_BASE: uint8 := 0xFB
  const FEE_ROLE_QUOTE: uint8 := 0xFC

  /** The 16-byte halves of a pubkey, as `pubkey_to_fr_pair` splits it. */
  function MintLow(mint: Digest): Fr {
    mint % TWO_128
  }

  function MintHigh(mint: Digest): Fr {
    mint / TWO_128
  }

  /** `commitment_from_fields`: fails when one of the three field inputs is not in the field. */
  function CommitmentFromFields(hs: Hashes, mint: Digest, amount: uint64,
                                owner: Digest, nonce: Digest, blinding: Digest): Option<Fr>
  {
    if owner < BN254_R && nonce < BN254_R && blinding < BN254_R then
      Some(hs.poseidon6(MintLow(mint), MintHigh(mint), amount, owner, nonce, blinding))
    else
      None
  }

  /** `derive_nonce` / `derive_blinding`: clearing byte 0 and the top nibble of byte 1
      keeps the low 244 bits. */
  function Derive(hs: Hashes, tag: DeriveTag, id: uint64, role: uint8): Fr {
    hs.deriveSha(tag, id, role) % TWO_244
  }

  /** The commitment of a note minted by the matcher for `(id, role)`. */
  function DerivedNote(hs: Hashes, mint: Digest, amount: uint64, owner: Digest,
                       id: uint64, role: uint8): Option<Fr>
  {
    CommitmentFromFields(hs, mint, amount, owner, Derive(hs, NonceTag, id, role), Derive(hs, BlindTag, id, role))
  }
}
