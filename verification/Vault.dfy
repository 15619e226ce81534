// The vault's instructions as functions on its accounts. Every instruction is a transaction: it
// either returns the new state or an error that leaves everything as it was.
module Vault {
  import opened Prelude
  import opened Crypto
  import opened MerkleTree
  import opened VaultErrors
  import opened VaultTree

  datatype NoteLock = NoteLock(orderId: OrderId, expiry: uint64, lockedBy: Digest, amount: uint64)

  /** The vault's accounts: records that exist per key are maps and sets. */
  datatype VaultState = VaultState(
    depth: nat,
    teePubkey: Digest,
    protocolOwner: Digest,
    leaves: seq<Fr>,
    locks: map<Digest, NoteLock>,
    consumed: set<Digest>,
    nullifiers: set<Digest>,
    balances: map<Digest, uint64>)
  {
    function Balance(mint: Digest): uint64 {
      if mint in balances then balances[mint] else 0
    }
  }

  /** `MatchResultPayload`. */
  datatype Payload = Payload(
    matchId: OrderId,
    noteA: Digest,
    noteB: Digest,
    noteC: Digest,
    noteD: Digest,
    noteE: Digest,
    noteF: Digest,
    nullifierA: Digest,
    nullifierB: Digest,
    orderA: OrderId,
    orderB: OrderId,
    base: uint64,
    quote: uint64,
    buyerChange: uint64,
    sellerChange: uint64,
    buyerFee: uint64,
    sellerFee: uint64,
    noteFee: Digest,
    buyerRelock: OrderId,
    buyerRelockExpiry: uint64,
    sellerRelock: OrderId,
    sellerRelockExpiry: uint64,
    price: uint64,
    batchSlot: uint64)

  function Append(v: VaultState, leaf: Digest): Result<VaultState, VaultError> {
    if |v.leaves| >= Pow2(v.depth) then Err(MerkleTreeFull)
    else if leaf >= BN254_R then Err(InvalidProof)
    else Ok(v.(leaves := v.leaves + [leaf]))
  }

  /** Appends in order, failing at the first leaf that cannot be added. */
  function AppendAll(v: VaultState, leaves: seq<Digest>): Result<VaultState, VaultError> {
    if leaves == [] then Ok(v)
    else
      var w :- AppendAll(v, leaves[..|leaves| - 1]);
      Append(w, leaves[|leaves| - 1])
  }

  ghost predicate AllInField(leaves: seq<Digest>) {
    forall i :: 0 <= i < |leaves| ==> leaves[i] < BN254_R
  }

  /** Appends succeed exactly when there is room and every leaf is a field element, and then add
      the leaves and change nothing else. */
  lemma {:induction false} AppendAllFacts(v: VaultState, leaves: seq<Digest>)
    requires |v.leaves| <= Pow2(v.depth)
    ensures AppendAll(v, leaves).Ok? <==> |v.leaves| + |leaves| <= Pow2(v.depth) && AllInField(leaves)
    ensures AppendAll(v, leaves).Ok? ==> AllInField(leaves) && AppendAll(v, leaves).value == v.(leaves := v.leaves + leaves)
  {
    if leaves != [] {
      var t := leaves[..|leaves| - 1];
      AppendAllFacts(v, t);
      assert leaves == t + [leaves[|leaves| - 1]];
      if AppendAll(v, t).Ok? {
        assert v.leaves + leaves == (v.leaves + t) + [leaves[|leaves| - 1]];
      }
    }
  }

  // ---------- tee_forced_settle ----------

  /** The checks Anchor makes on the accounts before the handler runs: both locks exist, neither
      note is consumed, neither nullifier is spent, and the two of each kind differ. */
  function SettleAccounts(v: VaultState, p: Payload): Option<VaultError> {
    if p.noteA !in v.locks || p.noteB !in v.locks then Some(LockNotFound)
    else if p.noteA in v.consumed || p.noteB in v.consumed || p.noteA == p.noteB then Some(NoteAlreadyConsumed)
    else if p.nullifierA in v.nullifiers || p.nullifierB in v.nullifiers || p.nullifierA == p.nullifierB
      then Some(NullifierAlreadySpent)
    else None
  }

  /** One side of the conservation law: escrow equals trade leg, change and fee. */
  function Conserves(lock: NoteLock, leg: uint64, change: uint64, fee: uint64): Option<VaultError> {
    if leg + change + fee > U64_MAX then Some(ArithmeticOverflow)
    else if lock.amount != leg + change + fee then Some(ConservationViolation)
    else None
  }

  /** The handler's own checks, in order. */
  function SettleChecks(v: VaultState, p: Payload, authority: Digest, signed: bool): Option<VaultError>
    requires p.noteA in v.locks && p.noteB in v.locks
  {
    var a, b := v.locks[p.noteA], v.locks[p.noteB];
    if authority != v.teePubkey then Some(Unauthorized)
    else if !signed then Some(InvalidTeeSignature)
    else if a.orderId != p.orderA || b.orderId != p.orderB then Some(NoteNotLockedForOrder)
    else if Conserves(a, p.quote, p.buyerChange, p.buyerFee).Some? then Conserves(a, p.quote, p.buyerChange, p.buyerFee)
    else if Conserves(b, p.base, p.sellerChange, p.sellerFee).Some? then Conserves(b, p.base, p.sellerChange, p.sellerFee)
    else if (p.noteE != 0) != (p.buyerChange > 0) || (p.noteF != 0) != (p.sellerChange > 0) then Some(ChangeNoteInconsistent)
    else if (p.buyerRelock != 0 && p.noteE == 0) || (p.sellerRelock != 0 && p.noteF == 0) then Some(RelockRequiresChangeNote)
    else None
  }

  function Optional(leaf: Digest): seq<Digest> {
    if leaf != 0 then [leaf] else []
  }

  /** The trade notes and the change notes that exist. */
  function TradeLeaves(p: Payload): seq<Digest> {
    [p.noteC, p.noteD] + Optional(p.noteE) + Optional(p.noteF)
  }

  /** Every leaf a settlement appends, in order. */
  function SettledLeaves(p: Payload): seq<Digest> {
    TradeLeaves(p) + Optional(p.noteFee)
  }

  /** The appends: trade notes, change notes, then the fee note, which needs a protocol owner. */
  function SettleAppends(v: VaultState, p: Payload): Result<VaultState, VaultError> {
    var w :- AppendAll(v, TradeLeaves(p));
    if p.noteFee != 0 && v.protocolOwner == 0 then Err(ProtocolOwnerUnset)
    else AppendAll(w, Optional(p.noteFee))
  }

  /** `create_relock_pda`, when a re-lock is asked for. */
  function Relock(v: VaultState, note: Digest, orderId: OrderId, expiry: uint64, amount: uint64, authority: Digest): Result<VaultState, VaultError> {
    if orderId == 0 then Ok(v)
    else if note in v.locks then Err(NoteAlreadyLocked)
    else Ok(v.(locks := v.locks[note := NoteLock(orderId, expiry, authority, amount)]))
  }

  /** `tee_forced_settle`: the input locks close when the instruction ends. */
  function Settle(v: VaultState, p: Payload, authority: Digest, signed: bool): Result<VaultState, VaultError> {
    if SettleAccounts(v, p).Some? then Err(SettleAccounts(v, p).value)
    else if SettleChecks(v, p, authority, signed).Some? then Err(SettleChecks(v, p, authority, signed).value)
    else
      var marked := v.(consumed := v.consumed + {p.noteA, p.noteB}, nullifiers := v.nullifiers + {p.nullifierA, p.nullifierB});
      var grown :- SettleAppends(marked, p);
      var relockedE :- Relock(grown, p.noteE, p.buyerRelock, p.buyerRelockExpiry, p.buyerChange, authority);
      var relockedF :- Relock(relockedE, p.noteF, p.sellerRelock, p.sellerRelockExpiry, p.sellerChange, authority);
      Ok(relockedF.(locks := relockedF.locks - {p.noteA, p.noteB}))
  }

  // ---------- the other instructions ----------

  function Deposit(hs: Hashes, v: VaultState, mint: Digest, amount: uint64,
                   owner: Digest, nonce: Digest, blinding: Digest): Result<VaultState, VaultError>
  {
    if amount == 0 then Err(ZeroAmount)
    else if v.Balance(mint) + amount > U64_MAX then Err(TokenTransferFailed)
    else
      var c := CommitmentFromFields(hs, mint, amount, owner, nonce, blinding);
      if c.None? then Err(MalformedPublicInputs)
      else
        var w :- Append(v, c.value);
        Ok(w.(balances := w.balances[mint := v.Balance(mint) + amount]))
  }

  function LockNote(v: VaultState, note: Digest, orderId: OrderId, expiry: uint64, amount: uint64,
                    authority: Digest, now: uint64): Result<VaultState, VaultError>
  {
    if note in v.locks then Err(NoteAlreadyLocked)
    else if authority != v.teePubkey then Err(Unauthorized)
    else if expiry <= now then Err(InvalidExpirySlot)
    else if amount == 0 then Err(ZeroAmount)
    else Ok(v.(locks := v.locks[note := NoteLock(orderId, expiry, authority, amount)]))
  }

  function ReleaseLock(v: VaultState, note: Digest, now: uint64): Result<VaultState, VaultError> {
    if note !in v.locks then Err(LockNotFound)
    else if now < v.locks[note].expiry then Err(LockNotExpired)
    else Ok(v.(locks := v.locks - {note}))
  }

  /** `withdraw`; `proofOk` is the Groth16 verifier's answer on (root, nullifier, mint, amount). */
  ghost function Withdraw(hs: Hashes, v: VaultState, note: Digest, nullifier: Digest, root: Digest,
                          mint: Digest, amount: uint64, proofOk: bool): Result<VaultState, VaultError>
  {
    if nullifier in v.nullifiers then Err(NullifierAlreadySpent)
    else if amount == 0 then Err(ZeroAmount)
    else if note in v.consumed then Err(NoteAlreadyConsumed)
    else if note in v.locks then Err(NoteAlreadyLocked)
    else if !AcceptedRoot(hs, v.depth, v.leaves, root) then Err(StaleMerkleRoot)
    else if !proofOk then Err(InvalidProof)
    else if v.Balance(mint) < amount then Err(TokenTransferFailed)
    else
      Ok(v.(nullifiers := v.nullifiers + {nullifier}, balances := v.balances[mint := v.Balance(mint) - amount]))
  }

  // ---------- what a settlement does ----------

  /** The appends fail exactly when the tree has no room, a leaf is outside the field, or a fee note
      comes without a protocol owner; otherwise they add the leaves in order and nothing else. */
  lemma AppendsFacts(v: VaultState, p: Payload)
    requires |v.leaves| <= Pow2(v.depth)
    ensures SettleAppends(v, p).Ok? <==>
      && |v.leaves| + |SettledLeaves(p)| <= Pow2(v.depth)
      && AllInField(SettledLeaves(p))
      && (p.noteFee != 0 ==> v.protocolOwner != 0)
    ensures SettleAppends(v, p).Ok? ==> SettleAppends(v, p).value == v.(leaves := v.leaves + SettledLeaves(p))
  {
    var t, fee := TradeLeaves(p), Optional(p.noteFee);
    AppendAllFacts(v, t);
    if AppendAll(v, t).Ok? {
      AppendAllFacts(AppendAll(v, t).value, fee);
      assert (v.leaves + t) + fee == v.leaves + (t + fee);
    }
    assert AllInField(t + fee) ==> AllInField(t) && AllInField(fee) by {
      assert t == (t + fee)[..|t|] && fee == (t + fee)[|t|..];
    }
  }
}
