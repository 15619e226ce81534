// The vault's instructions on the accounts themselves, each proved to do what its function in
// `Vault` says; an instruction that fails leaves the accounts as they were.
module VaultProgram {
  import opened Prelude
  import opened Crypto
  import opened VaultErrors
  import opened VaultTree
  import opened Vault

  lemma {:induction false} AppendStops(v: VaultState, leaves: seq<Digest>, k: nat, n: nat)
    requires k <= n <= |leaves| && AppendAll(v, leaves[..k]).Err?
    ensures AppendAll(v, leaves[..n]) == AppendAll(v, leaves[..k])
    decreases n
  {
    if k < n {
      AppendStops(v, leaves, k, n - 1);
      assert leaves[..n][..n - 1] == leaves[..n - 1];
    }
  }

  class VaultAccounts {
    const config: VaultConfig
    var teePubkey: Digest
    var protocolOwner: Digest
    var locks: map<Digest, NoteLock>
    var consumed: set<Digest>
    var nullifiers: set<Digest>
    var balances: map<Digest, uint64>

    ghost predicate Valid()
      reads this, config, config.roots, config.zeroSubtreeRoots, config.rightPath
    {
      config.Valid()
    }

    /** The contents of the accounts. */
    ghost function View(): VaultState
      reads this, config
    {
      VaultState(config.depth, teePubkey, protocolOwner, config.leaves, locks, consumed, nullifiers, balances)
    }

    /** `initialize`. */
    constructor (hs: Hashes, depth: nat, teePubkey: Digest)
      requires 1 <= depth <= 63
      ensures Valid() && config.hs == hs && fresh(config) && fresh(config.roots) && fresh(config.rightPath)
      ensures View() == VaultState(depth, teePubkey, 0, [], map[], {}, {}, map[])
    {
      config := new VaultConfig(hs, depth);
      this.teePubkey := teePubkey;
      protocolOwner := 0;
      locks, consumed, nullifiers, balances := map[], {}, {}, map[];
    }

    /** Appends in order; stops at the first failure. */
    method AppendLeaves(leaves: seq<Digest>) returns (r: Option<VaultError>)
      requires Valid()
      modifies config, config.roots, config.rightPath
      ensures Valid()
      ensures if r.Some? then AppendAll(old(View()), leaves) == Err(r.value) else AppendAll(old(View()), leaves) == Ok(View())
    {
      ghost var v := View();
      for k := 0 to |leaves|
        invariant Valid() && AppendAll(v, leaves[..k]) == Ok(View())
      {
        assert leaves[..k + 1][..k] == leaves[..k];
        var appended := config.AppendLeaf(leaves[k]);
        if appended.Err? {
          AppendStops(v, leaves, k + 1, |leaves|);
          assert leaves[..|leaves|] == leaves;
          return Some(appended.error);
        }
      }
      assert leaves[..|leaves|] == leaves;
      return None;
    }

    /** `deposit`; the token transfer is the change of balance. */
    method Deposit(mint: Digest, amount: uint64, owner: Digest, nonce: Digest, blinding: Digest) returns (r: Option<VaultError>)
      requires Valid()
      modifies this, config, config.roots, config.rightPath
      ensures Valid()
      ensures match Vault.Deposit(config.hs, old(View()), mint, amount, owner, nonce, blinding)
        case Ok(w) => r == None && View() == w
        case Err(e) => r == Some(e) && View() == old(View())
    {
      if amount == 0 { return Some(ZeroAmount); }
      var balance := if mint in balances then balances[mint] else 0;
      if balance + amount > U64_MAX { return Some(TokenTransferFailed); }
      var before := balances;
      balances := balances[mint := balance + amount];
      var c := CommitmentFromFields(config.hs, mint, amount, owner, nonce, blinding);
      if c.None? {
        balances := before;
        return Some(MalformedPublicInputs);
      }
      var appended := config.AppendLeaf(c.value);
      if appended.Err? {
        balances := before;
        return Some(appended.error);
      }
      return None;
    }

    /** `lock_note`. */
    method LockNote(note: Digest, orderId: OrderId, expiry: uint64, amount: uint64, authority: Digest, now: uint64)
      returns (r: Option<VaultError>)
      requires Valid()
      modifies this`locks
      ensures Valid()
      ensures match Vault.LockNote(old(View()), note, orderId, expiry, amount, authority, now)
        case Ok(w) => r == None && View() == w
        case Err(e) => r == Some(e) && View() == old(View())
    {
      if note in locks { return Some(NoteAlreadyLocked); }
      if authority != teePubkey { return Some(Unauthorized); }
      if expiry <= now { return Some(InvalidExpirySlot); }
      if amount == 0 { return Some(ZeroAmount); }
      locks := locks[note := NoteLock(orderId, expiry, authority, amount)];
      return None;
    }

    /** `release_lock`. */
    method ReleaseLock(note: Digest, now: uint64) returns (r: Option<VaultError>)
      requires Valid()
      modifies this`locks
      ensures Valid()
      ensures match Vault.ReleaseLock(old(View()), note, now)
        case Ok(w) => r == None && View() == w
        case Err(e) => r == Some(e) && View() == old(View())
    {
      if note !in locks { return Some(LockNotFound); }
      if now < locks[note].expiry { return Some(LockNotExpired); }
      locks := locks - {note};
      return None;
    }

    /** `withdraw`. */
    method Withdraw(note: Digest, nullifier: Digest, root: Digest, mint: Digest, amount: uint64, proofOk: bool)
      returns (r: Option<VaultError>)
      requires Valid()
      modifies this`nullifiers, this`balances
      ensures Valid()
      ensures match Vault.Withdraw(config.hs, old(View()), note, nullifier, root, mint, amount, proofOk)
        case Ok(w) => r == None && View() == w
        case Err(e) => r == Some(e) && View() == old(View())
    {
      if nullifier in nullifiers { return Some(NullifierAlreadySpent); }
      if amount == 0 { return Some(ZeroAmount); }
      if note in consumed { return Some(NoteAlreadyConsumed); }
      if note in locks { return Some(NoteAlreadyLocked); }
      var recent := config.ContainsRoot(root);
      if !recent { return Some(StaleMerkleRoot); }
      if !proofOk { return Some(InvalidProof); }
      var balance := if mint in balances then balances[mint] else 0;
      if balance < amount { return Some(TokenTransferFailed); }
      nullifiers := nullifiers + {nullifier};
      balances := balances[mint := balance - amount];
      return None;
    }

    /** `create_relock_pda`, when a re-lock is asked for. */
    method CreateRelock(note: Digest, orderId: OrderId, expiry: uint64, amount: uint64, authority: Digest) returns (r: Option<VaultError>)
      modifies this`locks
      ensures match Relock(old(View()), note, orderId, expiry, amount, authority)
        case Ok(w) => r == None && View() == w
        case Err(e) => r == Some(e)
    {
      if orderId == 0 { return None; }
      if note in locks { return Some(NoteAlreadyLocked); }
      locks := locks[note := NoteLock(orderId, expiry, authority, amount)];
      return None;
    }

    /** The appends of a settlement. */
    method AppendOutputs(p: Payload) returns (r: Option<VaultError>)
      requires Valid()
      modifies config, config.roots, config.rightPath
      ensures Valid()
      ensures if r.Some? then SettleAppends(old(View()), p) == Err(r.value) else SettleAppends(old(View()), p) == Ok(View())
    {
      r := AppendLeaves(TradeLeaves(p));
      if r.Some? { return; }
      if p.noteFee != 0 && protocolOwner == 0 { return Some(ProtocolOwnerUnset); }
      r := AppendLeaves(Optional(p.noteFee));
    }

    /** The account constraints of a settlement. */
    method CheckAccounts(p: Payload) returns (r: Option<VaultError>)
      ensures r == SettleAccounts(View(), p)
    {
      if p.noteA !in locks || p.noteB !in locks { return Some(LockNotFound); }
      if p.noteA in consumed || p.noteB in consumed || p.noteA == p.noteB { return Some(NoteAlreadyConsumed); }
      if p.nullifierA in nullifiers || p.nullifierB in nullifiers || p.nullifierA == p.nullifierB {
        return Some(NullifierAlreadySpent);
      }
      return None;
    }

    /** The handler's checks of the signed payload against the locks. */
    method CheckPayload(p: Payload, authority: Digest, signed: bool) returns (r: Option<VaultError>)
      requires p.noteA in locks && p.noteB in locks
      ensures r == SettleChecks(View(), p, authority, signed)
    {
      if authority != teePubkey { return Some(Unauthorized); }
      if !signed { return Some(InvalidTeeSignature); }
      var a, b := locks[p.noteA], locks[p.noteB];
      if a.orderId != p.orderA { return Some(NoteNotLockedForOrder); }
      if b.orderId != p.orderB { return Some(NoteNotLockedForOrder); }
      r := Conserves(a, p.quote, p.buyerChange, p.buyerFee);
      if r.Some? { return; }
      r := Conserves(b, p.base, p.sellerChange, p.sellerFee);
      if r.Some? { return; }
      if (p.noteE != 0) != (p.buyerChange > 0) { return Some(ChangeNoteInconsistent); }
      if (p.noteF != 0) != (p.sellerChange > 0) { return Some(ChangeNoteInconsistent); }
      if p.buyerRelock != 0 && p.noteE == 0 { return Some(RelockRequiresChangeNote); }
      if p.sellerRelock != 0 && p.noteF == 0 { return Some(RelockRequiresChangeNote); }
      return None;
    }

    /** `tee_forced_settle_handler`: when it fails, what it has written is discarded by the runtime. */
    method SettleHandler(p: Payload, authority: Digest, signed: bool) returns (r: Option<VaultError>)
      requires Valid()
      modifies this, config, config.roots, config.rightPath
      ensures Valid()
      ensures match Vault.Settle(old(View()), p, authority, signed)
        case Ok(w) => r == None && View() == w
        case Err(e) => r == Some(e)
    {
      r := CheckAccounts(p);
      if r.Some? { return; }
      r := CheckPayload(p, authority, signed);
      if r.Some? { return; }
      consumed := consumed + {p.noteA, p.noteB};
      nullifiers := nullifiers + {p.nullifierA, p.nullifierB};
      r := AppendOutputs(p);
      if r.Some? { return; }
      r := CreateRelock(p.noteE, p.buyerRelock, p.buyerRelockExpiry, p.buyerChange, authority);
      if r.Some? { return; }
      r := CreateRelock(p.noteF, p.sellerRelock, p.sellerRelockExpiry, p.sellerChange, authority);
      if r.Some? { return; }
      locks := locks - {p.noteA, p.noteB};
      return None;
    }

    /** `tee_forced_settle` as a transaction: all of it, or nothing. */
    method Settle(p: Payload, authority: Digest, signed: bool) returns (r: Option<VaultError>)
      requires Valid()
      modifies this, config, config.roots, config.rightPath
      ensures Valid()
      ensures match Vault.Settle(old(View()), p, authority, signed)
        case Ok(w) => r == None && View() == w
        case Err(e) => r == Some(e) && View() == old(View()) && config.Tree() == old(config.Tree())
    {
      var saved := config.Tree();
      ghost var savedLeaves := config.leaves;
      var owner, key := protocolOwner, teePubkey;
      var savedLocks, savedConsumed, savedNullifiers, savedBalances := locks, consumed, nullifiers, balances;
      r := SettleHandler(p, authority, signed);
      if r.Some? {
        config.Restore(saved, savedLeaves);
        protocolOwner, teePubkey := owner, key;
        locks, consumed, nullifiers, balances := savedLocks, savedConsumed, savedNullifiers, savedBalances;
      }
    }
  }
}
