// Withdrawals against locked notes: `withdraw` looks up its lock and consumed records under a note
// commitment the proof does not speak of, so the owner of a locked note can spend it. Matches that
// need the note are then refused; this is exactly when.
module Withdrawals {
  import opened Prelude
  import opened Crypto
  import opened MerkleTree
  import opened Orders
  import opened Matching
  import opened VaultTree
  import opened Vault
  import opened VaultSamples
  import opened Settleability
  import opened SettlementBatches
  import opened SettlementFrames
  import opened SettlementRuns

  /** A note with nullifier `nullifier` that is locked can be withdrawn under the commitment `other` of
      a note that is neither locked nor consumed. The lock stays, and every settlement that consumes
      the locked note under its nullifier is refused from then on. */
  lemma WithdrawnWhileLocked(hs: Hashes, v: VaultState, locked: Digest, other: Digest, nullifier: Digest, root: Digest, mint: Digest, amount: uint64)
    requires locked in v.locks && other !in v.locks && other !in v.consumed && nullifier !in v.nullifiers
    requires 0 < amount <= v.Balance(mint) && AcceptedRoot(hs, v.depth, v.leaves, root)
    ensures Withdraw(hs, v, other, nullifier, root, mint, amount, true).Ok?
    ensures
      var w := Withdraw(hs, v, other, nullifier, root, mint, amount, true).value;
      && locked in w.locks && w.locks[locked] == v.locks[locked]
      && (forall p: Payload, key: Digest, signed: bool :: p.noteA == locked && p.nullifierA == nullifier ==> Settle(w, p, key, signed).Err?)
  {
  }

  /** It happens: a deposited and locked note is withdrawn under the commitment 7, which names nothing. */
  lemma WithdrawalOfLockedNoteIsReached()
    ensures
      var hs, v0 := PlainHashes(), EmptyVault(4, 9, 0);
      var v1 := Deposit(hs, v0, 1, 5, 0, 12, 0);
      v1.Ok? &&
      var v2 := LockNote(v1.value, 12, 3, 100, 5, 9, 0);
      v2.Ok? && 12 in v2.value.locks &&
      var v3 := Withdraw(hs, v2.value, 7, 33, RootOf(hs, 4, [12]), 1, 5, true);
      v3.Ok? && 12 in v3.value.locks &&
      (forall p: Payload, key: Digest, signed: bool :: p.noteA == 12 && p.nullifierA == 33 ==> Settle(v3.value, p, key, signed).Err?)
  {
    var hs, v0 := PlainHashes(), EmptyVault(4, 9, 0);
    assert Pow2(4) > 0;
    var v1 := Deposit(hs, v0, 1, 5, 0, 12, 0).value;
    assert v1.leaves == [12] && v1.Balance(1) == 5;
    var v2 := LockNote(v1, 12, 3, 100, 5, 9, 0).value;
    WithdrawnWhileLocked(hs, v2, 12, 7, 33, RootOf(hs, 4, [12]), 1, 5);
  }

  /** A successful withdrawal keeps every resting order's note pledged exactly when its nullifier
      belongs to none of them. */
  lemma PledgesSurviveExactly(hs: Hashes, tee: Tee, v: VaultState, slots: seq<PendingOrder>, clock: uint64,
                              note: Digest, nullifier: Digest, root: Digest, mint: Digest, amount: uint64, proofOk: bool)
    requires forall i :: 0 <= i < |slots| && LiveSlot(slots[i], clock) ==> SlotPledged(tee, v, slots[i])
    requires Withdraw(hs, v, note, nullifier, root, mint, amount, proofOk).Ok?
    ensures
      var w := Withdraw(hs, v, note, nullifier, root, mint, amount, proofOk).value;
      (forall i :: 0 <= i < |slots| && LiveSlot(slots[i], clock) ==> SlotPledged(tee, w, slots[i])) <==>
      (forall i :: 0 <= i < |slots| && LiveSlot(slots[i], clock) ==> tee.nullifier(slots[i].note) != nullifier)
  {
    var w := Withdraw(hs, v, note, nullifier, root, mint, amount, proofOk).value;
    forall i | 0 <= i < |slots| && LiveSlot(slots[i], clock)
      ensures SlotPledged(tee, w, slots[i]) <==> tee.nullifier(slots[i].note) != nullifier
    {
      assert SlotPledged(tee, v, slots[i]);
    }
  }

  /** A spent nullifier is refused by the match that needs it, wherever it stands in the queue. */
  lemma SpentIsRefused(v: VaultState, tee: Tee, fills: seq<Fill>, j: nat, note: Digest)
    requires NullifiersInjective(tee) && |v.leaves| <= Pow2(v.depth)
    requires j < |fills| && Consumes(fills[j], note) && tee.nullifier(note) in v.nullifiers
    ensures SettleAll(v, tee, fills).Err?
  {
    if SettleAll(v, tee, fills).Ok? {
      NextSettles(v, tee, fills, j);
      NullifierHistory(v, tee, fills[..j], note);
      SettleAllGrows(v, tee, fills[..j]);
      SettleShape(tee, SettleAll(v, tee, fills[..j]).value, fills[j]);
    }
  }

  /** Over both programs: a successful withdrawal that spends no change note still to be minted keeps
      the world ready if and only if its nullifier belongs to no note that a resting order uses or a
      match in the queue consumes. */
  lemma WithdrawalKeepsReadyExactly(hs: Hashes, tee: Tee, rate: uint16, w: World, e: Event)
    requires NullifiersInjective(tee)
    requires WorldReady(hs, tee, rate, w) && e.Withdraws? && WithdrawResult(hs, w, e).Ok?
    requires forall n :: tee.nullifier(n) == e.nullifier ==> NotFuture(hs, tee, w.results.nextId, n)
    ensures WorldReady(hs, tee, rate, w.(vault := WithdrawResult(hs, w, e).value)) <==> NullifierFree(tee, w, e.nullifier)
  {
    if NullifierFree(tee, w, e.nullifier) {
      WithdrawKeepsReady(hs, tee, rate, w, e);
    } else {
      SpentNotReady(hs, tee, rate, w, e, w.(vault := WithdrawResult(hs, w, e).value));
    }
  }

  lemma SpentNotReady(hs: Hashes, tee: Tee, rate: uint16, w: World, e: Event, w': World)
    requires NullifiersInjective(tee) && e.Withdraws? && WithdrawResult(hs, w, e).Ok?
    requires w' == w.(vault := WithdrawResult(hs, w, e).value) && !NullifierFree(tee, w, e.nullifier)
    ensures !WorldReady(hs, tee, rate, w')
  {
    WithdrawShape(hs, w, e);
    if WorldReady(hs, tee, rate, w') {
      var v := Complete(w');
      if j, n :| 0 <= j < |w.queue| && Consumes(w.queue[j], n) && tee.nullifier(n) == e.nullifier {
        SpentIsRefused(v, tee, w.queue, j, n);
      } else {
        var i :| 0 <= i < |w.slots| && LiveSlot(w.slots[i], w.clock) && tee.nullifier(w.slots[i].note) == e.nullifier;
        assert SlotPledged(tee, Settled(tee, w'), w.slots[i]);
        NullifierHistory(v, tee, w.queue, w.slots[i].note);
      }
    }
  }
}
