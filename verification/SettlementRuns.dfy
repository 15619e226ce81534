// Settlement over runs of both programs. Orders are submitted, matched and cancelled in one program;
// notes are locked, matches settled, locks released and notes withdrawn in the other, in any order
// the clock allows. No match is ever refused.
module SettlementRuns {
  import opened Prelude
  import opened Crypto
  import opened MerkleTree
  import opened Orders
  import opened Matching
  import opened Market
  import opened MarketLaws
  import opened BatchLaws
  import opened VaultErrors
  import opened Vault
  import opened Settleability
  import opened SettlementBatches
  import opened SettlementFrames

  /** Both programs, the matches still to be settled, oldest first, and the locks the TEE still has to
      take for notes that orders were submitted with. */
  datatype World = World(
    slots: seq<PendingOrder>,
    results: BatchResults,
    vault: VaultState,
    clock: uint64,
    queue: seq<Fill>,
    toLock: map<Digest, NoteLock>)

  datatype Event =
    | Submits(slot: nat, args: SubmitArgs, signer: Digest, now: uint64)
    | Cancels(slot: nat, signer: Digest, market: Digest, slotIdx: uint8)
    | Batches(env: BatchEnv, sel: seq<nat>)
    | Locks(note: Digest, orderId: OrderId, expiry: uint64, lockAmount: uint64, now: uint64)
    | Settles
    | Releases(note: Digest, now: uint64)
    | Deposits(mint: Digest, amount: uint64, owner: Digest, nonce: Digest, blinding: Digest)
    | Withdraws(note: Digest, nullifier: Digest, root: Digest, mint: Digest, amount: uint64, proofOk: bool)

  /** The lock an order needs. */
  function OrderLock(tee: Tee, a: SubmitArgs): NoteLock {
    NoteLock(a.orderId, a.expiry, tee.authority, a.noteAmount)
  }

  predicate SubmitWorks(hs: Hashes, w: World, e: Event)
    requires e.Submits?
  {
    e.slot < |w.slots| && SubmitOrder(hs, w.slots[e.slot], e.args, e.signer, e.now).Ok?
  }

  predicate CancelWorks(w: World, e: Event)
    requires e.Cancels?
  {
    e.slot < |w.slots| && CancelOrder(w.slots[e.slot], e.signer, e.market, e.slotIdx).Ok?
  }

  ghost predicate BatchWorks(w: World, e: Event)
    requires e.Batches?
  {
    |w.results.ring| == BATCH_RESULTS_CAPACITY && RunBatch(e.env, w.slots, w.results, e.sel).Ok?
  }

  function LockResult(tee: Tee, w: World, e: Event): Result<VaultState, VaultError>
    requires e.Locks?
  {
    LockNote(w.vault, e.note, e.orderId, e.expiry, e.lockAmount, tee.authority, e.now)
  }

  ghost function WithdrawResult(hs: Hashes, w: World, e: Event): Result<VaultState, VaultError>
    requires e.Withdraws?
  {
    Withdraw(hs, w.vault, e.note, e.nullifier, e.root, e.mint, e.amount, e.proofOk)
  }

  function DepositResult(hs: Hashes, w: World, e: Event): Result<VaultState, VaultError>
    requires e.Deposits?
  {
    Deposit(hs, w.vault, e.mint, e.amount, e.owner, e.nonce, e.blinding)
  }

  function SettleResult(tee: Tee, w: World): Result<VaultState, VaultError>
    requires w.queue != []
  {
    Settle(w.vault, PayloadOf(tee, w.queue[0]), tee.authority, true)
  }

  /** What the TEE has to lock after an order was submitted. */
  function ToLockAfter(tee: Tee, w: World, a: SubmitArgs): map<Digest, NoteLock> {
    if a.note in w.vault.locks then w.toLock else w.toLock[a.note := OrderLock(tee, a)]
  }

  /** The world after an event, or `None` when the vault refuses a match. Other failures change nothing. */
  ghost function WorldStep(hs: Hashes, tee: Tee, w: World, e: Event): Option<World> {
    match e
    case Submits(i, args, signer, now) =>
      if SubmitWorks(hs, w, e) then
        Some(w.(slots := w.slots[i := SubmitOrder(hs, w.slots[i], args, signer, now).value], clock := now,
                toLock := ToLockAfter(tee, w, args)))
      else Some(w)
    case Cancels(i, signer, market, slotIdx) =>
      if CancelWorks(w, e) then Some(w.(slots := w.slots[i := CancelOrder(w.slots[i], signer, market, slotIdx).value])) else Some(w)
    case Batches(env, sel) =>
      if BatchWorks(w, e) then
        var o := RunBatch(env, w.slots, w.results, sel).value;
        Some(w.(slots := o.slots, results := o.results, clock := env.now, queue := w.queue + o.fills))
      else Some(w)
    case Locks(note, _, _, _, now) =>
      if LockResult(tee, w, e).Ok? then Some(w.(vault := LockResult(tee, w, e).value, clock := now, toLock := w.toLock - {note})) else Some(w)
    case Settles =>
      if w.queue == [] then Some(w)
      else if SettleResult(tee, w).Err? then None
      else Some(w.(vault := SettleResult(tee, w).value, queue := w.queue[1..]))
    case Releases(note, now) =>
      if ReleaseLock(w.vault, note, now).Ok? then Some(w.(vault := ReleaseLock(w.vault, note, now).value, clock := now)) else Some(w)
    case Deposits(_, _, _, _, _) =>
      if DepositResult(hs, w, e).Ok? then Some(w.(vault := DepositResult(hs, w, e).value)) else Some(w)
    case Withdraws(_, _, _, _, _, _) =>
      if WithdrawResult(hs, w, e).Ok? then Some(w.(vault := WithdrawResult(hs, w, e).value)) else Some(w)
  }

  // ---------- what is assumed of an event ----------

  /** No match in the queue claims the note and no resting order uses it. */
  ghost predicate NoteFree(w: World, note: Digest) {
    && NoneClaims(w.queue, note)
    && (forall i :: 0 <= i < |w.slots| && LiveSlot(w.slots[i], w.clock) ==> w.slots[i].note != note)
  }

  /** The nullifier belongs to no note that a resting order uses or a match in the queue consumes. */
  ghost predicate NullifierFree(tee: Tee, w: World, nullifier: Digest) {
    && (forall j, n :: 0 <= j < |w.queue| && Consumes(w.queue[j], n) ==> tee.nullifier(n) != nullifier)
    && (forall i :: 0 <= i < |w.slots| && LiveSlot(w.slots[i], w.clock) ==> tee.nullifier(w.slots[i].note) != nullifier)
  }

  /** A submitted order is covered with the fee, owned by a field element, and comes with a note that is
      free, unspent and not minted later; if the note is locked, it is locked for this order. */
  ghost predicate SubmitAdmissible(hs: Hashes, tee: Tee, rate: uint16, w: World, e: Event)
    requires e.Submits?
  {
    && e.now >= w.clock && e.args.owner < BN254_R
    && (SubmitWorks(hs, w, e) ==> SlotFunded(SubmitOrder(hs, w.slots[e.slot], e.args, e.signer, e.now).value, rate))
    && NoteFree(w, e.args.note) && NotFuture(hs, tee, w.results.nextId, e.args.note)
    && e.args.note !in w.vault.consumed && tee.nullifier(e.args.note) !in w.vault.nullifiers
    && (e.args.note in w.vault.locks ==>
          w.vault.locks[e.args.note] == OrderLock(tee, e.args).(expiry := w.vault.locks[e.args.note].expiry, lockedBy := w.vault.locks[e.args.note].lockedBy)
          && w.vault.locks[e.args.note].expiry >= e.args.expiry)
  }

  /** A batch runs on the common terms over distinct accounts; the tree has room for its settlements,
      the match counter does not saturate, and no immediate-or-cancel order is filled twice. */
  ghost predicate BatchAdmissible(hs: Hashes, tee: Tee, rate: uint16, w: World, e: Event)
    requires e.Batches?
  {
    && e.env.hs == hs && e.env.feeRate == rate && e.env.now >= w.clock && NoDuplicates(e.sel)
    && (BatchWorks(w, e) ==>
          var fills := RunBatch(e.env, w.slots, w.results, e.sel).value.fills;
          && |w.vault.leaves| + 5 * (|w.queue| + |fills|) <= Pow2(w.vault.depth) && w.results.nextId + |fills| <= U64_MAX
          && Mints(TermsOf(e.env, 0), tee, fills) && IocFillsOnce(w.slots, fills))
  }

  /** The TEE locks a note it has to lock as the order says, and otherwise only notes nobody uses. */
  ghost predicate LockAdmissible(hs: Hashes, tee: Tee, w: World, e: Event)
    requires e.Locks?
  {
    && e.now >= w.clock
    && (if e.note in w.toLock then w.toLock[e.note] == NoteLock(e.orderId, e.expiry, tee.authority, e.lockAmount)
        else NoteFree(w, e.note) && NotFuture(hs, tee, w.results.nextId, e.note))
  }

  /** A match is settled once the TEE has locked the notes it was submitted with. */
  predicate SettleAdmissible(w: World) {
    w.queue != [] ==> w.queue[0].result.buyer.note !in w.toLock && w.queue[0].result.seller.note !in w.toLock
  }

  /** The clock is at most the settlement buffer past the batch of any match that consumes the note. */
  ghost predicate ReleaseAdmissible(w: World, e: Event)
    requires e.Releases?
  {
    && e.now >= w.clock
    && (forall j :: 0 <= j < |w.queue| && Consumes(w.queue[j], e.note) ==>
          e.now <= w.queue[j].result.batchSlot + SETTLEMENT_BUFFER_SLOTS)
  }

  ghost predicate WithdrawAdmissible(hs: Hashes, tee: Tee, w: World, e: Event)
    requires e.Withdraws?
  {
    && NullifierFree(tee, w, e.nullifier)
    && (forall n :: tee.nullifier(n) == e.nullifier ==> NotFuture(hs, tee, w.results.nextId, n))
  }

  ghost predicate Admissible(hs: Hashes, tee: Tee, rate: uint16, w: World, e: Event) {
    match e
    case Submits(_, _, _, _) => SubmitAdmissible(hs, tee, rate, w, e)
    case Cancels(_, _, _, _) => true
    case Batches(_, _) => BatchAdmissible(hs, tee, rate, w, e)
    case Locks(_, _, _, _, _) => LockAdmissible(hs, tee, w, e)
    case Settles => SettleAdmissible(w)
    case Releases(_, _) => ReleaseAdmissible(w, e)
    case Deposits(_, _, _, _, _) => |w.vault.leaves| + 1 + 5 * |w.queue| <= Pow2(w.vault.depth)
    case Withdraws(_, _, _, _, _, _) => WithdrawAdmissible(hs, tee, w, e)
  }

  // ---------- the invariant ----------

  /** The vault as it will be once the TEE has taken the locks it still has to take. */
  function Complete(w: World): VaultState {
    w.vault.(locks := w.vault.locks + w.toLock)
  }

  ghost predicate Keys(tee: Tee, v: VaultState) {
    && tee.authority == v.teePubkey
    && (forall id :: tee.feeNote(id) < BN254_R && (tee.feeNote(id) != 0 ==> v.protocolOwner != 0))
  }

  /** Settling the whole queue from the completed vault works, in time, and leaves the book ready. */
  ghost predicate WorldReady(hs: Hashes, tee: Tee, rate: uint16, w: World) {
    && Keys(tee, w.vault) && |w.vault.leaves| + 5 * |w.queue| <= Pow2(w.vault.depth)
    && (forall n :: n in w.toLock ==> n !in w.vault.locks)
    && SettleAll(Complete(w), tee, w.queue).Ok? && InTime(Complete(w), tee, w.queue)
    && BookReady(hs, tee, SettleAll(Complete(w), tee, w.queue).value, w.slots, w.clock, w.results.nextId, rate)
  }

  /** The vault once the queue is settled. */
  function Settled(tee: Tee, w: World): VaultState
    requires SettleAll(Complete(w), tee, w.queue).Ok?
  {
    SettleAll(Complete(w), tee, w.queue).value
  }

  // ---------- events that only touch the vault ----------

  /** Readiness of a book carries over to a mirror that neither frees nor spends what it uses. */
  lemma BookMirrors(hs: Hashes, tee: Tee, u: VaultState, u': VaultState, loose: set<Digest>, spent: set<Digest>,
                    slots: seq<PendingOrder>, clock: uint64, clock': uint64, next: uint64, rate: uint16)
    requires BookReady(hs, tee, u, slots, clock, next, rate) && clock' >= clock && Mirrors(u, u', loose, spent)
    requires forall i :: 0 <= i < |slots| && LiveSlot(slots[i], clock') ==> slots[i].note !in loose && tee.nullifier(slots[i].note) !in spent
    requires forall n :: n in loose && n in u'.locks ==> NotFuture(hs, tee, next, n)
    requires forall n :: tee.nullifier(n) in spent ==> NotFuture(hs, tee, next, n)
    ensures BookReady(hs, tee, u', slots, clock', next, rate)
  {
    forall i | 0 <= i < |slots| && LiveSlot(slots[i], clock') ensures SlotPledged(tee, u', slots[i]) {
      assert LiveSlot(slots[i], clock) && SlotPledged(tee, u, slots[i]);
    }
  }

  /** How a vault event keeps the world ready. */
  lemma MirrorKeepsReady(hs: Hashes, tee: Tee, rate: uint16, w: World, w': World, loose: set<Digest>, spent: set<Digest>)
    requires WorldReady(hs, tee, rate, w) && Mirrors(Complete(w), Complete(w'), loose, spent)
    requires w' == w.(vault := w'.vault, clock := w'.clock, toLock := w'.toLock) && w'.clock >= w.clock
    requires |w'.vault.leaves| + 5 * |w'.queue| <= Pow2(w'.vault.depth)
    requires forall n :: n in w'.toLock ==> n !in w'.vault.locks
    requires AllApart(tee, w.queue, loose, spent)
    requires forall i :: 0 <= i < |w.slots| && LiveSlot(w.slots[i], w'.clock) ==>
      w.slots[i].note !in loose && tee.nullifier(w.slots[i].note) !in spent
    requires forall n :: n in loose && (n in w'.vault.locks || n in w'.toLock) ==> NotFuture(hs, tee, w.results.nextId, n)
    requires forall n :: tee.nullifier(n) in spent ==> NotFuture(hs, tee, w.results.nextId, n)
    ensures WorldReady(hs, tee, rate, w')
  {
    var v, v' := Complete(w), Complete(w');
    SettleAllMirrors(tee, v, v', loose, spent, w.queue);
    InTimeMirrors(tee, v, v', loose, spent, w.queue);
    var u' := SettleAll(v', tee, w.queue).value;
    forall n | n in loose && n in u'.locks ensures NotFuture(hs, tee, w.results.nextId, n) {
      assert NoneClaims(w.queue, n) by {
        forall j | 0 <= j < |w.queue| ensures !Claims(w.queue[j], n) {
          assert Apart(tee, w.queue[j], loose, spent);
        }
      }
      LockOrigin(v', tee, w.queue, n);
    }
    BookMirrors(hs, tee, Settled(tee, w), u', loose, spent, w.slots, w.clock, w'.clock, w.results.nextId, rate);
  }

  lemma ApartFromNote(tee: Tee, fills: seq<Fill>, note: Digest)
    requires NoneClaims(fills, note)
    ensures AllApart(tee, fills, {note}, {})
  {
    forall j | 0 <= j < |fills| ensures Apart(tee, fills[j], {note}, {}) {
      assert !Claims(fills[j], note);
    }
  }

  /** The world after a note was locked. */
  function WithLock(w: World, note: Digest, lock: NoteLock, now: uint64): World {
    w.(vault := w.vault.(locks := w.vault.locks[note := lock]), clock := now, toLock := w.toLock - {note})
  }

  lemma LocksMerge(locks: map<Digest, NoteLock>, toLock: map<Digest, NoteLock>, note: Digest)
    requires note in toLock
    ensures locks[note := toLock[note]] + (toLock - {note}) == locks + toLock
  {
  }

  /** A world that looks the same once completed is as ready. */
  lemma SameComplete(hs: Hashes, tee: Tee, rate: uint16, w: World, w': World)
    requires WorldReady(hs, tee, rate, w) && Complete(w') == Complete(w)
    requires w' == w.(vault := w'.vault, clock := w'.clock, toLock := w'.toLock) && w'.clock >= w.clock
    requires forall n :: n in w'.toLock ==> n !in w'.vault.locks
    ensures WorldReady(hs, tee, rate, w')
  {
    BookMirrors(hs, tee, Settled(tee, w), Settled(tee, w), {}, {}, w.slots, w.clock, w'.clock, w.results.nextId, rate);
  }

  lemma LockTaken(hs: Hashes, tee: Tee, rate: uint16, w: World, note: Digest, now: uint64)
    requires WorldReady(hs, tee, rate, w) && note in w.toLock && now >= w.clock
    ensures WorldReady(hs, tee, rate, WithLock(w, note, w.toLock[note], now))
  {
    LocksMerge(w.vault.locks, w.toLock, note);
    SameComplete(hs, tee, rate, w, WithLock(w, note, w.toLock[note], now));
  }

  lemma OtherLock(hs: Hashes, tee: Tee, rate: uint16, w: World, note: Digest, lock: NoteLock, now: uint64)
    requires WorldReady(hs, tee, rate, w) && note !in w.toLock && now >= w.clock
    requires NoteFree(w, note) && NotFuture(hs, tee, w.results.nextId, note)
    ensures WorldReady(hs, tee, rate, WithLock(w, note, lock, now))
  {
    NoteMirrors(w, WithLock(w, note, lock, now), note);
    NoteKeepsReady(hs, tee, rate, w, WithLock(w, note, lock, now), note);
  }

  lemma LockKeepsReady(hs: Hashes, tee: Tee, rate: uint16, w: World, e: Event)
    requires WorldReady(hs, tee, rate, w) && e.Locks? && LockAdmissible(hs, tee, w, e) && LockResult(tee, w, e).Ok?
    ensures WorldReady(hs, tee, rate, WorldStep(hs, tee, w, e).value)
  {
    var lock := NoteLock(e.orderId, e.expiry, tee.authority, e.lockAmount);
    assert WorldStep(hs, tee, w, e) == Some(WithLock(w, e.note, lock, e.now));
    if e.note in w.toLock {
      LockTaken(hs, tee, rate, w, e.note, e.now);
    } else {
      OtherLock(hs, tee, rate, w, e.note, lock, e.now);
    }
  }

  lemma DepositShape(hs: Hashes, w: World, e: Event)
    requires e.Deposits? && DepositResult(hs, w, e).Ok?
    ensures
      var v := DepositResult(hs, w, e).value;
      v == w.vault.(leaves := v.leaves, balances := v.balances) && |v.leaves| == |w.vault.leaves| + 1
  {
  }

  lemma DepositKeepsReady(hs: Hashes, tee: Tee, rate: uint16, w: World, e: Event)
    requires WorldReady(hs, tee, rate, w) && e.Deposits? && DepositResult(hs, w, e).Ok?
    requires |w.vault.leaves| + 1 + 5 * |w.queue| <= Pow2(w.vault.depth)
    ensures WorldReady(hs, tee, rate, w.(vault := DepositResult(hs, w, e).value))
  {
    DepositShape(hs, w, e);
    MirrorKeepsReady(hs, tee, rate, w, w.(vault := DepositResult(hs, w, e).value), {}, {});
  }

  lemma ApartFromNullifier(tee: Tee, w: World, nullifier: Digest)
    requires NullifierFree(tee, w, nullifier)
    ensures AllApart(tee, w.queue, {}, {nullifier})
  {
    forall j | 0 <= j < |w.queue| ensures Apart(tee, w.queue[j], {}, {nullifier}) {
      assert Consumes(w.queue[j], w.queue[j].result.buyer.note) && Consumes(w.queue[j], w.queue[j].result.seller.note);
    }
  }

  lemma WithdrawShape(hs: Hashes, w: World, e: Event)
    requires e.Withdraws? && WithdrawResult(hs, w, e).Ok?
    ensures
      var v := WithdrawResult(hs, w, e).value;
      v == w.vault.(nullifiers := w.vault.nullifiers + {e.nullifier}, balances := v.balances)
  {
  }

  /** A withdrawal keeps the world ready when its nullifier is neither of a note in use nor of a change
      note still to be minted. */
  lemma WithdrawKeepsReady(hs: Hashes, tee: Tee, rate: uint16, w: World, e: Event)
    requires WorldReady(hs, tee, rate, w) && e.Withdraws? && WithdrawAdmissible(hs, tee, w, e) && WithdrawResult(hs, w, e).Ok?
    ensures WorldReady(hs, tee, rate, w.(vault := WithdrawResult(hs, w, e).value))
  {
    WithdrawShape(hs, w, e);
    ApartFromNullifier(tee, w, e.nullifier);
    MirrorKeepsReady(hs, tee, rate, w, w.(vault := WithdrawResult(hs, w, e).value), {}, {e.nullifier});
  }

  /** Within the settlement buffer only locks of notes that the queue does not consume can be released. */
  lemma ReleasedNotConsumed(hs: Hashes, tee: Tee, rate: uint16, w: World, e: Event)
    requires WorldReady(hs, tee, rate, w) && e.Releases? && ReleaseAdmissible(w, e) && ReleaseLock(w.vault, e.note, e.now).Ok?
    ensures NoneConsumes(w.queue, e.note)
  {
    var v := Complete(w);
    assert v.locks[e.note] == w.vault.locks[e.note];
    forall j | 0 <= j < |w.queue| ensures !Consumes(w.queue[j], e.note) {
      if Consumes(w.queue[j], e.note) {
        ConsumedLasts(v, tee, w.queue, j, e.note);
      }
    }
  }

  /** A lock that can be released is not that of a live order. */
  lemma ReleasedNotLive(hs: Hashes, tee: Tee, rate: uint16, w: World, note: Digest, now: uint64, i: nat)
    requires WorldReady(hs, tee, rate, w) && ReleaseLock(w.vault, note, now).Ok? && now >= w.clock
    requires i < |w.slots| && LiveSlot(w.slots[i], now)
    ensures w.slots[i].note != note
  {
    var v := Complete(w);
    assert v.locks[note] == w.vault.locks[note];
    assert SlotPledged(tee, Settled(tee, w), w.slots[i]);
    if w.slots[i].note == note {
      LockHistory(v, tee, w.queue, note);
    }
  }

  /** Worlds that differ in the clock and the lock of one note. */
  lemma NoteMirrors(w: World, w': World, note: Digest)
    requires w' == w.(vault := w.vault.(locks := w'.vault.locks), clock := w'.clock, toLock := w'.toLock)
    requires forall n :: n != note ==> (n in w'.vault.locks <==> n in w.vault.locks) && (n in w'.toLock <==> n in w.toLock)
    requires forall n :: n != note && n in w.vault.locks ==> w'.vault.locks[n] == w.vault.locks[n]
    requires forall n :: n != note && n in w.toLock ==> w'.toLock[n] == w.toLock[n]
    ensures Mirrors(Complete(w), Complete(w'), {note}, {})
  {
  }

  /** Changing the lock of a note nobody uses keeps the world ready. */
  lemma NoteKeepsReady(hs: Hashes, tee: Tee, rate: uint16, w: World, w': World, note: Digest)
    requires WorldReady(hs, tee, rate, w) && w'.clock >= w.clock && Mirrors(Complete(w), Complete(w'), {note}, {})
    requires w' == w.(vault := w.vault.(locks := w'.vault.locks), clock := w'.clock, toLock := w'.toLock)
    requires forall n :: n in w'.toLock ==> n !in w'.vault.locks
    requires NoneClaims(w.queue, note)
    requires forall i :: 0 <= i < |w.slots| && LiveSlot(w.slots[i], w'.clock) ==> w.slots[i].note != note
    requires note in w'.vault.locks || note in w'.toLock ==> NotFuture(hs, tee, w.results.nextId, note)
    ensures WorldReady(hs, tee, rate, w')
  {
    ApartFromNote(tee, w.queue, note);
    MirrorKeepsReady(hs, tee, rate, w, w', {note}, {});
  }

  /** The world after a lock was released. */
  function WithoutLock(w: World, note: Digest, now: uint64): World {
    w.(vault := w.vault.(locks := w.vault.locks - {note}), clock := now)
  }

  lemma ReleaseKeepsReady(hs: Hashes, tee: Tee, rate: uint16, w: World, note: Digest, now: uint64)
    requires WorldReady(hs, tee, rate, w) && ReleaseLock(w.vault, note, now).Ok? && now >= w.clock
    requires NoneConsumes(w.queue, note)
    ensures WorldReady(hs, tee, rate, WithoutLock(w, note, now))
  {
    LockedNotRelocked(Complete(w), tee, w.queue, note);
    forall i | 0 <= i < |w.slots| && LiveSlot(w.slots[i], now) ensures w.slots[i].note != note {
      ReleasedNotLive(hs, tee, rate, w, note, now, i);
    }
    NoteMirrors(w, WithoutLock(w, note, now), note);
    NoteKeepsReady(hs, tee, rate, w, WithoutLock(w, note, now), note);
  }

  lemma {:induction false} FirstConsumer(fills: seq<Fill>, note: Digest) returns (j: nat)
    requires !NoneConsumes(fills, note)
    ensures j < |fills| && Consumes(fills[j], note) && NoneConsumes(fills[..j], note)
  {
    var t := fills[..|fills| - 1];
    if NoneConsumes(t, note) {
      j := |fills| - 1;
      assert forall i :: 0 <= i < |t| ==> fills[i] == t[i];
    } else {
      j := FirstConsumer(t, note);
      assert t[..j] == fills[..j];
    }
  }

  /** Once the lock of a note the queue consumes is gone, the queue is refused. */
  lemma ReleasedIsRefused(v: VaultState, v': VaultState, tee: Tee, fills: seq<Fill>, note: Digest)
    requires |v.leaves| <= Pow2(v.depth) && SettleAll(v, tee, fills).Ok? && note in v.locks && !NoneConsumes(fills, note)
    requires v' == v.(locks := v.locks - {note})
    ensures SettleAll(v', tee, fills).Err?
  {
    if SettleAll(v', tee, fills).Ok? {
      var j := FirstConsumer(fills, note);
      NextSettles(v, tee, fills, j);
      NextSettles(v', tee, fills, j);
      LockedNotRelocked(v, tee, fills[..j], note);
      LockOrigin(v', tee, fills[..j], note);
      SettleAllGrows(v', tee, fills[..j]);
      SettleShape(tee, SettleAll(v', tee, fills[..j]).value, fills[j]);
    }
  }

  lemma CompleteWithout(w: World, note: Digest, now: uint64)
    requires note in w.vault.locks && forall n :: n in w.toLock ==> n !in w.vault.locks
    ensures Complete(WithoutLock(w, note, now)) == Complete(w).(locks := Complete(w).locks - {note})
  {
    assert (w.vault.locks - {note}) + w.toLock == (w.vault.locks + w.toLock) - {note};
  }

  lemma ReleaseNotReady(hs: Hashes, tee: Tee, rate: uint16, w: World, note: Digest, now: uint64)
    requires WorldReady(hs, tee, rate, w) && ReleaseLock(w.vault, note, now).Ok? && !NoneConsumes(w.queue, note)
    ensures !WorldReady(hs, tee, rate, WithoutLock(w, note, now))
  {
    CompleteWithout(w, note, now);
    ReleasedIsRefused(Complete(w), Complete(WithoutLock(w, note, now)), tee, w.queue, note);
  }

  /** A successful release keeps the world ready if and only if no match in the queue consumes its note. */
  lemma ReleaseKeepsReadyExactly(hs: Hashes, tee: Tee, rate: uint16, w: World, note: Digest, now: uint64)
    requires WorldReady(hs, tee, rate, w) && ReleaseLock(w.vault, note, now).Ok? && now >= w.clock
    ensures WorldReady(hs, tee, rate, WithoutLock(w, note, now)) <==> NoneConsumes(w.queue, note)
  {
    if NoneConsumes(w.queue, note) {
      ReleaseKeepsReady(hs, tee, rate, w, note, now);
    } else {
      ReleaseNotReady(hs, tee, rate, w, note, now);
    }
  }

  // ---------- submissions and cancellations ----------

  /** Once the note of a new order is locked or is to be locked, it is pledged to it. */
  lemma NewNotePledged(hs: Hashes, tee: Tee, rate: uint16, w: World, a: SubmitArgs)
    requires NullifiersInjective(tee) && WorldReady(hs, tee, rate, w) && NoneConsumes(w.queue, a.note)
    requires a.note in Complete(w).locks && a.note !in w.vault.consumed && tee.nullifier(a.note) !in w.vault.nullifiers
    requires
      var lock := Complete(w).locks[a.note];
      lock.orderId == a.orderId && lock.amount == a.noteAmount && lock.expiry >= a.expiry
    ensures Pledged(tee, Settled(tee, w), a.note, a.orderId, a.noteAmount, a.expiry)
  {
    LockStays(Complete(w), tee, w.queue, a.note);
    ConsumedHistory(Complete(w), tee, w.queue, a.note);
    NullifierHistory(Complete(w), tee, w.queue, a.note);
  }

  /** The locks still to be taken after a submission keep the world ready before the order is written. */
  lemma NewLockReady(hs: Hashes, tee: Tee, rate: uint16, w: World, a: SubmitArgs, now: uint64)
    requires WorldReady(hs, tee, rate, w) && NoteFree(w, a.note) && NotFuture(hs, tee, w.results.nextId, a.note) && now >= w.clock
    ensures WorldReady(hs, tee, rate, w.(clock := now, toLock := ToLockAfter(tee, w, a)))
  {
    var w' := w.(clock := now, toLock := ToLockAfter(tee, w, a));
    NoteMirrors(w, w', a.note);
    NoteKeepsReady(hs, tee, rate, w, w', a.note);
  }

  /** A new order with a pledged note of its own joins a ready book. */
  lemma OrderJoins(hs: Hashes, tee: Tee, u: VaultState, slots: seq<PendingOrder>, i: nat, p: PendingOrder, clock: uint64, next: uint64, rate: uint16)
    requires BookReady(hs, tee, u, slots, clock, next, rate) && i < |slots|
    requires SlotOk(p) && SlotFunded(p, rate) && Payable(p) && (LiveSlot(p, clock) ==> SlotPledged(tee, u, p))
    requires forall j :: 0 <= j < |slots| && j != i && LiveSlot(slots[j], clock) && LiveSlot(p, clock) ==> slots[j].note != p.note
    ensures BookReady(hs, tee, u, slots[i := p], clock, next, rate)
  {
    var after := slots[i := p];
    forall j | 0 <= j < |after| && LiveSlot(after[j], clock) ensures SlotPledged(tee, u, after[j]) {
      assert j != i ==> after[j] == slots[j];
    }
  }

  /** Rewriting the slots keeps the world ready if it keeps the book ready. */
  lemma SlotsRewritten(hs: Hashes, tee: Tee, rate: uint16, w: World, slots: seq<PendingOrder>)
    requires WorldReady(hs, tee, rate, w) && BookReady(hs, tee, Settled(tee, w), slots, w.clock, w.results.nextId, rate)
    ensures WorldReady(hs, tee, rate, w.(slots := slots))
  {
    assert Complete(w.(slots := slots)) == Complete(w);
  }

  /** What an accepted submission writes. */
  lemma SubmittedSlot(hs: Hashes, p: PendingOrder, a: SubmitArgs, signer: Digest, now: uint64)
    requires SubmitOrder(hs, p, a, signer, now).Ok?
    ensures
      var q := SubmitOrder(hs, p, a, signer, now).value;
      && SlotOk(q) && q.Pending() && q.note == a.note && q.noteAmount == a.noteAmount
      && q.orderId == a.orderId && q.expiry == a.expiry && q.owner == a.owner
  {
    SubmitKeepsSlot(hs, p, a, signer, now);
  }

  /** The lock of the new note, taken or to be taken, is the order's. */
  lemma SubmittedLock(hs: Hashes, tee: Tee, rate: uint16, w: World, w1: World, e: Event)
    requires e.Submits? && SubmitAdmissible(hs, tee, rate, w, e)
    requires w1 == w.(clock := e.now, toLock := ToLockAfter(tee, w, e.args)) && WorldReady(hs, tee, rate, w1)
    ensures e.args.note in Complete(w1).locks
    ensures
      var lock := Complete(w1).locks[e.args.note];
      lock.orderId == e.args.orderId && lock.amount == e.args.noteAmount && lock.expiry >= e.args.expiry
  {
  }

  lemma SubmittedOrder(hs: Hashes, tee: Tee, rate: uint16, w: World, w1: World, e: Event)
    requires NullifiersInjective(tee)
    requires e.Submits? && SubmitAdmissible(hs, tee, rate, w, e) && SubmitWorks(hs, w, e)
    requires w1 == w.(clock := e.now, toLock := ToLockAfter(tee, w, e.args)) && WorldReady(hs, tee, rate, w1)
    ensures BookReady(hs, tee, Settled(tee, w1), w1.slots[e.slot := SubmitOrder(hs, w.slots[e.slot], e.args, e.signer, e.now).value],
                      w1.clock, w1.results.nextId, rate)
  {
    forall j | 0 <= j < |w.queue| ensures !Consumes(w.queue[j], e.args.note) {
      assert !Claims(w.queue[j], e.args.note);
    }
    SubmittedLock(hs, tee, rate, w, w1, e);
    NewNotePledged(hs, tee, rate, w1, e.args);
    SubmittedSlot(hs, w.slots[e.slot], e.args, e.signer, e.now);
    var p := SubmitOrder(hs, w.slots[e.slot], e.args, e.signer, e.now).value;
    forall j | 0 <= j < |w1.slots| && j != e.slot && LiveSlot(w1.slots[j], w1.clock) ensures w1.slots[j].note != p.note {
      assert LiveSlot(w.slots[j], w.clock);
    }
    OrderJoins(hs, tee, Settled(tee, w1), w1.slots, e.slot, p, w1.clock, w1.results.nextId, rate);
  }

  lemma SubmitKeepsReady(hs: Hashes, tee: Tee, rate: uint16, w: World, e: Event)
    requires NullifiersInjective(tee)
    requires WorldReady(hs, tee, rate, w) && e.Submits? && SubmitAdmissible(hs, tee, rate, w, e) && SubmitWorks(hs, w, e)
    ensures WorldReady(hs, tee, rate, WorldStep(hs, tee, w, e).value)
  {
    var w1 := w.(clock := e.now, toLock := ToLockAfter(tee, w, e.args));
    NewLockReady(hs, tee, rate, w, e.args, e.now);
    SubmittedOrder(hs, tee, rate, w, w1, e);
    SlotsRewritten(hs, tee, rate, w1, w1.slots[e.slot := SubmitOrder(hs, w.slots[e.slot], e.args, e.signer, e.now).value]);
  }

  lemma CancelKeepsReady(hs: Hashes, tee: Tee, rate: uint16, w: World, e: Event)
    requires WorldReady(hs, tee, rate, w) && e.Cancels? && CancelWorks(w, e)
    ensures WorldReady(hs, tee, rate, WorldStep(hs, tee, w, e).value)
  {
    var p := CancelOrder(w.slots[e.slot], e.signer, e.market, e.slotIdx).value;
    CancelKeepsSlot(w.slots[e.slot], e.signer, e.market, e.slotIdx);
    OrderJoins(hs, tee, Settled(tee, w), w.slots, e.slot, p, w.clock, w.results.nextId, rate);
    SlotsRewritten(hs, tee, rate, w, w.slots[e.slot := p]);
  }

  // ---------- batches and settlements ----------

  lemma BatchKeepsReady(hs: Hashes, tee: Tee, rate: uint16, w: World, e: Event)
    requires ChangeNotesSeparate(hs, tee) && NullifiersInjective(tee)
    requires WorldReady(hs, tee, rate, w) && e.Batches? && BatchAdmissible(hs, tee, rate, w, e) && BatchWorks(w, e)
    ensures WorldReady(hs, tee, rate, WorldStep(hs, tee, w, e).value)
  {
    var o := RunBatch(e.env, w.slots, w.results, e.sel).value;
    var u := Settled(tee, w);
    SettleAllGrows(Complete(w), tee, w.queue);
    assert VaultReady(tee, u, |o.fills|);
    BatchSettles(e.env, tee, u, w.slots, w.results, e.sel, w.clock);
    SettleAllAppends(Complete(w), tee, w.queue, o.fills);
    InTimeAppends(Complete(w), tee, w.queue, o.fills);
    assert Complete(WorldStep(hs, tee, w, e).value) == Complete(w);
  }

  /** Exactly then: a batch that fills an immediate-or-cancel order twice leaves a queue that is refused. */
  lemma BatchKeepsReadyExactly(hs: Hashes, tee: Tee, rate: uint16, w: World, e: Event)
    requires ChangeNotesSeparate(hs, tee) && NullifiersInjective(tee)
    requires WorldReady(hs, tee, rate, w) && e.Batches? && BatchWorks(w, e)
    requires e.env.hs == hs && e.env.feeRate == rate && e.env.now >= w.clock && NoDuplicates(e.sel)
    requires
      var fills := RunBatch(e.env, w.slots, w.results, e.sel).value.fills;
      && |w.vault.leaves| + 5 * (|w.queue| + |fills|) <= Pow2(w.vault.depth) && w.results.nextId + |fills| <= U64_MAX
      && Mints(TermsOf(e.env, 0), tee, fills)
    ensures WorldReady(hs, tee, rate, WorldStep(hs, tee, w, e).value) <==>
            IocFillsOnce(w.slots, RunBatch(e.env, w.slots, w.results, e.sel).value.fills)
  {
    var fills := RunBatch(e.env, w.slots, w.results, e.sel).value.fills;
    if IocFillsOnce(w.slots, fills) {
      BatchKeepsReady(hs, tee, rate, w, e);
    } else {
      DoubleFillIsRefused(e.env, tee, Settled(tee, w), w.slots, w.results, e.sel);
      SettleAllAppends(Complete(w), tee, w.queue, fills);
      assert Complete(WorldStep(hs, tee, w, e).value) == Complete(w);
    }
  }

  lemma LocksCommute(tee: Tee, v: VaultState, toLock: map<Digest, NoteLock>, f: Fill)
    requires forall n :: n in toLock ==> n !in v.locks && !Claims(f, n)
    ensures LocksAfter(tee, v.(locks := v.locks + toLock), f.result) == LocksAfter(tee, v, f.result) + toLock
    ensures forall n :: n in toLock ==> n !in LocksAfter(tee, v, f.result)
  {
  }

  lemma HeadMirrors(w: World)
    requires forall n :: n in w.toLock ==> n !in w.vault.locks
    ensures Mirrors(Complete(w), w.vault, w.toLock.Keys, {})
  {
  }

  lemma HeadApart(tee: Tee, w: World)
    requires w.queue != [] && SettleAdmissible(w) && |w.vault.leaves| <= Pow2(w.vault.depth)
    requires Settle(Complete(w), PayloadOf(tee, w.queue[0]), tee.authority, true).Ok?
    ensures Apart(tee, w.queue[0], w.toLock.Keys, {})
  {
    SettleShape(tee, Complete(w), w.queue[0]);
  }

  /** The first match settles now as it would once all locks are taken. */
  lemma FirstSettles(hs: Hashes, tee: Tee, rate: uint16, w: World)
    requires WorldReady(hs, tee, rate, w) && w.queue != [] && SettleAdmissible(w)
    ensures SettleResult(tee, w).Ok? && Settle(Complete(w), PayloadOf(tee, w.queue[0]), tee.authority, true).Ok?
    ensures forall n :: n in w.toLock ==> n !in w.vault.locks && !Claims(w.queue[0], n)
  {
    NextSettles(Complete(w), tee, w.queue, 0);
    assert w.queue[..0] == [];
    HeadApart(tee, w);
    HeadMirrors(w);
    SettleMirrors(tee, Complete(w), w.vault, w.toLock.Keys, {}, w.queue[0]);
  }

  lemma CompleteCommutes(tee: Tee, w: World, v': VaultState, s: VaultState)
    requires w.queue != [] && |w.vault.leaves| <= Pow2(w.vault.depth)
    requires forall n :: n in w.toLock ==> n !in w.vault.locks && !Claims(w.queue[0], n)
    requires SettleResult(tee, w) == Ok(v') && Settle(Complete(w), PayloadOf(tee, w.queue[0]), tee.authority, true) == Ok(s)
    ensures Mirrors(s, Complete(w.(vault := v', queue := w.queue[1..])), {}, {})
    ensures forall n :: n in w.toLock ==> n !in v'.locks
    ensures |v'.leaves| <= |w.vault.leaves| + 5 && |s.leaves| <= Pow2(s.depth)
  {
    SettleShape(tee, w.vault, w.queue[0]);
    SettleShape(tee, Complete(w), w.queue[0]);
    LocksCommute(tee, w.vault, w.toLock, w.queue[0]);
  }

  lemma QueueAfterFirst(hs: Hashes, tee: Tee, rate: uint16, w: World, s: VaultState)
    requires WorldReady(hs, tee, rate, w) && w.queue != []
    requires Settle(Complete(w), PayloadOf(tee, w.queue[0]), tee.authority, true) == Ok(s)
    ensures SettleAll(s, tee, w.queue[1..]) == Ok(Settled(tee, w)) && InTime(s, tee, w.queue[1..])
  {
    SettleFirst(Complete(w), tee, w.queue[0], w.queue[1..]);
    assert [w.queue[0]] + w.queue[1..] == w.queue;
    InTimeRest(Complete(w), s, tee, w.queue);
  }

  lemma MirroredQueue(hs: Hashes, tee: Tee, rate: uint16, w: World, w': World, s: VaultState)
    requires WorldReady(hs, tee, rate, w) && w.queue != [] && w' == w.(vault := w'.vault, queue := w.queue[1..])
    requires SettleAll(s, tee, w'.queue) == Ok(Settled(tee, w)) && InTime(s, tee, w'.queue) && |s.leaves| <= Pow2(s.depth)
    requires Mirrors(s, Complete(w'), {}, {}) && Keys(tee, w'.vault)
    requires |w'.vault.leaves| + 5 * |w'.queue| <= Pow2(w'.vault.depth)
    requires forall n :: n in w'.toLock ==> n !in w'.vault.locks
    ensures WorldReady(hs, tee, rate, w')
  {
    assert AllApart(tee, w'.queue, {}, {});
    SettleAllMirrors(tee, s, Complete(w'), {}, {}, w'.queue);
    InTimeMirrors(tee, s, Complete(w'), {}, {}, w'.queue);
    BookMirrors(hs, tee, Settled(tee, w), Settled(tee, w'), {}, {}, w.slots, w.clock, w.clock, w.results.nextId, rate);
  }

  /** The first match of the queue settles, and the world stays ready. */
  lemma SettleKeepsReady(hs: Hashes, tee: Tee, rate: uint16, w: World)
    requires WorldReady(hs, tee, rate, w) && w.queue != [] && SettleAdmissible(w)
    ensures SettleResult(tee, w).Ok?
    ensures WorldReady(hs, tee, rate, w.(vault := SettleResult(tee, w).value, queue := w.queue[1..]))
  {
    FirstSettles(hs, tee, rate, w);
    var v' := SettleResult(tee, w).value;
    var s := Settle(Complete(w), PayloadOf(tee, w.queue[0]), tee.authority, true).value;
    CompleteCommutes(tee, w, v', s);
    QueueAfterFirst(hs, tee, rate, w, s);
    SettleShape(tee, w.vault, w.queue[0]);
    MirroredQueue(hs, tee, rate, w, w.(vault := v', queue := w.queue[1..]), s);
  }

  // ---------- runs ----------

  lemma EventKeepsReady(hs: Hashes, tee: Tee, rate: uint16, w: World, e: Event)
    requires ChangeNotesSeparate(hs, tee) && NullifiersInjective(tee)
    requires WorldReady(hs, tee, rate, w) && Admissible(hs, tee, rate, w, e)
    ensures WorldStep(hs, tee, w, e).Some? && WorldReady(hs, tee, rate, WorldStep(hs, tee, w, e).value)
  {
    match e
    case Submits(_, _, _, _) =>
      if SubmitWorks(hs, w, e) { SubmitKeepsReady(hs, tee, rate, w, e); }
    case Cancels(_, _, _, _) =>
      if CancelWorks(w, e) { CancelKeepsReady(hs, tee, rate, w, e); }
    case Batches(_, _) =>
      if BatchWorks(w, e) { BatchKeepsReady(hs, tee, rate, w, e); }
    case Locks(_, _, _, _, _) =>
      if LockResult(tee, w, e).Ok? { LockKeepsReady(hs, tee, rate, w, e); }
    case Settles =>
      if w.queue != [] { SettleKeepsReady(hs, tee, rate, w); }
    case Releases(_, _) =>
      if ReleaseLock(w.vault, e.note, e.now).Ok? {
        ReleasedNotConsumed(hs, tee, rate, w, e);
        ReleaseKeepsReady(hs, tee, rate, w, e.note, e.now);
      }
    case Deposits(_, _, _, _, _) =>
      if DepositResult(hs, w, e).Ok? { DepositKeepsReady(hs, tee, rate, w, e); }
    case Withdraws(_, _, _, _, _, _) =>
      if WithdrawResult(hs, w, e).Ok? { WithdrawKeepsReady(hs, tee, rate, w, e); }
  }

  ghost function WorldRun(hs: Hashes, tee: Tee, w: World, events: seq<Event>): Option<World> {
    if events == [] then Some(w)
    else
      var prev := WorldRun(hs, tee, w, events[..|events| - 1]);
      if prev.None? then None else WorldStep(hs, tee, prev.value, events[|events| - 1])
  }

  ghost predicate AdmissibleRun(hs: Hashes, tee: Tee, rate: uint16, w: World, events: seq<Event>) {
    events == [] ||
    var done := events[..|events| - 1];
    && AdmissibleRun(hs, tee, rate, w, done)
    && (WorldRun(hs, tee, w, done).Some? ==> Admissible(hs, tee, rate, WorldRun(hs, tee, w, done).value, events[|events| - 1]))
  }

  /** Settleability: over any run of submissions, cancellations, batches, locks, settlements, releases,
      deposits and withdrawals, in any order, the vault never refuses a match whose submitted notes are
      locked; a note that was rotated needs no further lock, the re-lock is the one its match needs. */
  lemma {:induction false} NoMatchIsRefused(hs: Hashes, tee: Tee, rate: uint16, w: World, events: seq<Event>)
    requires ChangeNotesSeparate(hs, tee) && NullifiersInjective(tee)
    requires WorldReady(hs, tee, rate, w) && AdmissibleRun(hs, tee, rate, w, events)
    ensures WorldRun(hs, tee, w, events).Some?
    ensures WorldReady(hs, tee, rate, WorldRun(hs, tee, w, events).value)
  {
    if events != [] {
      var done := events[..|events| - 1];
      NoMatchIsRefused(hs, tee, rate, w, done);
      EventKeepsReady(hs, tee, rate, WorldRun(hs, tee, w, done).value, events[|events| - 1]);
    }
  }

  /** Fresh programs are ready: no order rests, nothing is locked, consumed or nullified. */
  lemma FreshWorldReady(hs: Hashes, tee: Tee, rate: uint16, w: World)
    requires forall i :: 0 <= i < |w.slots| ==> w.slots[i].status == STATUS_EMPTY && w.slots[i].filled == 0
    requires w.vault.locks == map[] && w.vault.consumed == {} && w.vault.nullifiers == {} && |w.vault.leaves| <= Pow2(w.vault.depth)
    requires w.queue == [] && w.toLock == map[] && Keys(tee, w.vault)
    ensures WorldReady(hs, tee, rate, w)
  {
  }
}
