// The vault read off its log: which locks are held, which notes are consumed, which nullifiers are
// spent and what the balance is, from the accepted instructions alone; and exactly which
// instructions are accepted.
module VaultLog {
  import opened Prelude
  import opened Crypto
  import opened MerkleTree
  import opened VaultErrors
  import opened VaultTree
  import opened Vault
  import opened Solvency

  // ---------- when each instruction is accepted ----------

  function Count(note: Digest): nat {
    if note == 0 then 0 else 1
  }

  /** The lock of an input note: held for this order, at exactly what the match pays out of it. */
  predicate LockFits(v: VaultState, note: Digest, orderId: OrderId, leg: uint64, change: uint64, fee: uint64) {
    note in v.locks && v.locks[note].orderId == orderId && v.locks[note].amount == leg + change + fee
  }

  /** What the vault demands of a settlement. */
  predicate Settles(v: VaultState, p: Payload, authority: Digest, signed: bool) {
    && authority == v.teePubkey && signed
    && LockFits(v, p.noteA, p.orderA, p.quote, p.buyerChange, p.buyerFee)
    && LockFits(v, p.noteB, p.orderB, p.base, p.sellerChange, p.sellerFee)
    && p.noteA != p.noteB && p.noteA !in v.consumed && p.noteB !in v.consumed
    && p.nullifierA != p.nullifierB && p.nullifierA !in v.nullifiers && p.nullifierB !in v.nullifiers
    && (p.noteE == 0 <==> p.buyerChange == 0) && (p.noteF == 0 <==> p.sellerChange == 0)
    && (p.buyerRelock != 0 ==> p.noteE != 0 && p.noteE !in v.locks)
    && (p.sellerRelock != 0 ==> p.noteF != 0 && p.noteF !in v.locks)
    && (p.buyerRelock != 0 && p.sellerRelock != 0 ==> p.noteE != p.noteF)
    && (p.noteFee != 0 ==> v.protocolOwner != 0)
    && p.noteC < BN254_R && p.noteD < BN254_R && p.noteE < BN254_R && p.noteF < BN254_R && p.noteFee < BN254_R
    && |v.leaves| + 2 + Count(p.noteE) + Count(p.noteF) + Count(p.noteFee) <= Pow2(v.depth)
  }

  lemma LeavesUsable(p: Payload)
    ensures |SettledLeaves(p)| == 2 + Count(p.noteE) + Count(p.noteF) + Count(p.noteFee)
    ensures AllInField(SettledLeaves(p)) <==>
      p.noteC < BN254_R && p.noteD < BN254_R && p.noteE < BN254_R && p.noteF < BN254_R && p.noteFee < BN254_R
  {
    var s := SettledLeaves(p);
    assert s[0] == p.noteC && s[1] == p.noteD;
    if p.noteE != 0 { assert s[2] == p.noteE; }
    if p.noteF != 0 { assert s[2 + Count(p.noteE)] == p.noteF; }
    if p.noteFee != 0 { assert s[2 + Count(p.noteE) + Count(p.noteF)] == p.noteFee; }
  }

  lemma ChecksExactly(v: VaultState, p: Payload, authority: Digest, signed: bool)
    requires p.noteA in v.locks && p.noteB in v.locks
    ensures SettleChecks(v, p, authority, signed).None? <==>
      && authority == v.teePubkey && signed
      && LockFits(v, p.noteA, p.orderA, p.quote, p.buyerChange, p.buyerFee)
      && LockFits(v, p.noteB, p.orderB, p.base, p.sellerChange, p.sellerFee)
      && (p.noteE == 0 <==> p.buyerChange == 0) && (p.noteF == 0 <==> p.sellerChange == 0)
      && (p.buyerRelock != 0 ==> p.noteE != 0) && (p.sellerRelock != 0 ==> p.noteF != 0)
  {
  }

  /** A settlement is accepted exactly when the TEE sends and has signed it, both input notes are
      locked for the orders it names at what it pays out, notes and nullifiers are fresh and distinct,
      change notes and re-locks are consistent, and its outputs fit in the tree. */
  lemma SettlesExactly(v: VaultState, p: Payload, authority: Digest, signed: bool)
    requires |v.leaves| <= Pow2(v.depth)
    ensures Settle(v, p, authority, signed).Ok? <==> Settles(v, p, authority, signed)
  {
    LeavesUsable(p);
    if SettleAccounts(v, p).None? {
      ChecksExactly(v, p, authority, signed);
      AppendsFacts(v.(consumed := v.consumed + {p.noteA, p.noteB}, nullifiers := v.nullifiers + {p.nullifierA, p.nullifierB}), p);
    }
  }

  /** A withdrawal is accepted exactly for a fresh nullifier, a note that is neither consumed nor
      locked, a recent root and a valid proof, of an amount the vault holds; and then it spends the
      nullifier and pays the amount. */
  lemma WithdrawsExactly(hs: Hashes, v: VaultState, note: Digest, nullifier: Digest, root: Digest, mint: Digest, amount: uint64, proofOk: bool)
    ensures Withdraw(hs, v, note, nullifier, root, mint, amount, proofOk).Ok? <==>
      && nullifier !in v.nullifiers && note !in v.locks && note !in v.consumed
      && AcceptedRoot(hs, v.depth, v.leaves, root) && proofOk && 0 < amount <= v.Balance(mint)
    ensures Withdraw(hs, v, note, nullifier, root, mint, amount, proofOk).Ok? ==>
      var w := Withdraw(hs, v, note, nullifier, root, mint, amount, proofOk).value;
      && w == v.(nullifiers := w.nullifiers, balances := w.balances)
      && (forall x :: x in w.nullifiers <==> x in v.nullifiers || x == nullifier)
      && (forall m :: w.Balance(m) == v.Balance(m) - if m == mint then amount else 0)
  {
  }

  /** A deposit is accepted exactly for a positive amount that fits the balance, field elements and
      room for a leaf; it adds the amount and the note's commitment. */
  lemma DepositsExactly(hs: Hashes, v: VaultState, mint: Digest, amount: uint64, owner: Digest, nonce: Digest, blinding: Digest)
    requires |v.leaves| <= Pow2(v.depth)
    ensures Deposit(hs, v, mint, amount, owner, nonce, blinding).Ok? <==>
      && 0 < amount <= U64_MAX - v.Balance(mint) && |v.leaves| < Pow2(v.depth)
      && owner < BN254_R && nonce < BN254_R && blinding < BN254_R
    ensures Deposit(hs, v, mint, amount, owner, nonce, blinding).Ok? ==>
      var w := Deposit(hs, v, mint, amount, owner, nonce, blinding).value;
      && w == v.(leaves := w.leaves, balances := w.balances)
      && w.leaves == v.leaves + [hs.poseidon6(mint % TWO_128, mint / TWO_128, amount, owner, nonce, blinding)]
      && (forall m :: w.Balance(m) == v.Balance(m) + if m == mint then amount else 0)
  {
  }

  /** Locking is accepted exactly from the TEE, for a note not yet locked, until a later slot, for a
      positive amount; releasing exactly for a locked note from its expiry slot on. */
  lemma LocksExactly(v: VaultState, note: Digest, orderId: OrderId, expiry: uint64, amount: uint64, authority: Digest, now: uint64)
    ensures LockNote(v, note, orderId, expiry, amount, authority, now).Ok? <==>
      authority == v.teePubkey && note !in v.locks && expiry > now && amount > 0
    ensures LockNote(v, note, orderId, expiry, amount, authority, now).Ok? ==>
      LockNote(v, note, orderId, expiry, amount, authority, now).value
        == v.(locks := v.locks[note := NoteLock(orderId, expiry, authority, amount)])
    ensures ReleaseLock(v, note, now).Ok? <==> note in v.locks && v.locks[note].expiry <= now
    ensures ReleaseLock(v, note, now).Ok? ==> ReleaseLock(v, note, now).value == v.(locks := v.locks - {note})
  {
  }

  // ---------- what each refusal means ----------

  lemma {:induction false} AppendAllRefusals(v: VaultState, leaves: seq<Digest>)
    requires |v.leaves| <= Pow2(v.depth) && AppendAll(v, leaves).Err?
    ensures AppendAll(v, leaves).error == MerkleTreeFull ==> |v.leaves| + |leaves| > Pow2(v.depth)
    ensures AppendAll(v, leaves).error == InvalidProof ==> !AllInField(leaves)
    ensures AppendAll(v, leaves).error == MerkleTreeFull || AppendAll(v, leaves).error == InvalidProof
  {
    var t := leaves[..|leaves| - 1];
    AppendAllFacts(v, t);
    if AppendAll(v, t).Err? {
      AppendAllRefusals(v, t);
    }
  }

  lemma OutsideField(p: Payload)
    ensures AllInField(SettledLeaves(p)) || exists x :: x in [p.noteC, p.noteD, p.noteE, p.noteF, p.noteFee] && x >= BN254_R
  {
    LeavesUsable(p);
    var all := [p.noteC, p.noteD, p.noteE, p.noteF, p.noteFee];
    assert all[0] in all && all[1] in all && all[2] in all && all[3] in all && all[4] in all;
  }

  ghost predicate AppendReason(v: VaultState, p: Payload, e: VaultError) {
    match e
    case ProtocolOwnerUnset => p.noteFee != 0 && v.protocolOwner == 0
    case MerkleTreeFull => |v.leaves| + 2 + Count(p.noteE) + Count(p.noteF) + Count(p.noteFee) > Pow2(v.depth)
    case InvalidProof => exists x :: x in [p.noteC, p.noteD, p.noteE, p.noteF, p.noteFee] && x >= BN254_R
    case _ => false
  }

  lemma AppendRefusals(v: VaultState, p: Payload)
    requires |v.leaves| <= Pow2(v.depth) && SettleAppends(v, p).Err?
    ensures AppendReason(v, p, SettleAppends(v, p).error)
  {
    var t, fee := TradeLeaves(p), Optional(p.noteFee);
    AppendAllFacts(v, t);
    OutsideField(p);
    assert t == (t + fee)[..|t|] && fee == (t + fee)[|t|..];
    assert AllInField(t + fee) ==> AllInField(t) && AllInField(fee);
    if AppendAll(v, t).Err? {
      AppendAllRefusals(v, t);
    } else if AppendAll(AppendAll(v, t).value, fee).Err? {
      AppendAllRefusals(AppendAll(v, t).value, fee);
    }
  }

  /** What an error of a settlement says of the vault and the payload. */
  ghost predicate SettleReason(v: VaultState, p: Payload, authority: Digest, signed: bool, e: VaultError) {
    match e
    case LockNotFound => p.noteA !in v.locks || p.noteB !in v.locks
    case NoteAlreadyConsumed => p.noteA in v.consumed || p.noteB in v.consumed || p.noteA == p.noteB
    case NullifierAlreadySpent => p.nullifierA in v.nullifiers || p.nullifierB in v.nullifiers || p.nullifierA == p.nullifierB
    case Unauthorized => authority != v.teePubkey
    case InvalidTeeSignature => !signed
    case NoteNotLockedForOrder =>
      (p.noteA in v.locks && v.locks[p.noteA].orderId != p.orderA) || (p.noteB in v.locks && v.locks[p.noteB].orderId != p.orderB)
    case ArithmeticOverflow => p.quote + p.buyerChange + p.buyerFee > U64_MAX || p.base + p.sellerChange + p.sellerFee > U64_MAX
    case ConservationViolation =>
      || (p.noteA in v.locks && v.locks[p.noteA].amount != p.quote + p.buyerChange + p.buyerFee)
      || (p.noteB in v.locks && v.locks[p.noteB].amount != p.base + p.sellerChange + p.sellerFee)
    case ChangeNoteInconsistent => !(p.noteE == 0 <==> p.buyerChange == 0) || !(p.noteF == 0 <==> p.sellerChange == 0)
    case RelockRequiresChangeNote => (p.buyerRelock != 0 && p.noteE == 0) || (p.sellerRelock != 0 && p.noteF == 0)
    case NoteAlreadyLocked =>
      || (p.buyerRelock != 0 && p.noteE in v.locks) || (p.sellerRelock != 0 && p.noteF in v.locks)
      || (p.buyerRelock != 0 && p.sellerRelock != 0 && p.noteE == p.noteF)
    case _ => AppendReason(v, p, e)
  }

  lemma ChecksRefusals(v: VaultState, p: Payload, authority: Digest, signed: bool)
    ensures SettleAccounts(v, p).Some? ==> SettleReason(v, p, authority, signed, SettleAccounts(v, p).value)
    ensures SettleAccounts(v, p).None? && SettleChecks(v, p, authority, signed).Some? ==>
      SettleReason(v, p, authority, signed, SettleChecks(v, p, authority, signed).value)
  {
  }

  /** Every refusal of a settlement names a demand it does not meet. */
  lemma SettleRefusals(v: VaultState, p: Payload, authority: Digest, signed: bool)
    requires |v.leaves| <= Pow2(v.depth) && Settle(v, p, authority, signed).Err?
    ensures SettleReason(v, p, authority, signed, Settle(v, p, authority, signed).error)
  {
    var marked := v.(consumed := v.consumed + {p.noteA, p.noteB}, nullifiers := v.nullifiers + {p.nullifierA, p.nullifierB});
    if SettleAccounts(v, p).Some? || SettleChecks(v, p, authority, signed).Some? {
      ChecksRefusals(v, p, authority, signed);
    } else if SettleAppends(marked, p).Err? {
      AppendRefusals(marked, p);
      assert AppendReason(v, p, SettleAppends(marked, p).error);
    } else {
      AppendsFacts(marked, p);
    }
  }

  /** Every refusal of a withdrawal, a deposit, a lock or a release names its reason. */
  lemma OtherRefusals(hs: Hashes, v: VaultState, op: VaultOp)
    requires !op.OpSettle? && |v.leaves| <= Pow2(v.depth) && Exec(hs, v, op).Err?
    ensures match Exec(hs, v, op).error
      case NullifierAlreadySpent => op.OpWithdraw? && op.nullifier in v.nullifiers
      case ZeroAmount => if op.OpLock? then op.lockAmount == 0 else !op.OpRelease? && op.amount == 0
      case NoteAlreadyConsumed => op.OpWithdraw? && op.note in v.consumed
      case NoteAlreadyLocked => (op.OpWithdraw? || op.OpLock?) && op.note in v.locks
      case StaleMerkleRoot => op.OpWithdraw? && !AcceptedRoot(hs, v.depth, v.leaves, op.root)
      case InvalidProof => op.OpWithdraw? && !op.proofOk
      case TokenTransferFailed =>
        (op.OpWithdraw? && v.Balance(op.mint) < op.amount) || (op.OpDeposit? && v.Balance(op.mint) + op.amount > U64_MAX)
      case MalformedPublicInputs => op.OpDeposit? && (op.owner >= BN254_R || op.nonce >= BN254_R || op.blinding >= BN254_R)
      case MerkleTreeFull => op.OpDeposit? && |v.leaves| == Pow2(v.depth)
      case Unauthorized => op.OpLock? && op.authority != v.teePubkey
      case InvalidExpirySlot => op.OpLock? && op.expiry <= op.now
      case LockNotFound => op.OpRelease? && op.note !in v.locks
      case LockNotExpired => op.OpRelease? && op.note in v.locks && op.now < v.locks[op.note].expiry
      case _ => false
  {
  }

  // ---------- runs ----------

  /** One instruction; a failed one changes nothing. */
  ghost function StepVault(hs: Hashes, v: VaultState, op: VaultOp): VaultState {
    if Exec(hs, v, op).Ok? then Exec(hs, v, op).value else v
  }

  ghost function VaultAfter(hs: Hashes, v: VaultState, ops: seq<VaultOp>): VaultState {
    if ops == [] then v else StepVault(hs, VaultAfter(hs, v, ops[..|ops| - 1]), ops[|ops| - 1])
  }

  /** The instructions of a run that were accepted. */
  ghost function Log(hs: Hashes, v: VaultState, ops: seq<VaultOp>): seq<VaultOp> {
    if ops == [] then []
    else
      var t, op := ops[..|ops| - 1], ops[|ops| - 1];
      Log(hs, v, t) + if Exec(hs, VaultAfter(hs, v, t), op).Ok? then [op] else []
  }

  /** A sequence of instructions every one of which is accepted. */
  ghost predicate IsLog(hs: Hashes, v: VaultState, log: seq<VaultOp>) {
    log == [] ||
    var t := log[..|log| - 1];
    IsLog(hs, v, t) && Exec(hs, VaultAfter(hs, v, t), log[|log| - 1]).Ok?
  }

  /** Rejected instructions leave no trace: the log alone leads to the same vault. */
  lemma {:induction false} LogSuffices(hs: Hashes, v: VaultState, ops: seq<VaultOp>)
    ensures IsLog(hs, v, Log(hs, v, ops)) && VaultAfter(hs, v, Log(hs, v, ops)) == VaultAfter(hs, v, ops)
  {
    if ops != [] {
      var t, op := ops[..|ops| - 1], ops[|ops| - 1];
      LogSuffices(hs, v, t);
      if Exec(hs, VaultAfter(hs, v, t), op).Ok? {
        assert Log(hs, v, ops) == Log(hs, v, t) + [op];
        assert (Log(hs, v, t) + [op])[..|Log(hs, v, t)|] == Log(hs, v, t);
      } else {
        assert Log(hs, v, ops) == Log(hs, v, t);
      }
    }
  }

  lemma {:induction false} PrefixIsLog(hs: Hashes, v: VaultState, log: seq<VaultOp>, k: nat)
    requires IsLog(hs, v, log) && k <= |log|
    ensures IsLog(hs, v, log[..k])
    decreases |log|
  {
    if k < |log| {
      var t := log[..|log| - 1];
      PrefixIsLog(hs, v, t, k);
      assert t[..k] == log[..k];
    } else {
      assert log[..k] == log;
    }
  }

  /** Every entry of a log is accepted by the vault the entries before it lead to. */
  lemma EntryAccepted(hs: Hashes, v: VaultState, log: seq<VaultOp>, k: nat)
    requires IsLog(hs, v, log) && k < |log|
    ensures IsLog(hs, v, log[..k]) && Exec(hs, VaultAfter(hs, v, log[..k]), log[k]).Ok?
  {
    PrefixIsLog(hs, v, log, k + 1);
    assert log[..k + 1][..k] == log[..k];
  }

  // ---------- histories read off the log ----------

  /** The lock one instruction leaves on a note. */
  function LockThrough(op: VaultOp, note: Digest, before: Option<NoteLock>): Option<NoteLock> {
    match op
    case OpLock(n, orderId, expiry, amount, authority, _) =>
      if n == note then Some(NoteLock(orderId, expiry, authority, amount)) else before
    case OpRelease(n, _) => if n == note then None else before
    case OpSettle(p, authority, _) =>
      if note == p.noteA || note == p.noteB then None
      else if p.buyerRelock != 0 && note == p.noteE then Some(NoteLock(p.buyerRelock, p.buyerRelockExpiry, authority, p.buyerChange))
      else if p.sellerRelock != 0 && note == p.noteF then Some(NoteLock(p.sellerRelock, p.sellerRelockExpiry, authority, p.sellerChange))
      else before
    case _ => before
  }

  /** The lock on a note, from the log. */
  function LockBy(log: seq<VaultOp>, note: Digest): Option<NoteLock> {
    if log == [] then None else LockThrough(log[|log| - 1], note, LockBy(log[..|log| - 1], note))
  }

  predicate Consumes(op: VaultOp, note: Digest) {
    op.OpSettle? && (note == op.payload.noteA || note == op.payload.noteB)
  }

  predicate Spends(op: VaultOp, nullifier: Digest) {
    || (op.OpSettle? && (nullifier == op.payload.nullifierA || nullifier == op.payload.nullifierB))
    || (op.OpWithdraw? && nullifier == op.nullifier)
  }

  function Flow(op: VaultOp, mint: Digest): int {
    if op.OpDeposit? && op.mint == mint then op.amount
    else if op.OpWithdraw? && op.mint == mint then 0 - op.amount
    else 0
  }

  /** Deposits less withdrawals in one mint. */
  function NetFlow(log: seq<VaultOp>, mint: Digest): int {
    if log == [] then 0 else NetFlow(log[..|log| - 1], mint) + Flow(log[|log| - 1], mint)
  }

  /** A vault as it is initialised. */
  predicate Fresh(v: VaultState) {
    v.leaves == [] && v.locks == map[] && v.consumed == {} && v.nullifiers == {} && v.balances == map[]
  }

  function LockIn(v: VaultState, note: Digest): Option<NoteLock> {
    if note in v.locks then Some(v.locks[note]) else None
  }

  ghost predicate Follows(v0: VaultState, v: VaultState, log: seq<VaultOp>) {
    && v.depth == v0.depth && v.teePubkey == v0.teePubkey && v.protocolOwner == v0.protocolOwner
    && |v.leaves| <= Pow2(v.depth)
    && (forall n :: LockIn(v, n) == LockBy(log, n))
    && (forall n :: n in v.consumed <==> exists k :: 0 <= k < |log| && Consumes(log[k], n))
    && (forall x :: x in v.nullifiers <==> exists k :: 0 <= k < |log| && Spends(log[k], x))
    && (forall m :: v.Balance(m) == NetFlow(log, m))
  }

  lemma SettleLocks(v: VaultState, p: Payload, authority: Digest, signed: bool, note: Digest)
    requires |v.leaves| <= Pow2(v.depth) && Settle(v, p, authority, signed).Ok?
    ensures LockIn(Settle(v, p, authority, signed).value, note) == LockThrough(OpSettle(p, authority, signed), note, LockIn(v, note))
  {
    AppendsFacts(v.(consumed := v.consumed + {p.noteA, p.noteB}, nullifiers := v.nullifiers + {p.nullifierA, p.nullifierB}), p);
  }

  lemma SettleKeepsRest(v: VaultState, p: Payload, authority: Digest, signed: bool)
    requires |v.leaves| <= Pow2(v.depth) && Settle(v, p, authority, signed).Ok?
    ensures
      var w := Settle(v, p, authority, signed).value;
      && w.depth == v.depth && w.teePubkey == v.teePubkey && w.protocolOwner == v.protocolOwner && w.balances == v.balances
      && |w.leaves| <= Pow2(w.depth)
      && w.consumed == v.consumed + {p.noteA, p.noteB} && w.nullifiers == v.nullifiers + {p.nullifierA, p.nullifierB}
  {
    AppendsFacts(v.(consumed := v.consumed + {p.noteA, p.noteB}, nullifiers := v.nullifiers + {p.nullifierA, p.nullifierB}), p);
  }

  /** How each record moves from `v` to `w` under an accepted instruction. */
  ghost predicate Moves(v: VaultState, op: VaultOp, w: VaultState) {
    && w.depth == v.depth && w.teePubkey == v.teePubkey && w.protocolOwner == v.protocolOwner && |w.leaves| <= Pow2(w.depth)
    && (forall n :: LockIn(w, n) == LockThrough(op, n, LockIn(v, n)))
    && (forall n :: n in w.consumed <==> n in v.consumed || Consumes(op, n))
    && (forall x :: x in w.nullifiers <==> x in v.nullifiers || Spends(op, x))
    && (forall m :: w.Balance(m) == v.Balance(m) + Flow(op, m))
  }

  lemma SettleMoves(v: VaultState, p: Payload, authority: Digest, signed: bool)
    requires |v.leaves| <= Pow2(v.depth) && Settle(v, p, authority, signed).Ok?
    ensures Moves(v, OpSettle(p, authority, signed), Settle(v, p, authority, signed).value)
  {
    var w := Settle(v, p, authority, signed).value;
    SettleKeepsRest(v, p, authority, signed);
    forall n ensures LockIn(w, n) == LockThrough(OpSettle(p, authority, signed), n, LockIn(v, n)) {
      SettleLocks(v, p, authority, signed, n);
    }
  }

  lemma OneStep(hs: Hashes, v: VaultState, op: VaultOp)
    requires |v.leaves| <= Pow2(v.depth) && Exec(hs, v, op).Ok?
    ensures Moves(v, op, Exec(hs, v, op).value)
  {
    match op
    case OpSettle(p, authority, signed) => SettleMoves(v, p, authority, signed);
    case OpDeposit(mint, amount, owner, nonce, blinding) => DepositsExactly(hs, v, mint, amount, owner, nonce, blinding);
    case OpWithdraw(note, nullifier, root, mint, amount, proofOk) =>
      WithdrawsExactly(hs, v, note, nullifier, root, mint, amount, proofOk);
    case OpLock(note, orderId, expiry, amount, authority, now) => LocksExactly(v, note, orderId, expiry, amount, authority, now);
    case OpRelease(note, now) => LocksExactly(v, note, 0, 0, 0, 0, now);
  }

  lemma ExtendedBy<T>(log: seq<T>, t: seq<T>, op: T, P: T -> bool)
    requires log == t + [op]
    ensures (exists k :: 0 <= k < |log| && P(log[k])) <==> (exists k :: 0 <= k < |t| && P(t[k])) || P(op)
  {
    if k :| 0 <= k < |t| && P(t[k]) {
      assert P(log[k]);
    }
    if P(op) {
      assert P(log[|t|]);
    }
  }

  lemma FollowsStep(v0: VaultState, v: VaultState, t: seq<VaultOp>, op: VaultOp, w: VaultState)
    requires Follows(v0, v, t) && Moves(v, op, w)
    ensures Follows(v0, w, t + [op])
  {
    var log := t + [op];
    assert log[..|t|] == t;
    forall n ensures n in w.consumed <==> exists k :: 0 <= k < |log| && Consumes(log[k], n) {
      ExtendedBy(log, t, op, o => Consumes(o, n));
    }
    forall x ensures x in w.nullifiers <==> exists k :: 0 <= k < |log| && Spends(log[k], x) {
      ExtendedBy(log, t, op, o => Spends(o, x));
    }
  }

  /** Locks, consumed notes, spent nullifiers and balances are what the log of accepted instructions
      says, after any run from a fresh vault. */
  lemma {:induction false} VaultFollowsLog(hs: Hashes, v: VaultState, log: seq<VaultOp>)
    requires Fresh(v) && IsLog(hs, v, log)
    ensures Follows(v, VaultAfter(hs, v, log), log)
  {
    if log == [] {
      assert Pow2(v.depth) > 0;
    } else {
      var t := log[..|log| - 1];
      VaultFollowsLog(hs, v, t);
      OneStep(hs, VaultAfter(hs, v, t), log[|log| - 1]);
      FollowsStep(v, VaultAfter(hs, v, t), t, log[|log| - 1], VaultAfter(hs, v, log));
      assert log == t + [log[|log| - 1]];
    }
  }

  // ---------- locks over a run ----------

  /** The instruction puts this lock on the note: it locks it, or re-locks it as a change note. */
  predicate Takes(op: VaultOp, note: Digest, l: NoteLock) {
    match op
    case OpLock(n, orderId, expiry, amount, authority, _) => n == note && l == NoteLock(orderId, expiry, authority, amount)
    case OpSettle(p, authority, _) =>
      || (p.buyerRelock != 0 && p.noteE == note && l == NoteLock(p.buyerRelock, p.buyerRelockExpiry, authority, p.buyerChange))
      || (p.sellerRelock != 0 && p.noteF == note && l == NoteLock(p.sellerRelock, p.sellerRelockExpiry, authority, p.sellerChange))
    case _ => false
  }

  /** The instruction ends the note's lock: it releases it, or consumes the note. */
  predicate Frees(op: VaultOp, note: Digest) {
    (op.OpRelease? && op.note == note) || Consumes(op, note)
  }

  ghost predicate UntouchedFrom(log: seq<VaultOp>, i: nat, note: Digest) {
    forall j :: i < j < |log| ==> !Frees(log[j], note)
  }

  /** What an accepted instruction leaves of a note's lock: a taken lock was not there before, comes
      from the TEE, and is there afterwards; a lock that is not freed stays. */
  lemma AcceptedLock(hs: Hashes, v: VaultState, op: VaultOp, note: Digest)
    requires |v.leaves| <= Pow2(v.depth) && Exec(hs, v, op).Ok?
    ensures forall l :: Takes(op, note, l) ==>
      LockIn(v, note).None? && l.lockedBy == v.teePubkey && LockIn(Exec(hs, v, op).value, note) == Some(l)
    ensures LockIn(v, note).Some? && !Frees(op, note) ==> LockIn(Exec(hs, v, op).value, note) == LockIn(v, note)
    ensures Frees(op, note) ==> LockIn(v, note).Some? && LockIn(Exec(hs, v, op).value, note).None?
    ensures LockIn(v, note).None? && LockIn(Exec(hs, v, op).value, note).Some? ==>
      Takes(op, note, LockIn(Exec(hs, v, op).value, note).value)
  {
    OneStep(hs, v, op);
    if op.OpSettle? {
      SettlesExactly(v, op.payload, op.authority, op.signed);
    }
  }

  /** Splits the last entry off a log. */
  lemma LastEntry(hs: Hashes, v: VaultState, log: seq<VaultOp>)
    requires Fresh(v) && IsLog(hs, v, log) && log != []
    ensures
      var t, op := log[..|log| - 1], log[|log| - 1];
      && log == t + [op] && IsLog(hs, v, t)
      && Follows(v, VaultAfter(hs, v, t), t) && Exec(hs, VaultAfter(hs, v, t), op).Ok?
      && VaultAfter(hs, v, log) == Exec(hs, VaultAfter(hs, v, t), op).value
  {
    VaultFollowsLog(hs, v, log[..|log| - 1]);
  }

  /** A lock stays as it was taken until it is released or its note is consumed. */
  lemma {:induction false} LockStays(hs: Hashes, v: VaultState, log: seq<VaultOp>, i: nat, note: Digest, l: NoteLock)
    requires Fresh(v) && IsLog(hs, v, log) && i < |log| && Takes(log[i], note, l) && UntouchedFrom(log, i, note)
    ensures LockIn(VaultAfter(hs, v, log), note) == Some(l)
  {
    var t, op := log[..|log| - 1], log[|log| - 1];
    LastEntry(hs, v, log);
    AcceptedLock(hs, VaultAfter(hs, v, t), op, note);
    if i < |t| {
      assert forall j :: i < j < |t| ==> t[j] == log[j];
      LockStays(hs, v, t, i, note, l);
    }
  }

  /** Every lock that is held was taken by the TEE, as it stands, and has not been freed since. */
  lemma {:induction false} LockHasOrigin(hs: Hashes, v: VaultState, log: seq<VaultOp>, note: Digest) returns (i: nat)
    requires Fresh(v) && IsLog(hs, v, log) && LockIn(VaultAfter(hs, v, log), note).Some?
    ensures i < |log| && Takes(log[i], note, LockIn(VaultAfter(hs, v, log), note).value) && UntouchedFrom(log, i, note)
    ensures LockIn(VaultAfter(hs, v, log), note).value.lockedBy == v.teePubkey
  {
    var t, op := log[..|log| - 1], log[|log| - 1];
    LastEntry(hs, v, log);
    AcceptedLock(hs, VaultAfter(hs, v, t), op, note);
    if LockIn(VaultAfter(hs, v, t), note).Some? {
      i := LockHasOrigin(hs, v, t, note);
    } else {
      i := |t|;
    }
  }

  /** The match releases a lock that was taken for this order at what it pays out, and not freed since. */
  ghost predicate SettledAsTaken(v: VaultState, log: seq<VaultOp>, k: nat, note: Digest, orderId: OrderId, paid: int)
    requires k <= |log|
  {
    exists i: nat, l: NoteLock :: i < k && Takes(log[i], note, l) && UntouchedFrom(log[..k], i, note)
      && l.orderId == orderId && l.amount == paid && l.lockedBy == v.teePubkey
  }

  /** Over a run, a lock is consumed only by a match the TEE sent and signed, of the order the lock was
      taken or re-locked for, that pays out exactly the locked amount. */
  lemma LocksSettleTheirOrder(hs: Hashes, v: VaultState, ops: seq<VaultOp>, k: nat)
    requires Fresh(v) && k < |Log(hs, v, ops)| && Log(hs, v, ops)[k].OpSettle?
    ensures
      var log := Log(hs, v, ops);
      var p := log[k].payload;
      && log[k].authority == v.teePubkey && log[k].signed
      && SettledAsTaken(v, log, k, p.noteA, p.orderA, p.quote + p.buyerChange + p.buyerFee)
      && SettledAsTaken(v, log, k, p.noteB, p.orderB, p.base + p.sellerChange + p.sellerFee)
  {
    var log := Log(hs, v, ops);
    LogSuffices(hs, v, ops);
    EntryAccepted(hs, v, log, k);
    VaultFollowsLog(hs, v, log[..k]);
    var w, p := VaultAfter(hs, v, log[..k]), log[k].payload;
    SettlesExactly(w, p, log[k].authority, log[k].signed);
    var a := LockHasOrigin(hs, v, log[..k], p.noteA);
    var b := LockHasOrigin(hs, v, log[..k], p.noteB);
    assert Takes(log[a], p.noteA, w.locks[p.noteA]) && Takes(log[b], p.noteB, w.locks[p.noteB]);
  }

  /** Over a run, a lock is released only from the expiry slot it was taken with. */
  lemma ReleasedOnceExpired(hs: Hashes, v: VaultState, ops: seq<VaultOp>, k: nat)
    requires Fresh(v) && k < |Log(hs, v, ops)| && Log(hs, v, ops)[k].OpRelease?
    ensures
      var log := Log(hs, v, ops);
      exists i: nat, l: NoteLock :: i < k && Takes(log[i], log[k].note, l) && UntouchedFrom(log[..k], i, log[k].note)
        && l.expiry <= log[k].now
  {
    var log := Log(hs, v, ops);
    LogSuffices(hs, v, ops);
    EntryAccepted(hs, v, log, k);
    var w := VaultAfter(hs, v, log[..k]);
    LocksExactly(w, log[k].note, 0, 0, 0, 0, log[k].now);
    var i := LockHasOrigin(hs, v, log[..k], log[k].note);
    assert Takes(log[i], log[k].note, w.locks[log[k].note]);
  }

  // ---------- withdrawals over a run ----------

  ghost predicate EverConsumed(log: seq<VaultOp>, note: Digest) {
    exists k :: 0 <= k < |log| && Consumes(log[k], note)
  }

  ghost predicate EverSpent(log: seq<VaultOp>, nullifier: Digest) {
    exists k :: 0 <= k < |log| && Spends(log[k], nullifier)
  }

  /** After any run, a withdrawal succeeds exactly if no accepted instruction spent its nullifier or
      consumed its note, no lock on the note is left, the root is recent, the verifier accepts the
      proof, and the mint's deposits exceed its withdrawals by the amount. */
  lemma WithdrawsByLog(hs: Hashes, v: VaultState, ops: seq<VaultOp>, op: VaultOp)
    requires Fresh(v) && op.OpWithdraw?
    ensures
      var log, w := Log(hs, v, ops), VaultAfter(hs, v, ops);
      Exec(hs, w, op).Ok? <==>
        && !EverSpent(log, op.nullifier) && !EverConsumed(log, op.note) && LockBy(log, op.note).None?
        && AcceptedRoot(hs, w.depth, w.leaves, op.root) && op.proofOk && 0 < op.amount <= NetFlow(log, op.mint)
  {
    LogSuffices(hs, v, ops);
    VaultFollowsLog(hs, v, Log(hs, v, ops));
    var w := VaultAfter(hs, v, ops);
    WithdrawsExactly(hs, w, op.note, op.nullifier, op.root, op.mint, op.amount, op.proofOk);
    assert LockIn(w, op.note) == LockBy(Log(hs, v, ops), op.note);
  }

  lemma UsedUpIsRefused(hs: Hashes, v: VaultState, op: VaultOp, note: Digest, nullifier: Digest)
    ensures note in v.consumed && Consumes(op, note) ==> Exec(hs, v, op).Err?
    ensures note in v.consumed && op.OpWithdraw? && op.note == note ==> Exec(hs, v, op).Err?
    ensures nullifier in v.nullifiers && Spends(op, nullifier) ==> Exec(hs, v, op).Err?
  {
  }

  lemma LockedIsRefused(hs: Hashes, v: VaultState, op: VaultOp)
    requires op.OpWithdraw? && op.note in v.locks
    ensures Exec(hs, v, op).Err?
  {
  }

  /** From the moment a note is locked or re-locked until its lock is released or settled, no
      withdrawal that names it succeeds. */
  lemma LockedNoteStays(hs: Hashes, v: VaultState, ops: seq<VaultOp>, i: nat, l: NoteLock, op: VaultOp)
    requires Fresh(v) && op.OpWithdraw? && i < |Log(hs, v, ops)|
    requires Takes(Log(hs, v, ops)[i], op.note, l) && UntouchedFrom(Log(hs, v, ops), i, op.note)
    ensures Exec(hs, VaultAfter(hs, v, ops), op).Err?
  {
    LogSuffices(hs, v, ops);
    LockStays(hs, v, Log(hs, v, ops), i, op.note, l);
    LockedIsRefused(hs, VaultAfter(hs, v, ops), op);
  }

  /** Once a match has consumed a note, no withdrawal that names it succeeds, and no other match. */
  lemma ConsumedNoteIsGone(hs: Hashes, v: VaultState, ops: seq<VaultOp>, note: Digest, op: VaultOp)
    requires Fresh(v) && EverConsumed(Log(hs, v, ops), note)
    requires (op.OpWithdraw? && op.note == note) || Consumes(op, note)
    ensures Exec(hs, VaultAfter(hs, v, ops), op).Err?
  {
    LogSuffices(hs, v, ops);
    VaultFollowsLog(hs, v, Log(hs, v, ops));
    UsedUpIsRefused(hs, VaultAfter(hs, v, ops), op, note, 0);
  }

  /** A nullifier is spent by at most one instruction of a run, settlement or withdrawal. */
  lemma SpentOnce(hs: Hashes, v: VaultState, ops: seq<VaultOp>, i: nat, k: nat, nullifier: Digest)
    requires Fresh(v) && i < k < |Log(hs, v, ops)| && Spends(Log(hs, v, ops)[i], nullifier)
    ensures !Spends(Log(hs, v, ops)[k], nullifier)
  {
    var log := Log(hs, v, ops);
    LogSuffices(hs, v, ops);
    EntryAccepted(hs, v, log, k);
    VaultFollowsLog(hs, v, log[..k]);
    assert Spends(log[..k][i], nullifier);
    UsedUpIsRefused(hs, VaultAfter(hs, v, log[..k]), log[k], 0, nullifier);
  }

  /** The log leaves this lock on an input note: for its order, at what the match pays out of it. */
  predicate LockedBy(log: seq<VaultOp>, note: Digest, orderId: OrderId, paid: int) {
    LockBy(log, note).Some? && LockBy(log, note).value.orderId == orderId && LockBy(log, note).value.amount == paid
  }

  /** After any run, a settlement is accepted exactly if the TEE sent and signed it, the log leaves
      both input notes locked for its orders at what it pays out, no instruction used up its notes or
      nullifiers, and its change notes, re-locks and outputs are in order. */
  lemma SettlesByLog(hs: Hashes, v: VaultState, ops: seq<VaultOp>, op: VaultOp)
    requires Fresh(v) && op.OpSettle?
    ensures
      var log, w, p := Log(hs, v, ops), VaultAfter(hs, v, ops), op.payload;
      Exec(hs, w, op).Ok? <==>
        && op.authority == v.teePubkey && op.signed
        && LockedBy(log, p.noteA, p.orderA, p.quote + p.buyerChange + p.buyerFee)
        && LockedBy(log, p.noteB, p.orderB, p.base + p.sellerChange + p.sellerFee)
        && !EverConsumed(log, p.noteA) && !EverConsumed(log, p.noteB) && p.noteA != p.noteB
        && !EverSpent(log, p.nullifierA) && !EverSpent(log, p.nullifierB) && p.nullifierA != p.nullifierB
        && (p.noteE == 0 <==> p.buyerChange == 0) && (p.noteF == 0 <==> p.sellerChange == 0)
        && (p.buyerRelock != 0 ==> p.noteE != 0 && LockBy(log, p.noteE).None?)
        && (p.sellerRelock != 0 ==> p.noteF != 0 && LockBy(log, p.noteF).None?)
        && (p.buyerRelock != 0 && p.sellerRelock != 0 ==> p.noteE != p.noteF)
        && (p.noteFee != 0 ==> v.protocolOwner != 0)
        && p.noteC < BN254_R && p.noteD < BN254_R && p.noteE < BN254_R && p.noteF < BN254_R && p.noteFee < BN254_R
        && |w.leaves| + 2 + Count(p.noteE) + Count(p.noteF) + Count(p.noteFee) <= Pow2(v.depth)
  {
    LogSuffices(hs, v, ops);
    VaultFollowsLog(hs, v, Log(hs, v, ops));
    var w, p := VaultAfter(hs, v, ops), op.payload;
    SettlesExactly(w, p, op.authority, op.signed);
    assert LockIn(w, p.noteA) == LockBy(Log(hs, v, ops), p.noteA) && LockIn(w, p.noteB) == LockBy(Log(hs, v, ops), p.noteB);
    assert LockIn(w, p.noteE) == LockBy(Log(hs, v, ops), p.noteE) && LockIn(w, p.noteF) == LockBy(Log(hs, v, ops), p.noteF);
  }
}
