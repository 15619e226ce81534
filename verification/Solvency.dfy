// Solvency of the vault over any interleaving of its instructions.
module Solvency {
  import opened Prelude
  import opened Crypto
  import opened MerkleTree
  import opened VaultErrors
  import opened Vault

  datatype VaultOp =
    | OpDeposit(mint: Digest, amount: uint64, owner: Digest, nonce: Digest, blinding: Digest)
    | OpLock(note: Digest, orderId: OrderId, expiry: uint64, lockAmount: uint64, authority: Digest, now: uint64)
    | OpRelease(note: Digest, now: uint64)
    | OpSettle(payload: Payload, authority: Digest, signed: bool)
    | OpWithdraw(note: Digest, nullifier: Digest, root: Digest, mint: Digest, amount: uint64, proofOk: bool)

  ghost function Exec(hs: Hashes, v: VaultState, op: VaultOp): Result<VaultState, VaultError> {
    match op
    case OpDeposit(mint, amount, owner, nonce, blinding) => Deposit(hs, v, mint, amount, owner, nonce, blinding)
    case OpLock(note, orderId, expiry, amount, authority, now) => LockNote(v, note, orderId, expiry, amount, authority, now)
    case OpRelease(note, now) => ReleaseLock(v, note, now)
    case OpSettle(p, authority, signed) => Settle(v, p, authority, signed)
    case OpWithdraw(note, nullifier, root, mint, amount, proofOk) => Withdraw(hs, v, note, nullifier, root, mint, amount, proofOk)
  }

  // ---------- what notes are worth ----------

  /** What a commitment opens to. */
  datatype Opening = Opening(mint: Digest, amount: uint64, nullifier: Digest)

  function Worth(open: Fr -> Opening, leaf: Fr, spent: set<Digest>, mint: Digest): nat {
    if open(leaf).mint == mint && open(leaf).nullifier !in spent then open(leaf).amount else 0
  }

  /** Total value in one mint of the notes in the tree whose nullifier is not spent. */
  function Outstanding(open: Fr -> Opening, leaves: seq<Fr>, spent: set<Digest>, mint: Digest): nat {
    if leaves == [] then 0
    else Outstanding(open, leaves[..|leaves| - 1], spent, mint) + Worth(open, leaves[|leaves| - 1], spent, mint)
  }

  lemma {:induction false} OutstandingAppends(open: Fr -> Opening, leaves: seq<Fr>, more: seq<Fr>, spent: set<Digest>, mint: Digest)
    ensures Outstanding(open, leaves + more, spent, mint) == Outstanding(open, leaves, spent, mint) + Outstanding(open, more, spent, mint)
  {
    if more == [] {
      assert leaves + more == leaves;
    } else {
      OutstandingAppends(open, leaves, more[..|more| - 1], spent, mint);
      assert (leaves + more)[..|leaves + more| - 1] == leaves + more[..|more| - 1];
    }
  }

  lemma {:induction false} SpendingOnlyLowers(open: Fr -> Opening, leaves: seq<Fr>, spent: set<Digest>, x: Digest, mint: Digest)
    ensures Outstanding(open, leaves, spent + {x}, mint) <= Outstanding(open, leaves, spent, mint)
  {
    if leaves != [] {
      SpendingOnlyLowers(open, leaves[..|leaves| - 1], spent, x, mint);
    }
  }

  /** Spending a note's nullifier takes at least its value out. */
  lemma {:induction false} SpendingDrops(open: Fr -> Opening, leaves: seq<Fr>, spent: set<Digest>, leaf: Fr, mint: Digest)
    requires leaf in leaves && open(leaf).nullifier !in spent
    ensures Outstanding(open, leaves, spent + {open(leaf).nullifier}, mint) + Worth(open, leaf, spent, mint)
         <= Outstanding(open, leaves, spent, mint)
  {
    var t, last := leaves[..|leaves| - 1], leaves[|leaves| - 1];
    assert leaves == t + [last];
    if last == leaf {
      SpendingOnlyLowers(open, t, spent, open(leaf).nullifier, mint);
    } else {
      SpendingDrops(open, t, spent, leaf, mint);
    }
  }

  lemma {:induction false} NoteIsOutstanding(open: Fr -> Opening, leaves: seq<Fr>, spent: set<Digest>, leaf: Fr, mint: Digest)
    requires leaf in leaves
    ensures Worth(open, leaf, spent, mint) <= Outstanding(open, leaves, spent, mint)
  {
    var t, last := leaves[..|leaves| - 1], leaves[|leaves| - 1];
    assert leaves == t + [last];
    if last != leaf {
      NoteIsOutstanding(open, t, spent, leaf, mint);
    }
  }

  // ---------- honesty of what the vault cannot check ----------

  /** A settlement consumes two notes of the tree at the value their locks state and under their own
      nullifiers, and the notes it appends open to the amounts of the payload. */
  ghost predicate HonestPayload(open: Fr -> Opening, v: VaultState, p: Payload)
    requires p.noteA in v.locks && p.noteB in v.locks && AllInField(SettledLeaves(p))
  {
    && p.noteA < BN254_R && p.noteA in v.leaves && p.noteB < BN254_R && p.noteB in v.leaves
    && var quote, base := open(p.noteA).mint, open(p.noteB).mint;
    && open(p.noteA) == Opening(quote, v.locks[p.noteA].amount, p.nullifierA)
    && open(p.noteB) == Opening(base, v.locks[p.noteB].amount, p.nullifierB)
    && SettledLeaves(p)[0] == p.noteC && SettledLeaves(p)[1] == p.noteD
    && open(p.noteC).mint == base && open(p.noteC).amount == p.base
    && open(p.noteD).mint == quote && open(p.noteD).amount == p.quote
    && (p.noteE != 0 ==> p.noteE < BN254_R && open(p.noteE).mint == quote && open(p.noteE).amount == p.buyerChange)
    && (p.noteF != 0 ==> p.noteF < BN254_R && open(p.noteF).mint == base && open(p.noteF).amount == p.sellerChange)
    && (p.noteFee != 0 ==> p.noteFee < BN254_R)
  }

  /** A deposit's commitment opens to what was deposited; a verified withdrawal proof speaks of a note
      of the tree. */
  ghost predicate Honest(hs: Hashes, open: Fr -> Opening, v: VaultState, op: VaultOp) {
    Exec(hs, v, op).Ok? ==>
      match op
      case OpDeposit(mint, amount, owner, nonce, blinding) =>
        var c := CommitmentFromFields(hs, mint, amount, owner, nonce, blinding);
        c.Some? && open(c.value).mint == mint && open(c.value).amount == amount
      case OpSettle(p, _, _) =>
        p.noteA in v.locks && p.noteB in v.locks && AllInField(SettledLeaves(p)) && HonestPayload(open, v, p)
      case OpWithdraw(_, nullifier, _, mint, amount, _) =>
        exists leaf :: leaf in v.leaves && open(leaf) == Opening(mint, amount, nullifier)
      case _ => true
  }

  /** Fees a settlement leaves in the vault in one mint, less the fee note it mints there. */
  ghost function FeesKept(open: Fr -> Opening, p: Payload, mint: Digest): int
    requires p.noteA < BN254_R && p.noteB < BN254_R && (p.noteFee != 0 ==> p.noteFee < BN254_R)
  {
    (if open(p.noteA).mint == mint then p.buyerFee else 0)
    + (if open(p.noteB).mint == mint then p.sellerFee else 0)
    - (if p.noteFee != 0 && open(p.noteFee).mint == mint then open(p.noteFee).amount else 0)
  }

  // ---------- runs ----------

  /** The vault and the fees retained so far in the mint under watch. */
  datatype Ledger = Ledger(vault: VaultState, kept: int)

  ghost function LedgerStep(hs: Hashes, open: Fr -> Opening, mint: Digest, l: Ledger, op: VaultOp): Ledger
    requires Honest(hs, open, l.vault, op)
  {
    if Exec(hs, l.vault, op).Err? then l
    else
      Ledger(Exec(hs, l.vault, op).value,
             if op.OpSettle? then l.kept + FeesKept(open, op.payload, mint) else l.kept)
  }

  ghost predicate HonestRun(hs: Hashes, open: Fr -> Opening, mint: Digest, l: Ledger, ops: seq<VaultOp>)
    decreases |ops|, 0
  {
    ops == [] ||
    var done := ops[..|ops| - 1];
    HonestRun(hs, open, mint, l, done) && Honest(hs, open, LedgerRun(hs, open, mint, l, done).vault, ops[|ops| - 1])
  }

  ghost function LedgerRun(hs: Hashes, open: Fr -> Opening, mint: Digest, l: Ledger, ops: seq<VaultOp>): Ledger
    requires HonestRun(hs, open, mint, l, ops)
    decreases |ops|, 1
  {
    if ops == [] then l
    else LedgerStep(hs, open, mint, LedgerRun(hs, open, mint, l, ops[..|ops| - 1]), ops[|ops| - 1])
  }

  /** Notes and retained fees together never exceed the vault's balance. */
  ghost predicate Balanced(open: Fr -> Opening, mint: Digest, l: Ledger) {
    && |l.vault.leaves| <= Pow2(l.vault.depth)
    && Outstanding(open, l.vault.leaves, l.vault.nullifiers, mint) + l.kept <= l.vault.Balance(mint)
  }

  // ---------- one settlement ----------

  lemma AppendedWorth(open: Fr -> Opening, p: Payload, leaves: seq<Fr>, spent: set<Digest>, mint: Digest)
    requires AllInField(SettledLeaves(p)) && leaves == SettledLeaves(p)
    ensures p.noteC < BN254_R && p.noteD < BN254_R
    ensures p.noteE < BN254_R && p.noteF < BN254_R && p.noteFee < BN254_R
    ensures Outstanding(open, leaves, spent, mint) ==
            Worth(open, p.noteC, spent, mint) + Worth(open, p.noteD, spent, mint)
            + (if p.noteE != 0 then Worth(open, p.noteE, spent, mint) else 0)
            + (if p.noteF != 0 then Worth(open, p.noteF, spent, mint) else 0)
            + (if p.noteFee != 0 then Worth(open, p.noteFee, spent, mint) else 0)
  {
    var s := SettledLeaves(p);
    var e := if p.noteE != 0 then 1 else 0;
    var f := if p.noteF != 0 then 1 else 0;
    assert s[0] == p.noteC && s[1] == p.noteD;
    if p.noteE != 0 { assert s[2] == p.noteE; }
    if p.noteF != 0 { assert s[2 + e] == p.noteF; }
    if p.noteFee != 0 { assert s[2 + e + f] == p.noteFee; }
    var cd: seq<Fr> := [p.noteC, p.noteD];
    var es: seq<Fr> := Optional(p.noteE);
    var fs: seq<Fr> := Optional(p.noteF);
    var gs: seq<Fr> := Optional(p.noteFee);
    assert leaves == cd + es + fs + gs;
    OutstandingAppends(open, cd + es + fs, gs, spent, mint);
    OutstandingAppends(open, cd + es, fs, spent, mint);
    OutstandingAppends(open, cd, es, spent, mint);
    assert cd[..1] == [p.noteC] && [p.noteC][..0] == [];
  }

  lemma SettleEffect(v: VaultState, p: Payload, authority: Digest, signed: bool)
    requires |v.leaves| <= Pow2(v.depth) && Settle(v, p, authority, signed).Ok?
    ensures
      var w := Settle(v, p, authority, signed).value;
      && p.noteA in v.locks && p.noteB in v.locks && AllInField(SettledLeaves(p))
      && v.locks[p.noteA].amount == p.quote + p.buyerChange + p.buyerFee
      && v.locks[p.noteB].amount == p.base + p.sellerChange + p.sellerFee
      && ((p.noteE != 0) == (p.buyerChange > 0)) && ((p.noteF != 0) == (p.sellerChange > 0))
      && p.nullifierA !in v.nullifiers && p.nullifierB !in v.nullifiers && p.nullifierA != p.nullifierB
      && w.leaves == v.leaves + SettledLeaves(p) && |w.leaves| <= Pow2(w.depth) && w.depth == v.depth
      && w.nullifiers == v.nullifiers + {p.nullifierA, p.nullifierB} && w.balances == v.balances
  {
    var marked := v.(consumed := v.consumed + {p.noteA, p.noteB}, nullifiers := v.nullifiers + {p.nullifierA, p.nullifierB});
    AppendsFacts(marked, p);
  }

  /** The two inputs leave the outstanding value. */
  lemma InputsDrop(open: Fr -> Opening, v: VaultState, p: Payload, mint: Digest)
    requires p.noteA in v.locks && p.noteB in v.locks && AllInField(SettledLeaves(p)) && HonestPayload(open, v, p)
    requires p.nullifierA !in v.nullifiers && p.nullifierB !in v.nullifiers && p.nullifierA != p.nullifierB
    ensures Outstanding(open, v.leaves, v.nullifiers + {p.nullifierA, p.nullifierB}, mint)
            + (if open(p.noteA).mint == mint then v.locks[p.noteA].amount else 0)
            + (if open(p.noteB).mint == mint then v.locks[p.noteB].amount else 0)
         <= Outstanding(open, v.leaves, v.nullifiers, mint)
  {
    SpendingDrops(open, v.leaves, v.nullifiers, p.noteA, mint);
    SpendingDrops(open, v.leaves, v.nullifiers + {p.nullifierA}, p.noteB, mint);
    assert v.nullifiers + {p.nullifierA} + {p.nullifierB} == v.nullifiers + {p.nullifierA, p.nullifierB};
  }

  /** What the notes of an honest payload can be worth in one mint. */
  ghost function PayloadWorth(open: Fr -> Opening, p: Payload, mint: Digest): int
    requires p.noteA < BN254_R && p.noteB < BN254_R && (p.noteFee != 0 ==> p.noteFee < BN254_R)
  {
    (if open(p.noteA).mint == mint then p.quote + p.buyerChange else 0)
    + (if open(p.noteB).mint == mint then p.base + p.sellerChange else 0)
    + (if p.noteFee != 0 && open(p.noteFee).mint == mint then open(p.noteFee).amount else 0)
  }

  lemma AddedWorth(open: Fr -> Opening, v: VaultState, p: Payload, added: seq<Fr>, spent: set<Digest>, mint: Digest)
    requires p.noteA in v.locks && p.noteB in v.locks && AllInField(SettledLeaves(p)) && HonestPayload(open, v, p)
    requires added == SettledLeaves(p)
    requires (p.noteE != 0) == (p.buyerChange > 0) && (p.noteF != 0) == (p.sellerChange > 0)
    ensures Outstanding(open, added, spent, mint) <= PayloadWorth(open, p, mint)
    ensures (forall i :: 0 <= i < |added| ==> open(added[i]).nullifier !in spent) ==>
              Outstanding(open, added, spent, mint) == PayloadWorth(open, p, mint)
  {
    AppendedWorth(open, p, added, spent, mint);
    LeafPositions(p);
  }

  lemma SettleKeepsBalance(hs: Hashes, open: Fr -> Opening, mint: Digest, l: Ledger, op: VaultOp)
    requires op.OpSettle? && Honest(hs, open, l.vault, op) && Balanced(open, mint, l)
    ensures Balanced(open, mint, LedgerStep(hs, open, mint, l, op))
  {
    var v, p := l.vault, op.payload;
    if Settle(v, p, op.authority, op.signed).Ok? {
      var w := Settle(v, p, op.authority, op.signed).value;
      SettleEffect(v, p, op.authority, op.signed);
      InputsDrop(open, v, p, mint);
      var added: seq<Fr> := SettledLeaves(p);
      OutstandingAppends(open, v.leaves, added, w.nullifiers, mint);
      AddedWorth(open, v, p, added, w.nullifiers, mint);
    }
  }

  lemma DepositKeepsBalance(hs: Hashes, open: Fr -> Opening, mint: Digest, l: Ledger, op: VaultOp)
    requires op.OpDeposit? && Honest(hs, open, l.vault, op) && Balanced(open, mint, l)
    ensures Balanced(open, mint, LedgerStep(hs, open, mint, l, op))
  {
    var v := l.vault;
    if Deposit(hs, v, op.mint, op.amount, op.owner, op.nonce, op.blinding).Ok? {
      var c := CommitmentFromFields(hs, op.mint, op.amount, op.owner, op.nonce, op.blinding).value;
      OutstandingAppends(open, v.leaves, [c], v.nullifiers, mint);
      assert [c][..0] == [];
    }
  }

  lemma WithdrawKeepsBalance(hs: Hashes, open: Fr -> Opening, mint: Digest, l: Ledger, op: VaultOp)
    requires op.OpWithdraw? && Honest(hs, open, l.vault, op) && Balanced(open, mint, l)
    ensures Balanced(open, mint, LedgerStep(hs, open, mint, l, op))
  {
    var v := l.vault;
    if Exec(hs, v, op).Ok? {
      var leaf :| leaf in v.leaves && open(leaf) == Opening(op.mint, op.amount, op.nullifier);
      SpendingDrops(open, v.leaves, v.nullifiers, leaf, mint);
    }
  }

  lemma AnyStep(hs: Hashes, open: Fr -> Opening, mint: Digest, l: Ledger, op: VaultOp)
    requires Honest(hs, open, l.vault, op) && Balanced(open, mint, l)
    ensures Balanced(open, mint, LedgerStep(hs, open, mint, l, op))
  {
    match op
    case OpSettle(_, _, _) => SettleKeepsBalance(hs, open, mint, l, op);
    case OpDeposit(_, _, _, _, _) => DepositKeepsBalance(hs, open, mint, l, op);
    case OpWithdraw(_, _, _, _, _, _) => WithdrawKeepsBalance(hs, open, mint, l, op);
    case _ =>
  }

  /** Over any run of honest instructions, outstanding notes plus the fees retained in a mint are
      covered by the vault's balance of that mint. */
  lemma {:induction false} NotesAndFeesCovered(hs: Hashes, open: Fr -> Opening, mint: Digest, l: Ledger, ops: seq<VaultOp>)
    requires Balanced(open, mint, l) && HonestRun(hs, open, mint, l, ops)
    ensures Balanced(open, mint, LedgerRun(hs, open, mint, l, ops))
  {
    if ops != [] {
      var done := ops[..|ops| - 1];
      NotesAndFeesCovered(hs, open, mint, l, done);
      AnyStep(hs, open, mint, LedgerRun(hs, open, mint, l, done), ops[|ops| - 1]);
    }
  }

  /** Solvency from an empty vault: while fee notes stay within the fees retained, every unspent note
      of a mint is covered by the vault's balance, and the transfer of an honest withdrawal cannot fail
      for lack of funds. */
  lemma Solvent(hs: Hashes, open: Fr -> Opening, mint: Digest, v: VaultState, ops: seq<VaultOp>, op: VaultOp)
    requires v.leaves == [] && HonestRun(hs, open, mint, Ledger(v, 0), ops)
    requires LedgerRun(hs, open, mint, Ledger(v, 0), ops).kept >= 0
    ensures
      var w := LedgerRun(hs, open, mint, Ledger(v, 0), ops).vault;
      && Outstanding(open, w.leaves, w.nullifiers, mint) <= w.Balance(mint)
      && (op.OpWithdraw? && op.mint == mint
            && (exists leaf :: leaf in w.leaves && open(leaf) == Opening(op.mint, op.amount, op.nullifier)) ==>
          Exec(hs, w, op) != Err(TokenTransferFailed))
  {
    NotesAndFeesCovered(hs, open, mint, Ledger(v, 0), ops);
    var w := LedgerRun(hs, open, mint, Ledger(v, 0), ops).vault;
    if op.OpWithdraw? && op.mint == mint {
      if leaf :| leaf in w.leaves && open(leaf) == Opening(op.mint, op.amount, op.nullifier) {
        NoteIsOutstanding(open, w.leaves, w.nullifiers, leaf, mint);
      }
    }
  }

  // ---------- exactly when the vault is solvent ----------

  ghost predicate UniqueNullifiers(open: Fr -> Opening, leaves: seq<Fr>) {
    forall i, j :: 0 <= i < j < |leaves| ==> open(leaves[i]).nullifier != open(leaves[j]).nullifier
  }

  /** Between `v` and `w` only notes with new, unspent nullifiers were appended. */
  ghost predicate FreshNotes(open: Fr -> Opening, v: VaultState, w: VaultState) {
    && UniqueNullifiers(open, w.leaves)
    && |v.leaves| <= |w.leaves|
    && (forall i :: |v.leaves| <= i < |w.leaves| ==> open(w.leaves[i]).nullifier !in w.nullifiers)
  }

  ghost predicate FreshRun(hs: Hashes, open: Fr -> Opening, mint: Digest, l: Ledger, ops: seq<VaultOp>)
    requires HonestRun(hs, open, mint, l, ops)
  {
    ops == [] ||
    var done := ops[..|ops| - 1];
    && FreshRun(hs, open, mint, l, done)
    && FreshNotes(open, LedgerRun(hs, open, mint, l, done).vault, LedgerRun(hs, open, mint, l, ops).vault)
  }

  lemma {:induction false} SpendingElsewhere(open: Fr -> Opening, leaves: seq<Fr>, spent: set<Digest>, x: Digest, mint: Digest)
    requires forall i :: 0 <= i < |leaves| ==> open(leaves[i]).nullifier != x
    ensures Outstanding(open, leaves, spent + {x}, mint) == Outstanding(open, leaves, spent, mint)
  {
    if leaves != [] {
      SpendingElsewhere(open, leaves[..|leaves| - 1], spent, x, mint);
    }
  }

  lemma {:induction false} SpendingDropsExactly(open: Fr -> Opening, leaves: seq<Fr>, spent: set<Digest>, leaf: Fr, mint: Digest)
    requires leaf in leaves && UniqueNullifiers(open, leaves) && open(leaf).nullifier !in spent
    ensures Outstanding(open, leaves, spent + {open(leaf).nullifier}, mint) + Worth(open, leaf, spent, mint)
         == Outstanding(open, leaves, spent, mint)
  {
    var t, last := leaves[..|leaves| - 1], leaves[|leaves| - 1];
    assert leaves == t + [last];
    if last == leaf {
      SpendingElsewhere(open, t, spent, open(leaf).nullifier, mint);
    } else {
      SpendingDropsExactly(open, t, spent, leaf, mint);
      assert open(last).nullifier != open(leaf).nullifier;
    }
  }

  ghost predicate BalancedExactly(open: Fr -> Opening, mint: Digest, l: Ledger) {
    && |l.vault.leaves| <= Pow2(l.vault.depth) && UniqueNullifiers(open, l.vault.leaves)
    && Outstanding(open, l.vault.leaves, l.vault.nullifiers, mint) + l.kept == l.vault.Balance(mint)
  }

  lemma InputsDropExactly(open: Fr -> Opening, v: VaultState, p: Payload, mint: Digest)
    requires p.noteA in v.locks && p.noteB in v.locks && AllInField(SettledLeaves(p)) && HonestPayload(open, v, p)
    requires p.nullifierA !in v.nullifiers && p.nullifierB !in v.nullifiers && p.nullifierA != p.nullifierB
    requires UniqueNullifiers(open, v.leaves)
    ensures Outstanding(open, v.leaves, v.nullifiers + {p.nullifierA, p.nullifierB}, mint)
            + (if open(p.noteA).mint == mint then v.locks[p.noteA].amount else 0)
            + (if open(p.noteB).mint == mint then v.locks[p.noteB].amount else 0)
         == Outstanding(open, v.leaves, v.nullifiers, mint)
  {
    SpendingDropsExactly(open, v.leaves, v.nullifiers, p.noteA, mint);
    SpendingDropsExactly(open, v.leaves, v.nullifiers + {p.nullifierA}, p.noteB, mint);
    assert v.nullifiers + {p.nullifierA} + {p.nullifierB} == v.nullifiers + {p.nullifierA, p.nullifierB};
  }

  /** Leaves added with unspent nullifiers are worth their amounts. */
  lemma AddedUnspent(open: Fr -> Opening, v: VaultState, w: VaultState, added: seq<Fr>, i: nat)
    requires w.leaves == v.leaves + added && FreshNotes(open, v, w) && i < |added|
    ensures open(added[i]).nullifier !in w.nullifiers
  {
    assert w.leaves[|v.leaves| + i] == added[i];
  }

  lemma SettleKeepsExactBalance(hs: Hashes, open: Fr -> Opening, mint: Digest, l: Ledger, op: VaultOp)
    requires op.OpSettle? && Honest(hs, open, l.vault, op) && BalancedExactly(open, mint, l)
    requires FreshNotes(open, l.vault, LedgerStep(hs, open, mint, l, op).vault)
    ensures BalancedExactly(open, mint, LedgerStep(hs, open, mint, l, op))
  {
    var v, p := l.vault, op.payload;
    if Settle(v, p, op.authority, op.signed).Ok? {
      var w := Settle(v, p, op.authority, op.signed).value;
      SettleEffect(v, p, op.authority, op.signed);
      InputsDropExactly(open, v, p, mint);
      var added: seq<Fr> := SettledLeaves(p);
      OutstandingAppends(open, v.leaves, added, w.nullifiers, mint);
      AddedWorth(open, v, p, added, w.nullifiers, mint);
      forall i | 0 <= i < |added| ensures open(added[i]).nullifier !in w.nullifiers {
        AddedUnspent(open, v, w, added, i);
      }
    }
  }

  lemma LeafPositions(p: Payload)
    ensures p.noteC in SettledLeaves(p) && p.noteD in SettledLeaves(p)
    ensures p.noteE != 0 ==> p.noteE in SettledLeaves(p)
    ensures p.noteF != 0 ==> p.noteF in SettledLeaves(p)
    ensures p.noteFee != 0 ==> p.noteFee in SettledLeaves(p)
  {
  }

  lemma DepositKeepsExactBalance(hs: Hashes, open: Fr -> Opening, mint: Digest, l: Ledger, op: VaultOp)
    requires op.OpDeposit? && Honest(hs, open, l.vault, op) && BalancedExactly(open, mint, l)
    requires FreshNotes(open, l.vault, LedgerStep(hs, open, mint, l, op).vault)
    ensures BalancedExactly(open, mint, LedgerStep(hs, open, mint, l, op))
  {
    var v := l.vault;
    if Deposit(hs, v, op.mint, op.amount, op.owner, op.nonce, op.blinding).Ok? {
      var c := CommitmentFromFields(hs, op.mint, op.amount, op.owner, op.nonce, op.blinding).value;
      OutstandingAppends(open, v.leaves, [c], v.nullifiers, mint);
      AddedUnspent(open, v, Deposit(hs, v, op.mint, op.amount, op.owner, op.nonce, op.blinding).value, [c], 0);
      assert [c][..0] == [];
    }
  }

  lemma WithdrawKeepsExactBalance(hs: Hashes, open: Fr -> Opening, mint: Digest, l: Ledger, op: VaultOp)
    requires op.OpWithdraw? && Honest(hs, open, l.vault, op) && BalancedExactly(open, mint, l)
    ensures BalancedExactly(open, mint, LedgerStep(hs, open, mint, l, op))
  {
    var v := l.vault;
    if Exec(hs, v, op).Ok? {
      var leaf :| leaf in v.leaves && open(leaf) == Opening(op.mint, op.amount, op.nullifier);
      SpendingDropsExactly(open, v.leaves, v.nullifiers, leaf, mint);
    }
  }

  lemma ExactStep(hs: Hashes, open: Fr -> Opening, mint: Digest, l: Ledger, op: VaultOp)
    requires Honest(hs, open, l.vault, op) && BalancedExactly(open, mint, l)
    requires FreshNotes(open, l.vault, LedgerStep(hs, open, mint, l, op).vault)
    ensures BalancedExactly(open, mint, LedgerStep(hs, open, mint, l, op))
  {
    match op
    case OpSettle(_, _, _) => SettleKeepsExactBalance(hs, open, mint, l, op);
    case OpDeposit(_, _, _, _, _) => DepositKeepsExactBalance(hs, open, mint, l, op);
    case OpWithdraw(_, _, _, _, _, _) => WithdrawKeepsExactBalance(hs, open, mint, l, op);
    case _ =>
  }

  lemma {:induction false} ExactlyCovered(hs: Hashes, open: Fr -> Opening, mint: Digest, l: Ledger, ops: seq<VaultOp>)
    requires BalancedExactly(open, mint, l) && HonestRun(hs, open, mint, l, ops) && FreshRun(hs, open, mint, l, ops)
    ensures BalancedExactly(open, mint, LedgerRun(hs, open, mint, l, ops))
  {
    if ops != [] {
      var done := ops[..|ops| - 1];
      ExactlyCovered(hs, open, mint, l, done);
      ExactStep(hs, open, mint, LedgerRun(hs, open, mint, l, done), ops[|ops| - 1]);
    }
  }

  /** When notes have nullifiers of their own, an initially empty vault is solvent exactly while no
      more has been minted in fee notes than was retained in fees. */
  lemma SolventExactlyWhen(hs: Hashes, open: Fr -> Opening, mint: Digest, v: VaultState, ops: seq<VaultOp>)
    requires v.leaves == [] && v.Balance(mint) == 0
    requires HonestRun(hs, open, mint, Ledger(v, 0), ops) && FreshRun(hs, open, mint, Ledger(v, 0), ops)
    ensures
      var l := LedgerRun(hs, open, mint, Ledger(v, 0), ops);
      Outstanding(open, l.vault.leaves, l.vault.nullifiers, mint) <= l.vault.Balance(mint) <==> l.kept >= 0
  {
    ExactlyCovered(hs, open, mint, Ledger(v, 0), ops);
  }
}
