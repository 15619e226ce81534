// What a sequence of settlements depends on and what it leaves alone.
module SettlementFrames {
  import opened Prelude
  import opened Crypto
  import opened MerkleTree
  import opened Orders
  import opened Matching
  import opened Market
  import opened MatchingLaws
  import opened Vault
  import opened Settleability

  /** The match consumes this note. */
  predicate Consumes(f: Fill, note: Digest) {
    f.result.buyer.note == note || f.result.seller.note == note
  }

  /** The match consumes this note or re-locks it. */
  predicate Claims(f: Fill, note: Digest) {
    || Consumes(f, note)
    || (f.result.buyer.relockOrder != 0 && f.result.buyer.changeNote == note)
    || (f.result.seller.relockOrder != 0 && f.result.seller.changeNote == note)
  }

  ghost predicate NoneClaims(fills: seq<Fill>, note: Digest) {
    forall j :: 0 <= j < |fills| ==> !Claims(fills[j], note)
  }

  ghost predicate NoneConsumes(fills: seq<Fill>, note: Digest) {
    forall j :: 0 <= j < |fills| ==> !Consumes(fills[j], note)
  }

  // ---------- one settlement ----------

  /** What an accepted settlement does, whatever made it acceptable. */
  lemma SettleShape(tee: Tee, v: VaultState, f: Fill)
    requires |v.leaves| <= Pow2(v.depth) && Settle(v, PayloadOf(tee, f), tee.authority, true).Ok?
    ensures
      var w := Settle(v, PayloadOf(tee, f), tee.authority, true).value;
      var m := f.result;
      && w == v.(leaves := w.leaves, locks := LocksAfter(tee, v, m),
                 consumed := v.consumed + {m.buyer.note, m.seller.note},
                 nullifiers := v.nullifiers + {tee.nullifier(m.buyer.note), tee.nullifier(m.seller.note)})
      && |w.leaves| <= |v.leaves| + 5 && |w.leaves| <= Pow2(w.depth)
      && m.buyer.note in v.locks && m.seller.note in v.locks
      && m.buyer.note !in v.consumed && m.seller.note !in v.consumed
      && tee.nullifier(m.buyer.note) !in v.nullifiers && tee.nullifier(m.seller.note) !in v.nullifiers
      && (m.buyer.relockOrder != 0 ==> m.buyer.changeNote !in v.locks)
      && (m.seller.relockOrder != 0 ==> m.seller.changeNote !in v.locks)
  {
    var p := PayloadOf(tee, f);
    var marked := v.(consumed := v.consumed + {p.noteA, p.noteB}, nullifiers := v.nullifiers + {p.nullifierA, p.nullifierB});
    AppendsFacts(marked, p);
  }

  /** `w` is `v` with other leaves and balances, other locks on the loose notes, and more nullifiers. */
  ghost predicate Mirrors(v: VaultState, w: VaultState, loose: set<Digest>, spent: set<Digest>) {
    && w == v.(leaves := w.leaves, locks := w.locks, nullifiers := v.nullifiers + spent, balances := w.balances)
    && (forall n :: n !in loose ==> (n in w.locks <==> n in v.locks))
    && (forall n :: n !in loose && n in v.locks ==> w.locks[n] == v.locks[n])
  }

  ghost predicate Apart(tee: Tee, f: Fill, loose: set<Digest>, spent: set<Digest>) {
    && (forall n :: n in loose ==> !Claims(f, n))
    && tee.nullifier(f.result.buyer.note) !in spent && tee.nullifier(f.result.seller.note) !in spent
  }

  lemma ChecksMirror(tee: Tee, v: VaultState, w: VaultState, loose: set<Digest>, spent: set<Digest>, f: Fill)
    requires Mirrors(v, w, loose, spent) && Apart(tee, f, loose, spent)
    requires SettleAccounts(v, PayloadOf(tee, f)).None?
    requires SettleChecks(v, PayloadOf(tee, f), tee.authority, true).None?
    ensures SettleAccounts(w, PayloadOf(tee, f)).None?
    ensures SettleChecks(w, PayloadOf(tee, f), tee.authority, true).None?
  {
    var a, b := f.result.buyer.note, f.result.seller.note;
    assert Claims(f, a) && Claims(f, b);
    assert a !in loose && b !in loose;
  }

  lemma LocksMirror(tee: Tee, v: VaultState, w: VaultState, loose: set<Digest>, spent: set<Digest>, f: Fill)
    requires Mirrors(v, w, loose, spent) && Apart(tee, f, loose, spent)
    ensures
      var l, l' := LocksAfter(tee, v, f.result), LocksAfter(tee, w, f.result);
      && (forall n :: n !in loose ==> (n in l' <==> n in l))
      && (forall n :: n !in loose && n in l ==> l'[n] == l[n])
  {
  }

  lemma OkChecks(tee: Tee, v: VaultState, f: Fill)
    requires Settle(v, PayloadOf(tee, f), tee.authority, true).Ok?
    ensures SettleAccounts(v, PayloadOf(tee, f)).None?
    ensures SettleChecks(v, PayloadOf(tee, f), tee.authority, true).None?
  {
  }

  /** A settlement is accepted once its checks pass, there is room, the leaves are field elements and
      the re-locked notes are free. */
  lemma SettlesWhen(tee: Tee, w: VaultState, f: Fill)
    requires SettleAccounts(w, PayloadOf(tee, f)).None?
    requires SettleChecks(w, PayloadOf(tee, f), tee.authority, true).None?
    requires |w.leaves| + 5 <= Pow2(w.depth) && AllInField(SettledLeaves(PayloadOf(tee, f)))
    requires tee.feeNote(f.result.matchId) != 0 ==> w.protocolOwner != 0
    requires f.result.buyer.relockOrder != 0 ==> f.result.buyer.changeNote !in w.locks
    requires f.result.seller.relockOrder != 0 ==> f.result.seller.changeNote !in w.locks
    requires f.result.buyer.relockOrder != 0 && f.result.seller.relockOrder != 0 ==> f.result.buyer.changeNote != f.result.seller.changeNote
    ensures Settle(w, PayloadOf(tee, f), tee.authority, true).Ok?
  {
    var p := PayloadOf(tee, f);
    var marked := w.(consumed := w.consumed + {p.noteA, p.noteB}, nullifiers := w.nullifiers + {p.nullifierA, p.nullifierB});
    AppendsFacts(marked, p);
  }

  lemma SettleNeeds(tee: Tee, v: VaultState, f: Fill)
    requires |v.leaves| <= Pow2(v.depth) && Settle(v, PayloadOf(tee, f), tee.authority, true).Ok?
    ensures AllInField(SettledLeaves(PayloadOf(tee, f)))
    ensures tee.feeNote(f.result.matchId) != 0 ==> v.protocolOwner != 0
    ensures f.result.buyer.relockOrder != 0 && f.result.seller.relockOrder != 0 ==> f.result.buyer.changeNote != f.result.seller.changeNote
  {
    var p := PayloadOf(tee, f);
    var marked := v.(consumed := v.consumed + {p.noteA, p.noteB}, nullifiers := v.nullifiers + {p.nullifierA, p.nullifierB});
    AppendsFacts(marked, p);
  }

  /** A settlement one vault accepts, its mirror accepts, and they stay mirrors. */
  lemma SettleMirrors(tee: Tee, v: VaultState, w: VaultState, loose: set<Digest>, spent: set<Digest>, f: Fill)
    requires |v.leaves| <= Pow2(v.depth) && Settle(v, PayloadOf(tee, f), tee.authority, true).Ok?
    requires Mirrors(v, w, loose, spent) && Apart(tee, f, loose, spent) && |w.leaves| + 5 <= Pow2(w.depth)
    ensures Settle(w, PayloadOf(tee, f), tee.authority, true).Ok?
    ensures Mirrors(Settle(v, PayloadOf(tee, f), tee.authority, true).value, Settle(w, PayloadOf(tee, f), tee.authority, true).value, loose, spent)
    ensures |Settle(w, PayloadOf(tee, f), tee.authority, true).value.leaves| <= |w.leaves| + 5
  {
    OkChecks(tee, v, f);
    ChecksMirror(tee, v, w, loose, spent, f);
    SettleShape(tee, v, f);
    SettleNeeds(tee, v, f);
    SettlesWhen(tee, w, f);
    SettleShape(tee, w, f);
    LocksMirror(tee, v, w, loose, spent, f);
  }

  // ---------- sequences of settlements ----------

  lemma {:induction false} SettleAllAppends(v: VaultState, tee: Tee, log: seq<Fill>, more: seq<Fill>)
    requires SettleAll(v, tee, log).Ok?
    ensures SettleAll(v, tee, log + more) == SettleAll(SettleAll(v, tee, log).value, tee, more)
  {
    if more == [] {
      assert log + more == log;
    } else {
      var t := more[..|more| - 1];
      SettleAllAppends(v, tee, log, t);
      assert (log + more)[..|log + more| - 1] == log + t;
      assert (log + more)[|log + more| - 1] == more[|more| - 1];
    }
  }

  lemma SettleAllLast(v: VaultState, tee: Tee, fills: seq<Fill>) returns (w: VaultState)
    requires fills != [] && SettleAll(v, tee, fills).Ok?
    ensures SettleAll(v, tee, fills[..|fills| - 1]) == Ok(w)
    ensures SettleAll(v, tee, fills) == Settle(w, PayloadOf(tee, fills[|fills| - 1]), tee.authority, true)
  {
    w := SettleAll(v, tee, fills[..|fills| - 1]).value;
  }

  /** Settlements change neither the vault's keys nor its balances, and add at most five leaves each. */
  lemma {:induction false} SettleAllGrows(v: VaultState, tee: Tee, fills: seq<Fill>)
    requires |v.leaves| <= Pow2(v.depth) && SettleAll(v, tee, fills).Ok?
    ensures SameVault(v, SettleAll(v, tee, fills).value, |fills|)
    ensures |SettleAll(v, tee, fills).value.leaves| <= Pow2(v.depth)
  {
    if fills != [] {
      var w := SettleAllLast(v, tee, fills);
      SettleAllGrows(v, tee, fills[..|fills| - 1]);
      SettleShape(tee, w, fills[|fills| - 1]);
    }
  }

  /** A note comes to be consumed only by a match that consumes it, and stays so. */
  lemma {:induction false} ConsumedHistory(v: VaultState, tee: Tee, fills: seq<Fill>, note: Digest)
    requires |v.leaves| <= Pow2(v.depth) && SettleAll(v, tee, fills).Ok?
    ensures note in v.consumed ==> note in SettleAll(v, tee, fills).value.consumed
    ensures note in SettleAll(v, tee, fills).value.consumed && NoneConsumes(fills, note) ==> note in v.consumed
  {
    if fills != [] {
      var w := SettleAllLast(v, tee, fills);
      ConsumedHistory(v, tee, fills[..|fills| - 1], note);
      SettleAllGrows(v, tee, fills[..|fills| - 1]);
      SettleShape(tee, w, fills[|fills| - 1]);
      assert NoneConsumes(fills, note) ==> !Consumes(fills[|fills| - 1], note);
    }
  }

  /** A nullifier is spent only by a match that consumes a note it belongs to, and stays spent. */
  lemma {:induction false} NullifierHistory(v: VaultState, tee: Tee, fills: seq<Fill>, note: Digest)
    requires NullifiersInjective(tee)
    requires |v.leaves| <= Pow2(v.depth) && SettleAll(v, tee, fills).Ok?
    ensures tee.nullifier(note) in v.nullifiers ==> tee.nullifier(note) in SettleAll(v, tee, fills).value.nullifiers
    ensures tee.nullifier(note) in SettleAll(v, tee, fills).value.nullifiers && NoneConsumes(fills, note) ==> tee.nullifier(note) in v.nullifiers
  {
    if fills != [] {
      var w := SettleAllLast(v, tee, fills);
      NullifierHistory(v, tee, fills[..|fills| - 1], note);
      SettleAllGrows(v, tee, fills[..|fills| - 1]);
      SettleShape(tee, w, fills[|fills| - 1]);
      assert NoneConsumes(fills, note) ==> !Consumes(fills[|fills| - 1], note);
    }
  }

  /** A lock stays as it is until its note is consumed. */
  lemma {:induction false} LockHistory(v: VaultState, tee: Tee, fills: seq<Fill>, note: Digest)
    requires |v.leaves| <= Pow2(v.depth) && SettleAll(v, tee, fills).Ok? && note in v.locks
    ensures
      var u := SettleAll(v, tee, fills).value;
      note in u.consumed || (note in u.locks && u.locks[note] == v.locks[note])
  {
    if fills != [] {
      var w := SettleAllLast(v, tee, fills);
      LockHistory(v, tee, fills[..|fills| - 1], note);
      SettleAllGrows(v, tee, fills[..|fills| - 1]);
      SettleShape(tee, w, fills[|fills| - 1]);
    }
  }

  lemma {:induction false} LockStays(v: VaultState, tee: Tee, fills: seq<Fill>, note: Digest)
    requires |v.leaves| <= Pow2(v.depth) && SettleAll(v, tee, fills).Ok? && note in v.locks && NoneConsumes(fills, note)
    ensures note in SettleAll(v, tee, fills).value.locks && SettleAll(v, tee, fills).value.locks[note] == v.locks[note]
  {
    if fills != [] {
      var w := SettleAllLast(v, tee, fills);
      LockStays(v, tee, fills[..|fills| - 1], note);
      SettleAllGrows(v, tee, fills[..|fills| - 1]);
      SettleShape(tee, w, fills[|fills| - 1]);
      assert !Consumes(fills[|fills| - 1], note);
    }
  }

  /** A lock that is there is not asked for by a log that does not consume its note. */
  lemma LockedNotRelocked(v: VaultState, tee: Tee, fills: seq<Fill>, note: Digest)
    requires |v.leaves| <= Pow2(v.depth) && SettleAll(v, tee, fills).Ok? && note in v.locks && NoneConsumes(fills, note)
    ensures NoneClaims(fills, note)
  {
    forall j | 0 <= j < |fills| ensures !Claims(fills[j], note) {
      NextSettles(v, tee, fills, j);
      LockStays(v, tee, fills[..j], note);
      SettleAllGrows(v, tee, fills[..j]);
      SettleShape(tee, SettleAll(v, tee, fills[..j]).value, fills[j]);
    }
  }

  /** A lock that is there at the end was there at the start or was asked for by a match. */
  lemma {:induction false} LockOrigin(v: VaultState, tee: Tee, fills: seq<Fill>, note: Digest)
    requires |v.leaves| <= Pow2(v.depth) && SettleAll(v, tee, fills).Ok? && NoneClaims(fills, note)
    ensures note in SettleAll(v, tee, fills).value.locks ==> note in v.locks
  {
    if fills != [] {
      var w := SettleAllLast(v, tee, fills);
      LockOrigin(v, tee, fills[..|fills| - 1], note);
      SettleAllGrows(v, tee, fills[..|fills| - 1]);
      SettleShape(tee, w, fills[|fills| - 1]);
      assert !Claims(fills[|fills| - 1], note);
    }
  }

  ghost predicate AllApart(tee: Tee, fills: seq<Fill>, loose: set<Digest>, spent: set<Digest>) {
    forall j :: 0 <= j < |fills| ==> Apart(tee, fills[j], loose, spent)
  }

  /** A log one vault settles, its mirror settles. */
  lemma {:induction false} SettleAllMirrors(tee: Tee, v: VaultState, w: VaultState, loose: set<Digest>, spent: set<Digest>, fills: seq<Fill>)
    requires |v.leaves| <= Pow2(v.depth) && SettleAll(v, tee, fills).Ok?
    requires Mirrors(v, w, loose, spent) && AllApart(tee, fills, loose, spent) && |w.leaves| + 5 * |fills| <= Pow2(w.depth)
    ensures SettleAll(w, tee, fills).Ok?
    ensures Mirrors(SettleAll(v, tee, fills).value, SettleAll(w, tee, fills).value, loose, spent)
    ensures |SettleAll(w, tee, fills).value.leaves| <= |w.leaves| + 5 * |fills|
  {
    if fills != [] {
      var u := SettleAllLast(v, tee, fills);
      var done, f := fills[..|fills| - 1], fills[|fills| - 1];
      SettleAllMirrors(tee, v, w, loose, spent, done);
      SettleAllGrows(v, tee, done);
      assert Apart(tee, f, loose, spent);
      SettleMirrors(tee, u, SettleAll(w, tee, done).value, loose, spent, f);
    }
  }

  lemma PrefixOk(v: VaultState, tee: Tee, fills: seq<Fill>, j: nat)
    requires InTime(v, tee, fills) && j < |fills|
    ensures SettleAll(v, tee, fills[..j]).Ok? && LastsOn(SettleAll(v, tee, fills[..j]).value, fills[j])
  {
  }

  /** So do the locks that last. */
  lemma InTimeMirrors(tee: Tee, v: VaultState, w: VaultState, loose: set<Digest>, spent: set<Digest>, fills: seq<Fill>)
    requires |v.leaves| <= Pow2(v.depth) && InTime(v, tee, fills)
    requires Mirrors(v, w, loose, spent) && AllApart(tee, fills, loose, spent) && |w.leaves| + 5 * |fills| <= Pow2(w.depth)
    ensures InTime(w, tee, fills)
  {
    forall j | 0 <= j < |fills|
      ensures SettleAll(w, tee, fills[..j]).Ok? && LastsOn(SettleAll(w, tee, fills[..j]).value, fills[j])
    {
      PrefixOk(v, tee, fills, j);
      SettleAllMirrors(tee, v, w, loose, spent, fills[..j]);
      assert Apart(tee, fills[j], loose, spent);
      LastsOnMirrors(tee, SettleAll(v, tee, fills[..j]).value, SettleAll(w, tee, fills[..j]).value, loose, spent, fills[j]);
    }
  }

  lemma LastsOnMirrors(tee: Tee, v: VaultState, w: VaultState, loose: set<Digest>, spent: set<Digest>, f: Fill)
    requires Mirrors(v, w, loose, spent) && Apart(tee, f, loose, spent) && LastsOn(v, f)
    ensures LastsOn(w, f)
  {
    forall side: Side
      ensures
        var note := LegOn(f.result, side).note;
        note in w.locks && note in v.locks && w.locks[note] == v.locks[note]
    {
      assert Claims(f, LegOn(f.result, side).note);
    }
  }

  /** Logs in time one after the other are in time together. */
  lemma InTimeAppends(v: VaultState, tee: Tee, log: seq<Fill>, more: seq<Fill>)
    requires SettleAll(v, tee, log).Ok? && InTime(v, tee, log) && InTime(SettleAll(v, tee, log).value, tee, more)
    ensures InTime(v, tee, log + more)
  {
    forall j | 0 <= j < |log + more|
      ensures SettleAll(v, tee, (log + more)[..j]).Ok? && LastsOn(SettleAll(v, tee, (log + more)[..j]).value, (log + more)[j])
    {
      if j < |log| {
        assert (log + more)[..j] == log[..j];
      } else {
        assert (log + more)[..j] == log + more[..j - |log|];
        SettleAllAppends(v, tee, log, more[..j - |log|]);
        PrefixOk(SettleAll(v, tee, log).value, tee, more, j - |log|);
      }
    }
  }

  lemma SettleFirst(v: VaultState, tee: Tee, f: Fill, rest: seq<Fill>)
    requires Settle(v, PayloadOf(tee, f), tee.authority, true).Ok?
    ensures SettleAll(v, tee, [f] + rest) == SettleAll(Settle(v, PayloadOf(tee, f), tee.authority, true).value, tee, rest)
  {
    var first: seq<Fill> := [];
    SettleOneMore(v, tee, first, v, f);
    assert first + [f] == [f];
    SettleAllAppends(v, tee, [f], rest);
  }

  /** After the first settlement the rest is in time. */
  lemma InTimeRest(v: VaultState, w: VaultState, tee: Tee, fills: seq<Fill>)
    requires fills != [] && InTime(v, tee, fills)
    requires Settle(v, PayloadOf(tee, fills[0]), tee.authority, true) == Ok(w)
    ensures InTime(w, tee, fills[1..])
  {
    var rest := fills[1..];
    forall j | 0 <= j < |rest|
      ensures SettleAll(w, tee, rest[..j]).Ok? && LastsOn(SettleAll(w, tee, rest[..j]).value, rest[j])
    {
      SettleFirst(v, tee, fills[0], rest[..j]);
      assert [fills[0]] + rest[..j] == fills[..j + 1];
      PrefixOk(v, tee, fills, j + 1);
    }
  }

  /** The lock of a note some match of the log consumes lasts to the end of that match's buffer. */
  lemma ConsumedLasts(v: VaultState, tee: Tee, fills: seq<Fill>, j: nat, note: Digest)
    requires |v.leaves| <= Pow2(v.depth) && InTime(v, tee, fills) && j < |fills| && Consumes(fills[j], note)
    requires SettleAll(v, tee, fills).Ok? && note in v.locks
    ensures v.locks[note].expiry > fills[j].result.batchSlot + SETTLEMENT_BUFFER_SLOTS
  {
    PrefixOk(v, tee, fills, j);
    var w := SettleAll(v, tee, fills[..j]).value;
    LockHistory(v, tee, fills[..j], note);
    SettleAllGrows(v, tee, fills[..j]);
    assert LegOn(fills[j].result, Bid).note == note || LegOn(fills[j].result, Ask).note == note;
    if note in w.consumed {
      NextSettles(v, tee, fills, j);
      SettleShape(tee, w, fills[j]);
    }
  }

  lemma {:induction false} NextSettles(v: VaultState, tee: Tee, fills: seq<Fill>, j: nat)
    requires SettleAll(v, tee, fills).Ok? && j < |fills|
    ensures SettleAll(v, tee, fills[..j]).Ok?
    ensures Settle(SettleAll(v, tee, fills[..j]).value, PayloadOf(tee, fills[j]), tee.authority, true).Ok?
  {
    var w := SettleAllLast(v, tee, fills);
    if j < |fills| - 1 {
      var t := fills[..|fills| - 1];
      NextSettles(v, tee, t, j);
      assert t[..j] == fills[..j];
    }
  }
}
