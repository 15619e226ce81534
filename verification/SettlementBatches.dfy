// Settlement of whole batches: with every order backed by its own locked note, the matches of a
// batch settle exactly when no immediate-or-cancel order is filled twice.
module SettlementBatches {
  import opened Prelude
  import opened Crypto
  import opened Orders
  import opened Auction
  import opened Matching
  import opened MatchingLaws
  import opened Collateral
  import opened Market
  import opened MarketLaws
  import opened BatchLaws
  import opened FillLaws
  import opened Vault
  import opened Settleability
  import opened ConsumedNotes

  /** A resting order that a batch at or after `clock` can still match. */
  predicate LiveSlot(p: PendingOrder, clock: uint64) {
    p.Pending() && p.expiry > clock
  }

  ghost predicate SlotPledged(tee: Tee, v: VaultState, p: PendingOrder) {
    Pledged(tee, v, p.note, p.orderId, p.noteAmount, p.expiry)
  }

  /** An order whose owner can be paid change. */
  predicate Payable(p: PendingOrder) {
    p.Pending() ==> p.owner < BN254_R
  }

  /** No immediate-or-cancel order occurs in two of these matches. */
  ghost predicate IocFillsOnce(slots: seq<PendingOrder>, fills: seq<Fill>) {
    forall i :: 0 <= i < |slots| && slots[i].Pending() && slots[i].orderType == TYPE_IOC ==>
      FillCount(fills, SideOf(slots[i]), i) <= 1
  }

  ghost predicate NotesDistinct(slots: seq<PendingOrder>, clock: uint64) {
    forall i, j :: 0 <= i < |slots| && 0 <= j < |slots| && i != j && LiveSlot(slots[i], clock) && LiveSlot(slots[j], clock) ==>
      slots[i].note != slots[j].note
  }

  /** Every live order is funded and has its own note locked for it; no future change note is known. */
  ghost predicate BookReady(hs: Hashes, tee: Tee, v: VaultState, slots: seq<PendingOrder>, clock: uint64, next: uint64, rate: uint16) {
    && SlotsOk(slots) && SlotsFunded(slots, rate)
    && (forall i :: 0 <= i < |slots| ==> Payable(slots[i]))
    && (forall i :: 0 <= i < |slots| && LiveSlot(slots[i], clock) ==> SlotPledged(tee, v, slots[i]))
    && NotesDistinct(slots, clock)
    && FutureFresh(hs, tee, v, next)
  }

  ghost predicate Copied(s: Pass, i: nat) {
    (exists k :: 0 <= k < |s.bids| && s.bids[k].slot == i) || (exists k :: 0 <= k < |s.asks| && s.asks[k].slot == i)
  }

  /** The note of a live slot the batch did not pick up. */
  ghost predicate Bystander(slots: seq<PendingOrder>, s: Pass, clock: uint64, note: Digest) {
    exists i :: 0 <= i < |slots| && LiveSlot(slots[i], clock) && !Copied(s, i) && slots[i].note == note
  }

  ghost function Bystanders(v: VaultState, slots: seq<PendingOrder>, s: Pass, clock: uint64): map<Digest, NoteLock> {
    map n | n in v.locks && Bystander(slots, s, clock, n) :: v.locks[n]
  }

  /** A copy comes from a live, pledged slot. */
  lemma CopyFacts(env: BatchEnv, tee: Tee, v: VaultState, slots: seq<PendingOrder>, br: BatchResults, sel: seq<nat>, clock: uint64, side: Side, k: nat)
    requires BookReady(env.hs, tee, v, slots, clock, br.nextId, env.feeRate) && env.now >= clock
    requires NoDuplicates(sel) && Collect(env, slots, sel, |sel|).Ok?
    requires k < |BookOf(FirstPass(env, slots, br, sel), side)|
    ensures
      var s := FirstPass(env, slots, br, sel);
      var o := BookOf(s, side)[k];
      && IsSnapshotOf(env, slots, sel, side, o) && LiveSlot(slots[o.slot], env.now) && LiveSlot(slots[o.slot], clock)
      && Steady(side, BookOf(s, side), k, 0, env.feeRate)
      && OrderPledged(tee, v, o) && o.amount > 0 && o.owner < BN254_R && o.orderType != TYPE_KILLED
      && o.expiry > env.now + SETTLEMENT_BUFFER_SLOTS
  {
    var s := FirstPass(env, slots, br, sel);
    var o := BookOf(s, side)[k];
    StartBooks(env, slots, br, sel);
    assert IsSnapshotOf(env, slots, sel, side, o);
    assert SlotFunded(slots[o.slot], env.feeRate) && SlotOk(slots[o.slot]) && Payable(slots[o.slot]);
    assert SlotPledged(tee, v, slots[o.slot]);
  }

  lemma CopiesDiffer(env: BatchEnv, tee: Tee, v: VaultState, slots: seq<PendingOrder>, br: BatchResults, sel: seq<nat>, clock: uint64,
                     side: Side, k: nat, side': Side, k': nat)
    requires BookReady(env.hs, tee, v, slots, clock, br.nextId, env.feeRate) && env.now >= clock
    requires NoDuplicates(sel) && Collect(env, slots, sel, |sel|).Ok?
    requires k < |BookOf(FirstPass(env, slots, br, sel), side)| && k' < |BookOf(FirstPass(env, slots, br, sel), side')|
    requires side != side' || k != k'
    ensures
      var s := FirstPass(env, slots, br, sel);
      BookOf(s, side)[k].slot != BookOf(s, side')[k'].slot && NoteAt(s, side, k) != NoteAt(s, side', k')
  {
    CopyFacts(env, tee, v, slots, br, sel, clock, side, k);
    CopyFacts(env, tee, v, slots, br, sel, clock, side', k');
  }

  /** A batch over a ready book starts its pass ready. */
  lemma BatchStartsReady(env: BatchEnv, tee: Tee, v: VaultState, slots: seq<PendingOrder>, br: BatchResults, sel: seq<nat>, clock: uint64, t: Terms)
    requires BookReady(env.hs, tee, v, slots, clock, br.nextId, env.feeRate) && env.now >= clock
    requires NoDuplicates(sel) && Collect(env, slots, sel, |sel|).Ok?
    requires t.hs == env.hs && t.feeRate == env.feeRate && t.now == env.now
    ensures
      var s := FirstPass(env, slots, br, sel);
      PassReady(t, tee, v, s, Bystanders(v, slots, s, env.now))
  {
    var s := FirstPass(env, slots, br, sel);
    var others := Bystanders(v, slots, s, env.now);
    forall side: Side, k: nat | k < |BookOf(s, side)|
      ensures Steady(side, BookOf(s, side), k, CursorOf(s, side), t.feeRate) && Lasting(t, BookOf(s, side)[k])
      ensures OrderPledged(tee, v, BookOf(s, side)[k]) && NoteAt(s, side, k) !in others
    {
      CopyFacts(env, tee, v, slots, br, sel, clock, side, k);
      var o := BookOf(s, side)[k];
      assert Copied(s, o.slot);
    }
    forall side: Side, k: nat, side': Side, k': nat | Active(s, side, k) && Active(s, side', k') && (side != side' || k != k')
      ensures NoteAt(s, side, k) != NoteAt(s, side', k')
    {
      CopiesDiffer(env, tee, v, slots, br, sel, clock, side, k, side', k');
    }
    forall n | n in others ensures Stands(tee, v, n, others[n]) {
      var i :| 0 <= i < |slots| && LiveSlot(slots[i], env.now) && !Copied(s, i) && slots[i].note == n;
      assert SlotPledged(tee, v, slots[i]);
    }
  }

  /** Clearing a ready book: it does not abort, its matches settle, and it ends ready. */
  lemma ClearSettles(env: BatchEnv, tee: Tee, v: VaultState, s: Pass, others: map<Digest, NoteLock>)
    requires ChangeNotesSeparate(env.hs, tee) && NullifiersInjective(tee)
    requires Start(s) && PassReady(TermsOf(env, 0), tee, v, s, others) && Clear(env, s).Ok?
    requires Orderly(TermsOf(env, 0), tee, s, Clear(env, s).value.pass.fills)
    requires VaultReady(tee, v, |Clear(env, s).value.pass.fills|)
    requires s.nextId + |Clear(env, s).value.pass.fills| <= U64_MAX
    ensures
      var f := Clear(env, s).value.pass;
      && SettleAll(v, tee, f.fills).Ok? && InTime(v, tee, f.fills)
      && PassReady(TermsOf(env, 0), tee, SettleAll(v, tee, f.fills).value, f, others)
      && SameVault(v, SettleAll(v, tee, f.fills).value, |f.fills|)
      && f.nextId == s.nextId + |f.fills|
  {
    var r := ClearingPrice(s.bids, s.asks);
    if r.Some? && !Deviates(r.value.0, env.twap, env.cfg.circuitBps) {
      var t := TermsOf(env, r.value.0);
      ReadyAtAnyPrice(TermsOf(env, 0), t, tee, v, s, others);
      MintsAtAnyPrice(TermsOf(env, 0), t, tee, Run(t, s).value.fills);
      RunSettles(t, tee, v, v, s, others);
      var f := Run(t, s).value;
      ReadyAtAnyPrice(t, TermsOf(env, 0), tee, SettleAll(v, tee, f.fills).value, f, others);
    }
  }

  lemma ReadyAtAnyPrice(t: Terms, t': Terms, tee: Tee, v: VaultState, s: Pass, others: map<Digest, NoteLock>)
    requires PassReady(t, tee, v, s, others) && t'.hs == t.hs && t'.feeRate == t.feeRate && t'.now == t.now
    ensures PassReady(t', tee, v, s, others)
  {
    forall side: Side, k: nat | k < |BookOf(s, side)|
      ensures Steady(side, BookOf(s, side), k, CursorOf(s, side), t'.feeRate) && Lasting(t', BookOf(s, side)[k])
    {
      assert Steady(side, BookOf(s, side), k, CursorOf(s, side), t.feeRate) && Lasting(t, BookOf(s, side)[k]);
    }
  }

  lemma MintsAtAnyPrice(t: Terms, t': Terms, tee: Tee, fills: seq<Fill>)
    requires Mints(t, tee, fills) && t'.baseMint == t.baseMint && t'.quoteMint == t.quoteMint
    ensures Mints(t', tee, fills)
  {
    forall i, side: Side | 0 <= i < |fills| && LegOn(fills[i].result, side).change > 0
      ensures tee.mints(MintingOf(t', fills[i].result, side))
    {
      assert tee.mints(MintingOf(t, fills[i].result, side));
    }
  }

  /** Slot contents `q` and the working copy agree on the collateral and on whom it serves. */
  ghost predicate HeldBy(f: Pass, side: Side, k: nat, q: PendingOrder) {
    && Active(f, side, k) && NoteAt(f, side, k) == q.note
    && BookOf(f, side)[k].noteAmount == q.noteAmount && BookOf(f, side)[k].orderId == q.orderId
    && BookOf(f, side)[k].expiry == q.expiry
  }

  /** What the slot of a surviving limit or fill-or-kill copy holds is what the copy holds. */
  lemma RestingHeld(p: PendingOrder, f: Pass, side: Side, k: nat)
    requires p.Pending() && k < |BookOf(f, side)| && p.orderType != TYPE_IOC
    requires Evolved(Snapshot(p, BookOf(f, side)[k].slot), BookOf(f, side)[k])
    requires AllPositive(f.fills) && Backed(f.fills, side, BookOf(f, side)[k], Snapshot(p, BookOf(f, side)[k].slot))
    requires ApplyOrder(p, BookOf(f, side)[k]).Pending()
    ensures HeldBy(f, side, k, ApplyOrder(p, BookOf(f, side)[k]))
  {
    if BookOf(f, side)[k].amount == p.amount {
      NothingFilled(f.fills, side, BookOf(f, side)[k].slot, Holding(p.note, p.noteAmount));
    }
  }

  /** An immediate-or-cancel order that rests after a batch was not filled and holds its note. */
  lemma ImmediateHeld(p: PendingOrder, f: Pass, side: Side, k: nat)
    requires p.Pending() && p.amount > 0 && k < |BookOf(f, side)| && p.orderType == TYPE_IOC
    requires Evolved(Snapshot(p, BookOf(f, side)[k].slot), BookOf(f, side)[k])
    requires AllPositive(f.fills) && Measured(f.fills, side, BookOf(f, side)[k], Snapshot(p, BookOf(f, side)[k].slot), false)
    requires ApplyOrder(p, BookOf(f, side)[k]).Pending()
    ensures HeldBy(f, side, k, ApplyOrder(p, BookOf(f, side)[k]))
  {
    CountedIsFilled(f.fills, side, BookOf(f, side)[k].slot);
  }

  /** How the copies of a ready book end: measured, and backed unless immediate-or-cancel. */
  lemma CopyLife(env: BatchEnv, tee: Tee, v: VaultState, slots: seq<PendingOrder>, br: BatchResults, sel: seq<nat>, clock: uint64, side: Side, k: nat)
    requires BookReady(env.hs, tee, v, slots, clock, br.nextId, env.feeRate) && env.now >= clock
    requires BatchRuns(env, slots, br, sel) && k < |BookOf(FirstPass(env, slots, br, sel), side)|
    ensures
      var s, f := FirstPass(env, slots, br, sel), FinalPass(env, slots, br, sel);
      && |BookOf(f, side)| == |BookOf(s, side)| && AllPositive(f.fills)
      && Measured(f.fills, side, BookOf(f, side)[k], BookOf(s, side)[k], false)
      && (BookOf(s, side)[k].orderType != TYPE_IOC ==> Backed(f.fills, side, BookOf(f, side)[k], BookOf(s, side)[k]))
  {
    CopyFacts(env, tee, v, slots, br, sel, clock, side, k);
    var s := FirstPass(env, slots, br, sel);
    ClearMeasured(env, s, side, k);
    if BookOf(s, side)[k].orderType != TYPE_IOC {
      ClearLife(env, s, side, k);
    }
    BatchPositive(env, slots, br, sel);
  }

  lemma CopyOutcome(env: BatchEnv, slots: seq<PendingOrder>, br: BatchResults, sel: seq<nat>, side: Side, k: nat)
    requires BatchRuns(env, slots, br, sel) && k < |BookOf(FirstPass(env, slots, br, sel), side)|
    ensures
      var o, o' := BookOf(FirstPass(env, slots, br, sel), side)[k], BookOf(FinalPass(env, slots, br, sel), side);
      && o.slot < |slots| == |RunBatch(env, slots, br, sel).value.slots|
      && slots[o.slot].Pending() && o == Snapshot(slots[o.slot], o.slot)
      && k < |o'| && Evolved(o, o'[k]) && o'[k].slot == o.slot
      && RunBatch(env, slots, br, sel).value.slots[o.slot] == ApplyOrder(slots[o.slot], o'[k])
  {
    BatchTouches(env, slots, br, sel, side, k);
  }

  lemma CopyAfterBatch(env: BatchEnv, tee: Tee, v: VaultState, slots: seq<PendingOrder>, br: BatchResults, sel: seq<nat>, clock: uint64, side: Side, k: nat)
    requires BookReady(env.hs, tee, v, slots, clock, br.nextId, env.feeRate) && env.now >= clock
    requires BatchRuns(env, slots, br, sel) && k < |BookOf(FirstPass(env, slots, br, sel), side)|
    ensures
      var i := BookOf(FirstPass(env, slots, br, sel), side)[k].slot;
      var after := RunBatch(env, slots, br, sel).value.slots;
      && i < |slots| == |after| && Payable(after[i])
      && (after[i].Pending() ==> HeldBy(FinalPass(env, slots, br, sel), side, k, after[i]))
  {
    var s, f := FirstPass(env, slots, br, sel), FinalPass(env, slots, br, sel);
    CopyOutcome(env, slots, br, sel, side, k);
    var p := slots[BookOf(s, side)[k].slot];
    CopyLife(env, tee, v, slots, br, sel, clock, side, k);
    assert Payable(p) && SlotOk(p);
    if ApplyOrder(p, BookOf(f, side)[k]).Pending() {
      if p.orderType == TYPE_IOC {
        ImmediateHeld(p, f, side, k);
      } else {
        RestingHeld(p, f, side, k);
      }
    }
  }

  /** Where the collateral of slot `i` is after the batch: with its copy, or where it was. */
  lemma SlotAfterBatch(env: BatchEnv, tee: Tee, v: VaultState, slots: seq<PendingOrder>, br: BatchResults, sel: seq<nat>, clock: uint64, i: nat)
      returns (side: Side, k: Option<nat>)
    requires BookReady(env.hs, tee, v, slots, clock, br.nextId, env.feeRate) && env.now >= clock
    requires BatchRuns(env, slots, br, sel) && i < |slots|
    ensures |RunBatch(env, slots, br, sel).value.slots| == |slots|
    ensures Payable(RunBatch(env, slots, br, sel).value.slots[i])
    ensures k.Some? ==> k.value < |BookOf(FirstPass(env, slots, br, sel), side)| && BookOf(FirstPass(env, slots, br, sel), side)[k.value].slot == i
    ensures k.None? ==> !Copied(FirstPass(env, slots, br, sel), i)
    ensures
      var q := RunBatch(env, slots, br, sel).value.slots[i];
      LiveSlot(q, env.now) ==> if k.Some? then HeldBy(FinalPass(env, slots, br, sel), side, k.value, q) else q == slots[i]
  {
    assert Payable(slots[i]);
    BatchSlots(env, slots, br, sel);
    side, k := FindCopy(FirstPass(env, slots, br, sel), i);
    if k.Some? {
      CopyAfterBatch(env, tee, v, slots, br, sel, clock, side, k.value);
    } else {
      BatchLeaves(env, slots, br, sel, i);
    }
  }

  /** The working copies of a type are the slots of that type. */
  lemma OnceInBooks(env: BatchEnv, slots: seq<PendingOrder>, br: BatchResults, sel: seq<nat>)
    requires BatchRuns(env, slots, br, sel) && IocFillsOnce(slots, RunBatch(env, slots, br, sel).value.fills)
    ensures IocOnce(FirstPass(env, slots, br, sel), RunBatch(env, slots, br, sel).value.fills)
  {
    var s := FirstPass(env, slots, br, sel);
    var fills := RunBatch(env, slots, br, sel).value.fills;
    StartBooks(env, slots, br, sel);
    forall side: Side, k: nat | k < |BookOf(s, side)| && BookOf(s, side)[k].orderType == TYPE_IOC
      ensures FillCount(fills, side, BookOf(s, side)[k].slot) <= 1
    {
      var o := BookOf(s, side)[k];
      assert IsSnapshotOf(env, slots, sel, side, o);
      assert slots[o.slot].Pending() && SideOf(slots[o.slot]) == side;
    }
  }

  /** The pass of a batch over a ready book: every match settles and the pass ends ready. */
  lemma BatchSettlesPass(env: BatchEnv, tee: Tee, v: VaultState, slots: seq<PendingOrder>, br: BatchResults, sel: seq<nat>, clock: uint64)
    requires ChangeNotesSeparate(env.hs, tee) && NullifiersInjective(tee)
    requires BookReady(env.hs, tee, v, slots, clock, br.nextId, env.feeRate) && env.now >= clock
    requires BatchRuns(env, slots, br, sel)
    requires Mints(TermsOf(env, 0), tee, RunBatch(env, slots, br, sel).value.fills)
    requires IocFillsOnce(slots, RunBatch(env, slots, br, sel).value.fills)
    requires VaultReady(tee, v, |RunBatch(env, slots, br, sel).value.fills|)
    requires br.nextId + |RunBatch(env, slots, br, sel).value.fills| <= U64_MAX
    ensures
      var o := RunBatch(env, slots, br, sel).value;
      var others := Bystanders(v, slots, FirstPass(env, slots, br, sel), env.now);
      && SettleAll(v, tee, o.fills).Ok? && InTime(v, tee, o.fills)
      && PassReady(TermsOf(env, 0), tee, SettleAll(v, tee, o.fills).value, FinalPass(env, slots, br, sel), others)
      && SameVault(v, SettleAll(v, tee, o.fills).value, |o.fills|)
      && o.results.nextId == br.nextId + |o.fills|
  {
    var s := FirstPass(env, slots, br, sel);
    BatchStartsReady(env, tee, v, slots, br, sel, clock, TermsOf(env, 0));
    BatchSlots(env, slots, br, sel);
    BatchAccount(env, slots, br, sel);
    OnceInBooks(env, slots, br, sel);
    ClearSettles(env, tee, v, s, Bystanders(v, slots, s, env.now));
  }

  lemma SlotPledgedAfter(env: BatchEnv, tee: Tee, v: VaultState, w: VaultState, slots: seq<PendingOrder>, br: BatchResults, sel: seq<nat>, clock: uint64, i: nat)
    requires BookReady(env.hs, tee, v, slots, clock, br.nextId, env.feeRate) && env.now >= clock
    requires BatchRuns(env, slots, br, sel) && i < |slots|
    requires PassReady(TermsOf(env, 0), tee, w, FinalPass(env, slots, br, sel), Bystanders(v, slots, FirstPass(env, slots, br, sel), env.now))
    ensures |RunBatch(env, slots, br, sel).value.slots| == |slots|
    ensures LiveSlot(RunBatch(env, slots, br, sel).value.slots[i], env.now) ==> SlotPledged(tee, w, RunBatch(env, slots, br, sel).value.slots[i])
  {
    var s, f := FirstPass(env, slots, br, sel), FinalPass(env, slots, br, sel);
    var side, k := SlotAfterBatch(env, tee, v, slots, br, sel, clock, i);
    var q := RunBatch(env, slots, br, sel).value.slots[i];
    if LiveSlot(q, env.now) {
      if k.Some? {
        assert OrderPledged(tee, w, BookOf(f, side)[k.value]);
      } else {
        assert SlotPledged(tee, v, slots[i]);
        assert Bystander(slots, s, env.now, q.note);
        assert q.note in Bystanders(v, slots, s, env.now);
      }
    }
  }

  lemma SlotsDifferAfter(env: BatchEnv, tee: Tee, v: VaultState, w: VaultState, slots: seq<PendingOrder>, br: BatchResults, sel: seq<nat>, clock: uint64,
                         i: nat, j: nat)
    requires BookReady(env.hs, tee, v, slots, clock, br.nextId, env.feeRate) && env.now >= clock
    requires BatchRuns(env, slots, br, sel) && i < |slots| && j < |slots| && i != j
    requires PassReady(TermsOf(env, 0), tee, w, FinalPass(env, slots, br, sel), Bystanders(v, slots, FirstPass(env, slots, br, sel), env.now))
    requires |RunBatch(env, slots, br, sel).value.slots| == |slots|
    requires LiveSlot(RunBatch(env, slots, br, sel).value.slots[i], env.now) && LiveSlot(RunBatch(env, slots, br, sel).value.slots[j], env.now)
    ensures RunBatch(env, slots, br, sel).value.slots[i].note != RunBatch(env, slots, br, sel).value.slots[j].note
  {
    var s, f := FirstPass(env, slots, br, sel), FinalPass(env, slots, br, sel);
    var side, k := SlotAfterBatch(env, tee, v, slots, br, sel, clock, i);
    var side', k' := SlotAfterBatch(env, tee, v, slots, br, sel, clock, j);
    var others := Bystanders(v, slots, s, env.now);
    if k.Some? && k'.Some? {
      assert NoteAt(f, side, k.value) != NoteAt(f, side', k'.value);
    } else if k.Some? {
      assert SlotPledged(tee, v, slots[j]);
      assert Bystander(slots, s, env.now, slots[j].note);
      assert NoteAt(f, side, k.value) !in others;
    } else if k'.Some? {
      assert SlotPledged(tee, v, slots[i]);
      assert Bystander(slots, s, env.now, slots[i].note);
      assert NoteAt(f, side', k'.value) !in others;
    }
  }

  /** One batch: all its matches settle, and the book is ready for the next. */
  lemma BatchSettles(env: BatchEnv, tee: Tee, v: VaultState, slots: seq<PendingOrder>, br: BatchResults, sel: seq<nat>, clock: uint64)
    requires ChangeNotesSeparate(env.hs, tee) && NullifiersInjective(tee)
    requires BookReady(env.hs, tee, v, slots, clock, br.nextId, env.feeRate) && env.now >= clock
    requires BatchRuns(env, slots, br, sel)
    requires Mints(TermsOf(env, 0), tee, RunBatch(env, slots, br, sel).value.fills)
    requires IocFillsOnce(slots, RunBatch(env, slots, br, sel).value.fills)
    requires VaultReady(tee, v, |RunBatch(env, slots, br, sel).value.fills|)
    requires br.nextId + |RunBatch(env, slots, br, sel).value.fills| <= U64_MAX
    ensures
      var o := RunBatch(env, slots, br, sel).value;
      && SettleAll(v, tee, o.fills).Ok? && InTime(v, tee, o.fills)
      && SameVault(v, SettleAll(v, tee, o.fills).value, |o.fills|)
      && o.results.nextId == br.nextId + |o.fills|
      && BookReady(env.hs, tee, SettleAll(v, tee, o.fills).value, o.slots, env.now, o.results.nextId, env.feeRate)
  {
    var o := RunBatch(env, slots, br, sel).value;
    BatchSettlesPass(env, tee, v, slots, br, sel, clock);
    BatchAccount(env, slots, br, sel);
    BatchKeepsSlots(env, slots, br, sel);
    BatchKeepsFunded(env, slots, br, sel);
    var w := SettleAll(v, tee, o.fills).value;
    forall i | 0 <= i < |o.slots|
      ensures Payable(o.slots[i]) && (LiveSlot(o.slots[i], env.now) ==> SlotPledged(tee, w, o.slots[i]))
    {
      var side, k := SlotAfterBatch(env, tee, v, slots, br, sel, clock, i);
      SlotPledgedAfter(env, tee, v, w, slots, br, sel, clock, i);
    }
    forall i, j | 0 <= i < |o.slots| && 0 <= j < |o.slots| && i != j && LiveSlot(o.slots[i], env.now) && LiveSlot(o.slots[j], env.now)
      ensures o.slots[i].note != o.slots[j].note
    {
      SlotsDifferAfter(env, tee, v, w, slots, br, sel, clock, i, j);
    }
  }

  // ---------- exactly when a batch settles ----------

  /** A slot that occurs in a match has a working copy. */
  lemma FilledHasCopy(env: BatchEnv, slots: seq<PendingOrder>, br: BatchResults, sel: seq<nat>, side: Side, slot: nat, j: nat) returns (k: nat)
    requires BatchRuns(env, slots, br, sel)
    requires j < |RunBatch(env, slots, br, sel).value.fills| && SlotOn(RunBatch(env, slots, br, sel).value.fills[j], side) == slot
    ensures k < |BookOf(FirstPass(env, slots, br, sel), side)| && BookOf(FirstPass(env, slots, br, sel), side)[k].slot == slot
    ensures Clear(env, FirstPass(env, slots, br, sel)).Ok?
    ensures
      var s := FirstPass(env, slots, br, sel);
      var r := ClearingPrice(s.bids, s.asks);
      r.Some? && Run(TermsOf(env, r.value.0), s) == Ok(FinalPass(env, slots, br, sel))
  {
    var s := FirstPass(env, slots, br, sel);
    BatchSlots(env, slots, br, sel);
    var r := ClearingPrice(s.bids, s.asks);
    if forall k :: 0 <= k < |BookOf(s, side)| ==> BookOf(s, side)[k].slot != slot {
      RunFillSlots(TermsOf(env, r.value.0), s, side, slot);
      assert false;
    }
    k :| 0 <= k < |BookOf(s, side)| && BookOf(s, side)[k].slot == slot;
  }

  /** A batch that fills an immediate-or-cancel order twice makes a log no vault settles. */
  lemma DoubleFillIsRefused(env: BatchEnv, tee: Tee, v: VaultState, slots: seq<PendingOrder>, br: BatchResults, sel: seq<nat>)
    requires BatchRuns(env, slots, br, sel) && !IocFillsOnce(slots, RunBatch(env, slots, br, sel).value.fills)
    ensures SettleAll(v, tee, RunBatch(env, slots, br, sel).value.fills).Err?
  {
    var fills := RunBatch(env, slots, br, sel).value.fills;
    var slot :| 0 <= slot < |slots| && slots[slot].Pending() && slots[slot].orderType == TYPE_IOC
      && FillCount(fills, SideOf(slots[slot]), slot) >= 2;
    var side := SideOf(slots[slot]);
    var i, j := TwoFills(fills, side, slot);
    var k := FilledHasCopy(env, slots, br, sel, side, slot, j);
    var s := FirstPass(env, slots, br, sel);
    BatchSlots(env, slots, br, sel);
    StartBooks(env, slots, br, sel);
    assert IsSnapshotOf(env, slots, sel, side, BookOf(s, side)[k]);
    IocFilledTwiceIsRefused(TermsOf(env, ClearingPrice(s.bids, s.asks).value.0), s, side, k, tee, v, i, j);
  }

  /** Over a funded and pledged book with orders of any type, the matches of a batch settle if and only
      if no immediate-or-cancel slot occurs in two of them. */
  lemma BatchSettlesExactly(env: BatchEnv, tee: Tee, v: VaultState, slots: seq<PendingOrder>, br: BatchResults, sel: seq<nat>, clock: uint64)
    requires ChangeNotesSeparate(env.hs, tee) && NullifiersInjective(tee)
    requires BookReady(env.hs, tee, v, slots, clock, br.nextId, env.feeRate) && env.now >= clock
    requires BatchRuns(env, slots, br, sel)
    requires Mints(TermsOf(env, 0), tee, RunBatch(env, slots, br, sel).value.fills)
    requires VaultReady(tee, v, |RunBatch(env, slots, br, sel).value.fills|)
    requires br.nextId + |RunBatch(env, slots, br, sel).value.fills| <= U64_MAX
    ensures SettleAll(v, tee, RunBatch(env, slots, br, sel).value.fills).Ok? <==>
            IocFillsOnce(slots, RunBatch(env, slots, br, sel).value.fills)
  {
    if IocFillsOnce(slots, RunBatch(env, slots, br, sel).value.fills) {
      BatchSettles(env, tee, v, slots, br, sel, clock);
    } else {
      DoubleFillIsRefused(env, tee, v, slots, br, sel);
    }
  }
}
