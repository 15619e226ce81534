// A note settles once: what that means for orders whose collateral does not rotate.
module ConsumedNotes {
  import opened Prelude
  import opened Crypto
  import opened Orders
  import opened Matching
  import opened MatchingLaws
  import opened Collateral
  import opened Vault
  import opened Settleability

  // ---------- a note settles once ----------

  predicate Names(f: Fill, note: Digest) {
    f.result.buyer.note == note || f.result.seller.note == note
  }

  lemma SettleConsumes(tee: Tee, v: VaultState, f: Fill)
    requires Settle(v, PayloadOf(tee, f), tee.authority, true).Ok?
    ensures f.result.buyer.note !in v.consumed && f.result.seller.note !in v.consumed
    ensures v.consumed + {f.result.buyer.note, f.result.seller.note} <=
            Settle(v, PayloadOf(tee, f), tee.authority, true).value.consumed
  {
    var p := PayloadOf(tee, f);
    var marked := v.(consumed := v.consumed + {p.noteA, p.noteB}, nullifiers := v.nullifiers + {p.nullifierA, p.nullifierB});
    AppendsKeepConsumed(marked, p);
  }

  lemma AppendsKeepConsumed(v: VaultState, p: Payload)
    requires SettleAppends(v, p).Ok?
    ensures SettleAppends(v, p).value.consumed == v.consumed
  {
    AppendAllKeepsConsumed(v, TradeLeaves(p));
    AppendAllKeepsConsumed(AppendAll(v, TradeLeaves(p)).value, Optional(p.noteFee));
  }

  lemma {:induction false} AppendAllKeepsConsumed(v: VaultState, leaves: seq<Digest>)
    requires AppendAll(v, leaves).Ok?
    ensures AppendAll(v, leaves).value.consumed == v.consumed
  {
    if leaves != [] {
      AppendAllKeepsConsumed(v, leaves[..|leaves| - 1]);
    }
  }

  lemma LastSettles(v: VaultState, tee: Tee, fills: seq<Fill>) returns (w: VaultState)
    requires fills != [] && SettleAll(v, tee, fills).Ok?
    ensures SettleAll(v, tee, fills[..|fills| - 1]) == Ok(w)
    ensures
      var m := fills[|fills| - 1].result;
      && m.buyer.note !in w.consumed && m.seller.note !in w.consumed
      && w.consumed + {m.buyer.note, m.seller.note} <= SettleAll(v, tee, fills).value.consumed
  {
    w := SettleAll(v, tee, fills[..|fills| - 1]).value;
    SettleConsumes(tee, w, fills[|fills| - 1]);
  }

  lemma {:induction false} SettledIsConsumed(v: VaultState, tee: Tee, fills: seq<Fill>, i: nat, note: Digest)
    requires SettleAll(v, tee, fills).Ok? && i < |fills| && Names(fills[i], note)
    ensures note in SettleAll(v, tee, fills).value.consumed
  {
    var w := LastSettles(v, tee, fills);
    if i < |fills| - 1 {
      SettledIsConsumed(v, tee, fills[..|fills| - 1], i, note);
    }
  }

  ghost predicate NoNoteTwice(fills: seq<Fill>) {
    forall i, j, n :: 0 <= i < j < |fills| && Names(fills[i], n) ==> !Names(fills[j], n)
  }

  lemma NoNoteTwiceGrows(fills: seq<Fill>)
    requires fills != [] && NoNoteTwice(fills[..|fills| - 1])
    requires forall i, n :: 0 <= i < |fills| - 1 && Names(fills[i], n) ==> !Names(fills[|fills| - 1], n)
    ensures NoNoteTwice(fills)
  {
    forall i, j, n | 0 <= i < j < |fills| && Names(fills[i], n) ensures !Names(fills[j], n) {
      if j < |fills| - 1 {
        assert fills[..|fills| - 1][i] == fills[i] && fills[..|fills| - 1][j] == fills[j];
      }
    }
  }

  /** In a log that settles, no note is named by two matches. */
  lemma {:induction false} ConsumedOnce(v: VaultState, tee: Tee, fills: seq<Fill>)
    requires SettleAll(v, tee, fills).Ok?
    ensures NoNoteTwice(fills)
  {
    if fills != [] {
      var w := LastSettles(v, tee, fills);
      ConsumedOnce(v, tee, fills[..|fills| - 1]);
      forall i, n | 0 <= i < |fills| - 1 && Names(fills[i], n) ensures !Names(fills[|fills| - 1], n) {
        SettledIsConsumed(v, tee, fills[..|fills| - 1], i, n);
      }
      NoNoteTwiceGrows(fills);
    }
  }

  lemma NamedTwiceIsRefused(v: VaultState, tee: Tee, fills: seq<Fill>, i: nat, j: nat, side: Side, note: Digest)
    requires i < j < |fills| && LegOn(fills[i].result, side).note == note && LegOn(fills[j].result, side).note == note
    ensures SettleAll(v, tee, fills).Err?
  {
    assert Names(fills[i], note) && Names(fills[j], note);
    if SettleAll(v, tee, fills).Ok? {
      ConsumedOnce(v, tee, fills);
    }
  }

  // ---------- an immediate-or-cancel order filled twice ----------

  /** Every fill of the slot so far names this note. */
  ghost predicate SameNote(fills: seq<Fill>, side: Side, slot: nat, note: Digest) {
    forall j :: 0 <= j < |fills| && SlotOn(fills[j], side) == slot ==> LegOn(fills[j].result, side).note == note
  }

  lemma StepKeepsIocNote(t: Terms, s: Pass, side: Side, k: nat)
    requires CanStep(t, s) && DistinctSlots(BookOf(s, side)) && k < |BookOf(s, side)|
    requires BookOf(s, side)[k].orderType == TYPE_IOC
    requires SameNote(s.fills, side, BookOf(s, side)[k].slot, BookOf(s, side)[k].note)
    ensures
      var s' := Step(t, s).value;
      var o := BookOf(s, side)[k];
      && |BookOf(s', side)| == |BookOf(s, side)| && DistinctSlots(BookOf(s', side))
      && BookOf(s', side)[k] == o.(amount := BookOf(s', side)[k].amount)
      && SameNote(s'.fills, side, o.slot, o.note)
  {
    StepDistinct(t, s, side);
    StepSide(t, s, side, k);
    if NextMove(t, s).Cross? {
      TradeFacts(t, s.bids[s.bi], s.asks[s.ai], s.nextId, side);
      CursorNotes(t, s);
    }
  }

  /** The collateral of an immediate-or-cancel order does not rotate: all its fills name its first note. */
  lemma {:induction false} IocKeepsNote(t: Terms, s: Pass, side: Side, k: nat)
    requires |s.ring| == BATCH_RESULTS_CAPACITY && Run(t, s).Ok?
    requires DistinctSlots(BookOf(s, side)) && k < |BookOf(s, side)| && BookOf(s, side)[k].orderType == TYPE_IOC
    requires SameNote(s.fills, side, BookOf(s, side)[k].slot, BookOf(s, side)[k].note)
    ensures SameNote(Run(t, s).value.fills, side, BookOf(s, side)[k].slot, BookOf(s, side)[k].note)
    decreases |s.bids| + |s.asks| - s.bi - s.ai
  {
    if s.Live() {
      StepShape(t, s);
      StepKeepsIocNote(t, s, side, k);
      IocKeepsNote(t, Step(t, s).value, side, k);
    }
  }

  /** An immediate-or-cancel order that fills twice in one pass makes the log of that pass
      unsettleable, in every vault. */
  lemma IocFilledTwiceIsRefused(t: Terms, s: Pass, side: Side, k: nat, tee: Tee, v: VaultState, i: nat, j: nat)
    requires Start(s) && Run(t, s).Ok? && DistinctSlots(BookOf(s, side))
    requires k < |BookOf(s, side)| && BookOf(s, side)[k].orderType == TYPE_IOC
    requires i < j < |Run(t, s).value.fills|
    requires SlotOn(Run(t, s).value.fills[i], side) == SlotOn(Run(t, s).value.fills[j], side) == BookOf(s, side)[k].slot
    ensures SettleAll(v, tee, Run(t, s).value.fills).Err?
  {
    IocKeepsNote(t, s, side, k);
    NamedTwiceIsRefused(v, tee, Run(t, s).value.fills, i, j, side, BookOf(s, side)[k].note);
  }
}
