// What a batch does to each slot, the invariant of the slot machine, and idleness of a second batch.
module MarketLaws {
  import opened Prelude
  import opened Crypto
  import opened Orders
  import opened Auction
  import opened Matching
  import opened MatchingLaws
  import opened Collateral
  import opened Market

  ghost predicate NoDuplicates(sel: seq<nat>) {
    forall i, j :: 0 <= i < j < |sel| ==> sel[i] != sel[j]
  }

  function SideCode(side: Side): uint8 {
    match side
    case Bid => SIDE_BID
    case Ask => SIDE_ASK
  }

  function Listed(c: Collected, side: Side): seq<Order> {
    match side
    case Bid => c.bids
    case Ask => c.asks
  }

  // ---------- pass 1 ----------

  /** The working copies of one side are snapshots of eligible selected slots. */
  ghost predicate IsSnapshotOf(env: BatchEnv, slots: seq<PendingOrder>, sel: seq<nat>, side: Side, o: Order) {
    && o.slot < |slots| && o.slot in sel
    && Eligible(env, slots[o.slot]) && slots[o.slot].side == SideCode(side)
    && o == Snapshot(slots[o.slot], o.slot)
  }

  ghost predicate CollectedFrom(env: BatchEnv, slots: seq<PendingOrder>, sel: seq<nat>, c: Collected) {
    && |c.slots| == |slots|
    && (forall i :: 0 <= i < |slots| ==> c.slots[i] == if i in sel && Drained(env, slots[i]) then Expire(slots[i]) else slots[i])
    && (forall k :: 0 <= k < |c.bids| ==> IsSnapshotOf(env, slots, sel, Bid, c.bids[k]))
    && (forall k :: 0 <= k < |c.asks| ==> IsSnapshotOf(env, slots, sel, Ask, c.asks[k]))
  }

  lemma VisitFacts(env: BatchEnv, slots: seq<PendingOrder>, done: seq<nat>, c: Collected, i: nat)
    requires CollectedFrom(env, slots, done, c) && Visit(env, c, i).Ok?
    ensures CollectedFrom(env, slots, done + [i], Visit(env, c, i).value)
  {
    var c' := Visit(env, c, i).value;
    forall k | 0 <= k < |c'.bids| ensures IsSnapshotOf(env, slots, done + [i], Bid, c'.bids[k]) {
      assert k < |c.bids| ==> IsSnapshotOf(env, slots, done, Bid, c.bids[k]);
    }
    forall k | 0 <= k < |c'.asks| ensures IsSnapshotOf(env, slots, done + [i], Ask, c'.asks[k]) {
      assert k < |c.asks| ==> IsSnapshotOf(env, slots, done, Ask, c.asks[k]);
    }
  }

  lemma {:induction false} CollectFacts(env: BatchEnv, slots: seq<PendingOrder>, sel: seq<nat>, k: nat)
    requires k <= |sel| && Collect(env, slots, sel, k).Ok?
    ensures CollectedFrom(env, slots, sel[..k], Collect(env, slots, sel, k).value)
  {
    if k > 0 {
      CollectFacts(env, slots, sel, k - 1);
      VisitFacts(env, slots, sel[..k - 1], Collect(env, slots, sel, k - 1).value, sel[k - 1]);
      assert sel[..k] == sel[..k - 1] + [sel[k - 1]];
    }
  }

  /** Distinct accounts give distinct working copies, on either side and across sides. */
  lemma {:induction false} CollectDistinct(env: BatchEnv, slots: seq<PendingOrder>, sel: seq<nat>, k: nat)
    requires k <= |sel| && Collect(env, slots, sel, k).Ok? && NoDuplicates(sel)
    ensures
      var c := Collect(env, slots, sel, k).value;
      && DistinctSlots(c.bids) && DistinctSlots(c.asks)
  {
    if k > 0 {
      CollectDistinct(env, slots, sel, k - 1);
      CollectFacts(env, slots, sel, k - 1);
      assert sel[k - 1] !in sel[..k - 1];
    }
  }

  // ---------- sorting keeps the copies ----------

  lemma {:induction false} InsertDistinct(side: Side, s: seq<Order>, o: Order)
    requires DistinctSlots(s) && forall i :: 0 <= i < |s| ==> s[i].slot != o.slot
    ensures DistinctSlots(Insert(side, s, o))
  {
    if s != [] && Ahead(side, o, s[|s| - 1]) {
      var t, last := s[..|s| - 1], s[|s| - 1];
      InsertDistinct(side, t, o);
      InsertMembers(side, t, o);
      var r := Insert(side, t, o);
      forall i | 0 <= i < |r| ensures r[i].slot != last.slot {
        assert r[i] in r;
      }
    }
  }

  lemma {:induction false} SortDistinct(side: Side, s: seq<Order>)
    requires DistinctSlots(s)
    ensures DistinctSlots(Sort(side, s))
  {
    if s != [] {
      var t, last := s[..|s| - 1], s[|s| - 1];
      SortDistinct(side, t);
      SortMembers(side, t);
      var r := Sort(side, t);
      forall i | 0 <= i < |r| ensures r[i].slot != last.slot {
        assert r[i] in t;
      }
      InsertDistinct(side, r, last);
    }
  }

  // ---------- writing back ----------

  lemma {:induction false} WriteBackAt(slots: seq<PendingOrder>, orders: seq<Order>, k: nat)
    requires k < |orders| && DistinctSlots(orders) && orders[k].slot < |slots|
    ensures WriteBack(slots, orders)[orders[k].slot] == ApplyOrder(slots[orders[k].slot], orders[k])
  {
    var t := orders[..|orders| - 1];
    if k < |t| {
      WriteBackAt(slots, t, k);
    } else {
      WriteBackElse(slots, t, orders[k].slot);
    }
  }

  lemma {:induction false} WriteBackElse(slots: seq<PendingOrder>, orders: seq<Order>, i: nat)
    requires i < |slots| && forall k :: 0 <= k < |orders| ==> orders[k].slot != i
    ensures WriteBack(slots, orders)[i] == slots[i]
  {
    if orders != [] {
      WriteBackElse(slots, orders[..|orders| - 1], i);
    }
  }

  // ---------- a batch, slot by slot ----------

  /** The books the pass starts from are snapshots of distinct eligible slots. */
  ghost predicate BooksFrom(env: BatchEnv, slots: seq<PendingOrder>, sel: seq<nat>, s: Pass) {
    && DistinctSlots(s.bids) && DistinctSlots(s.asks)
    && (forall k :: 0 <= k < |s.bids| ==> IsSnapshotOf(env, slots, sel, Bid, s.bids[k]))
    && (forall k :: 0 <= k < |s.asks| ==> IsSnapshotOf(env, slots, sel, Ask, s.asks[k]))
  }

  lemma StartBooks(env: BatchEnv, slots: seq<PendingOrder>, br: BatchResults, sel: seq<nat>)
    requires NoDuplicates(sel) && Collect(env, slots, sel, |sel|).Ok?
    ensures BooksFrom(env, slots, sel, StartPass(Collect(env, slots, sel, |sel|).value, br))
    ensures CollectedFrom(env, slots, sel, Collect(env, slots, sel, |sel|).value)
  {
    var c := Collect(env, slots, sel, |sel|).value;
    var s := StartPass(c, br);
    assert sel[..|sel|] == sel;
    CollectFacts(env, slots, sel, |sel|);
    CollectDistinct(env, slots, sel, |sel|);
    SortDistinct(Bid, c.bids);
    SortDistinct(Ask, c.asks);
    SortMembers(Bid, c.bids);
    SortMembers(Ask, c.asks);
    forall k | 0 <= k < |s.bids| ensures IsSnapshotOf(env, slots, sel, Bid, s.bids[k]) {
      assert s.bids[k] in c.bids;
    }
    forall k | 0 <= k < |s.asks| ensures IsSnapshotOf(env, slots, sel, Ask, s.asks[k]) {
      assert s.asks[k] in c.asks;
    }
  }

  /** The final pass of a successful batch. */
  function FinalPass(env: BatchEnv, slots: seq<PendingOrder>, br: BatchResults, sel: seq<nat>): Pass
    requires |br.ring| == BATCH_RESULTS_CAPACITY
    requires Collect(env, slots, sel, |sel|).Ok? && Clear(env, StartPass(Collect(env, slots, sel, |sel|).value, br)).Ok?
  {
    Clear(env, StartPass(Collect(env, slots, sel, |sel|).value, br)).value.pass
  }

  function FirstPass(env: BatchEnv, slots: seq<PendingOrder>, br: BatchResults, sel: seq<nat>): Pass
    requires Collect(env, slots, sel, |sel|).Ok?
  {
    StartPass(Collect(env, slots, sel, |sel|).value, br)
  }

  ghost predicate BatchRuns(env: BatchEnv, slots: seq<PendingOrder>, br: BatchResults, sel: seq<nat>) {
    && |br.ring| == BATCH_RESULTS_CAPACITY && NoDuplicates(sel)
    && RunBatch(env, slots, br, sel).Ok?
  }

  /** Clearing only moves working copies along `Evolved`. */
  lemma ClearEvolves(env: BatchEnv, s: Pass, side: Side, k: nat)
    requires |s.ring| == BATCH_RESULTS_CAPACITY && Clear(env, s).Ok? && k < |BookOf(s, side)|
    ensures |BookOf(Clear(env, s).value.pass, side)| == |BookOf(s, side)|
    ensures Evolved(BookOf(s, side)[k], BookOf(Clear(env, s).value.pass, side)[k])
  {
    var r := ClearingPrice(s.bids, s.asks);
    if r.Some? && !Deviates(r.value.0, env.twap, env.cfg.circuitBps) {
      RunEvolves(TermsOf(env, r.value.0), s, side, k);
    }
  }

  lemma FinalLengths(env: BatchEnv, s: Pass)
    requires |s.ring| == BATCH_RESULTS_CAPACITY && Clear(env, s).Ok?
    ensures |Clear(env, s).value.pass.bids| == |s.bids| && |Clear(env, s).value.pass.asks| == |s.asks|
    ensures |Clear(env, s).value.pass.ring| == BATCH_RESULTS_CAPACITY
  {
    var r := ClearingPrice(s.bids, s.asks);
    if r.Some? && !Deviates(r.value.0, env.twap, env.cfg.circuitBps) {
      RunLengths(TermsOf(env, r.value.0), s);
    }
  }

  lemma {:induction false} RunLengths(t: Terms, s: Pass)
    requires |s.ring| == BATCH_RESULTS_CAPACITY && Run(t, s).Ok?
    ensures |Run(t, s).value.bids| == |s.bids| && |Run(t, s).value.asks| == |s.asks|
    ensures |Run(t, s).value.ring| == BATCH_RESULTS_CAPACITY
    decreases |s.bids| + |s.asks| - s.bi - s.ai
  {
    if s.Live() {
      StepShape(t, s);
      RunLengths(t, Step(t, s).value);
    }
  }

  lemma FinalDistinct(env: BatchEnv, slots: seq<PendingOrder>, sel: seq<nat>, s: Pass)
    requires |s.ring| == BATCH_RESULTS_CAPACITY && Clear(env, s).Ok? && BooksFrom(env, slots, sel, s)
    ensures
      var f := Clear(env, s).value.pass;
      && |f.bids| == |s.bids| && |f.asks| == |s.asks|
      && DistinctSlots(f.bids + f.asks)
      && (forall k :: 0 <= k < |f.bids| ==> f.bids[k].slot == s.bids[k].slot)
      && (forall k :: 0 <= k < |f.asks| ==> f.asks[k].slot == s.asks[k].slot)
  {
    var f := Clear(env, s).value.pass;
    FinalLengths(env, s);
    forall k | 0 <= k < |f.bids| ensures f.bids[k].slot == s.bids[k].slot {
      ClearEvolves(env, s, Bid, k);
    }
    forall k | 0 <= k < |f.asks| ensures f.asks[k].slot == s.asks[k].slot {
      ClearEvolves(env, s, Ask, k);
    }
    forall i, j | 0 <= i < |f.bids| && 0 <= j < |f.asks| ensures f.bids[i].slot != f.asks[j].slot {
      assert IsSnapshotOf(env, slots, sel, Bid, s.bids[i]);
      assert IsSnapshotOf(env, slots, sel, Ask, s.asks[j]);
    }
  }

  /** The slots a successful batch leaves. */
  lemma BatchSlots(env: BatchEnv, slots: seq<PendingOrder>, br: BatchResults, sel: seq<nat>)
    requires BatchRuns(env, slots, br, sel)
    ensures
      var f := FinalPass(env, slots, br, sel);
      && RunBatch(env, slots, br, sel).value.slots == WriteBack(Collect(env, slots, sel, |sel|).value.slots, f.bids + f.asks)
      && RunBatch(env, slots, br, sel).value.fills == f.fills
      && |RunBatch(env, slots, br, sel).value.slots| == |slots|
  {
    assert sel[..|sel|] == sel;
    CollectFacts(env, slots, sel, |sel|);
  }

  lemma WriteBackCopy(env: BatchEnv, slots: seq<PendingOrder>, sel: seq<nat>, c: Collected, s: Pass, side: Side, k: nat)
    requires |s.ring| == BATCH_RESULTS_CAPACITY && Clear(env, s).Ok?
    requires CollectedFrom(env, slots, sel, c) && BooksFrom(env, slots, sel, s) && k < |BookOf(s, side)|
    ensures
      var f := Clear(env, s).value.pass;
      var o := BookOf(s, side)[k];
      && IsSnapshotOf(env, slots, sel, side, o)
      && |BookOf(f, side)| == |BookOf(s, side)|
      && WriteBack(c.slots, f.bids + f.asks)[o.slot] == ApplyOrder(slots[o.slot], BookOf(f, side)[k])
  {
    var f := Clear(env, s).value.pass;
    FinalDistinct(env, slots, sel, s);
    var at := if side.Bid? then k else |f.bids| + k;
    assert (f.bids + f.asks)[at] == BookOf(f, side)[k];
    assert IsSnapshotOf(env, slots, sel, side, BookOf(s, side)[k]);
    WriteBackAt(c.slots, f.bids + f.asks, at);
  }

  /** A slot with a working copy ends as that copy says. */
  lemma BatchTouches(env: BatchEnv, slots: seq<PendingOrder>, br: BatchResults, sel: seq<nat>, side: Side, k: nat)
    requires BatchRuns(env, slots, br, sel)
    requires k < |BookOf(FirstPass(env, slots, br, sel), side)|
    ensures
      var s := FirstPass(env, slots, br, sel);
      var f := FinalPass(env, slots, br, sel);
      var o := BookOf(s, side)[k];
      && IsSnapshotOf(env, slots, sel, side, o)
      && |BookOf(f, side)| == |BookOf(s, side)| && Evolved(o, BookOf(f, side)[k])
      && |RunBatch(env, slots, br, sel).value.slots| == |slots|
      && RunBatch(env, slots, br, sel).value.slots[o.slot] == ApplyOrder(slots[o.slot], BookOf(f, side)[k])
  {
    var c := Collect(env, slots, sel, |sel|).value;
    var s := FirstPass(env, slots, br, sel);
    StartBooks(env, slots, br, sel);
    ClearEvolves(env, s, side, k);
    WriteBackCopy(env, slots, sel, c, s, side, k);
    BatchSlots(env, slots, br, sel);
  }

  lemma WriteBackRest(env: BatchEnv, slots: seq<PendingOrder>, sel: seq<nat>, c: Collected, s: Pass, i: nat)
    requires |s.ring| == BATCH_RESULTS_CAPACITY && Clear(env, s).Ok?
    requires CollectedFrom(env, slots, sel, c) && BooksFrom(env, slots, sel, s) && i < |slots|
    requires forall k :: 0 <= k < |s.bids| ==> s.bids[k].slot != i
    requires forall k :: 0 <= k < |s.asks| ==> s.asks[k].slot != i
    ensures
      var f := Clear(env, s).value.pass;
      WriteBack(c.slots, f.bids + f.asks)[i] == c.slots[i]
  {
    var f := Clear(env, s).value.pass;
    FinalDistinct(env, slots, sel, s);
    WriteBackElse(c.slots, f.bids + f.asks, i);
  }

  /** Every other slot is expired, if it was selected and about to, or left alone. */
  lemma BatchLeaves(env: BatchEnv, slots: seq<PendingOrder>, br: BatchResults, sel: seq<nat>, i: nat)
    requires BatchRuns(env, slots, br, sel) && i < |slots|
    requires
      var s := FirstPass(env, slots, br, sel);
      && (forall k :: 0 <= k < |s.bids| ==> s.bids[k].slot != i)
      && (forall k :: 0 <= k < |s.asks| ==> s.asks[k].slot != i)
    ensures |RunBatch(env, slots, br, sel).value.slots| == |slots|
    ensures RunBatch(env, slots, br, sel).value.slots[i] ==
            if i in sel && Drained(env, slots[i]) then Expire(slots[i]) else slots[i]
  {
    var c := Collect(env, slots, sel, |sel|).value;
    var s := FirstPass(env, slots, br, sel);
    StartBooks(env, slots, br, sel);
    WriteBackRest(env, slots, sel, c, s, i);
    BatchSlots(env, slots, br, sel);
  }

  // ---------- the slot machine ----------

  ghost predicate SlotOk(p: PendingOrder) {
    && (p.Pending() ==> p.amount > 0 && p.orderId != 0 && p.limit > 0)
    && (p.Pending() ==> p.side == SIDE_BID || p.side == SIDE_ASK)
    && (p.Pending() ==> p.orderType == TYPE_LIMIT || p.orderType == TYPE_IOC || p.orderType == TYPE_FOK)
    && (p.Pending() || p.status == STATUS_MATCHED ==> p.filled + p.amount == p.total)
    && (p.orderType == TYPE_FOK ==> p.filled == 0 || p.filled == p.total)
  }

  ghost predicate SlotsOk(slots: seq<PendingOrder>) {
    forall i :: 0 <= i < |slots| ==> SlotOk(slots[i])
  }

  lemma SubmitKeepsSlot(hs: Hashes, p: PendingOrder, a: SubmitArgs, signer: Digest, now: uint64)
    requires SubmitOrder(hs, p, a, signer, now).Ok?
    ensures SlotOk(SubmitOrder(hs, p, a, signer, now).value)
  {
  }

  lemma CancelKeepsSlot(p: PendingOrder, signer: Digest, market: Digest, slotIdx: uint8)
    requires SlotOk(p) && CancelOrder(p, signer, market, slotIdx).Ok?
    ensures SlotOk(CancelOrder(p, signer, market, slotIdx).value)
  {
  }

  lemma ApplyKeepsSlot(p: PendingOrder, slot: nat, o: Order)
    requires SlotOk(p) && p.Pending() && Evolved(Snapshot(p, slot), o)
    ensures SlotOk(ApplyOrder(p, o))
  {
  }

  /** Index of the working copy of slot `i`, if it has one. */
  lemma FindCopy(s: Pass, i: nat) returns (side: Side, k: Option<nat>)
    ensures k.Some? ==> k.value < |BookOf(s, side)| && BookOf(s, side)[k.value].slot == i
    ensures k.None? ==> (forall j :: 0 <= j < |s.bids| ==> s.bids[j].slot != i) && (forall j :: 0 <= j < |s.asks| ==> s.asks[j].slot != i)
  {
    if j :| 0 <= j < |s.bids| && s.bids[j].slot == i {
      return Bid, Some(j);
    }
    if j :| 0 <= j < |s.asks| && s.asks[j].slot == i {
      return Ask, Some(j);
    }
    return Bid, None;
  }

  lemma BatchKeepsSlots(env: BatchEnv, slots: seq<PendingOrder>, br: BatchResults, sel: seq<nat>)
    requires BatchRuns(env, slots, br, sel) && SlotsOk(slots)
    ensures |RunBatch(env, slots, br, sel).value.slots| == |slots|
    ensures SlotsOk(RunBatch(env, slots, br, sel).value.slots)
  {
    var after := RunBatch(env, slots, br, sel).value.slots;
    BatchSlots(env, slots, br, sel);
    forall i | 0 <= i < |slots| ensures SlotOk(after[i]) {
      var side, k := FindCopy(FirstPass(env, slots, br, sel), i);
      if k.Some? {
        BatchTouches(env, slots, br, sel, side, k.value);
        ApplyKeepsSlot(slots[i], i, BookOf(FinalPass(env, slots, br, sel), side)[k.value]);
      } else {
        BatchLeaves(env, slots, br, sel, i);
      }
    }
  }

  // ---------- runs of the market ----------

  datatype MarketState = MarketState(slots: seq<PendingOrder>, results: BatchResults)

  datatype Action =
    | Submit(slot: nat, args: SubmitArgs, signer: Digest, now: uint64)
    | Cancel(slot: nat, signer: Digest, market: Digest, slotIdx: uint8)
    | Batch(env: BatchEnv, sel: seq<nat>)

  /** Distinct accounts are passed to a batch. */
  ghost predicate WellFormed(a: Action) {
    a.Batch? ==> NoDuplicates(a.sel)
  }

  /** One instruction; a failed one leaves every account as it was. */
  ghost function Next(hs: Hashes, m: MarketState, a: Action): MarketState {
    match a
    case Submit(i, args, signer, now) =>
      if i < |m.slots| && SubmitOrder(hs, m.slots[i], args, signer, now).Ok?
      then m.(slots := m.slots[i := SubmitOrder(hs, m.slots[i], args, signer, now).value]) else m
    case Cancel(i, signer, market, slotIdx) =>
      if i < |m.slots| && CancelOrder(m.slots[i], signer, market, slotIdx).Ok?
      then m.(slots := m.slots[i := CancelOrder(m.slots[i], signer, market, slotIdx).value]) else m
    case Batch(env, sel) =>
      if |m.results.ring| == BATCH_RESULTS_CAPACITY && RunBatch(env, m.slots, m.results, sel).Ok?
      then MarketState(RunBatch(env, m.slots, m.results, sel).value.slots, RunBatch(env, m.slots, m.results, sel).value.results)
      else m
  }

  ghost function After(hs: Hashes, m: MarketState, actions: seq<Action>): MarketState {
    if actions == [] then m
    else Next(hs, After(hs, m, actions[..|actions| - 1]), actions[|actions| - 1])
  }

  /** The slot invariant holds after any sequence of instructions. */
  lemma {:induction false} SlotMachineInvariant(hs: Hashes, m: MarketState, actions: seq<Action>)
    requires SlotsOk(m.slots) && forall i :: 0 <= i < |actions| ==> WellFormed(actions[i])
    ensures SlotsOk(After(hs, m, actions).slots)
  {
    if actions != [] {
      SlotMachineInvariant(hs, m, actions[..|actions| - 1]);
      var prev := After(hs, m, actions[..|actions| - 1]);
      match actions[|actions| - 1]
      case Submit(i, args, signer, now) =>
      case Cancel(i, signer, market, slotIdx) =>
      case Batch(env, sel) =>
        if |prev.results.ring| == BATCH_RESULTS_CAPACITY && RunBatch(env, prev.slots, prev.results, sel).Ok? {
          BatchKeepsSlots(env, prev.slots, prev.results, sel);
        }
    }
  }
}
