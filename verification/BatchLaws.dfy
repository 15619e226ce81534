// The laws of whole batches and of runs of batches: no abort, the optimum, idleness, an order's
// life, and the ring of results.
module BatchLaws {
  import opened Prelude
  import opened Crypto
  import opened Orders
  import opened Auction
  import opened Matching
  import opened MatchingLaws
  import opened Collateral
  import opened Market
  import opened MarketLaws

  // ---------- no abort ----------

  function SideOf(p: PendingOrder): Side {
    if p.side == SIDE_BID then Bid else Ask
  }

  /** A resting order whose note covers it at its limit with the floored fee. */
  predicate SlotFunded(p: PendingOrder, rate: uint16) {
    p.Pending() ==> Funded(SideOf(p), Snapshot(p, 0), rate)
  }

  ghost predicate SlotsFunded(slots: seq<PendingOrder>, rate: uint16) {
    forall i :: 0 <= i < |slots| ==> SlotFunded(slots[i], rate)
  }

  /** At fee rate zero the collateral check of `submit_order` is the funding condition. */
  lemma SubmitFundsAtZeroRate(hs: Hashes, p: PendingOrder, a: SubmitArgs, signer: Digest, now: uint64)
    requires SubmitOrder(hs, p, a, signer, now).Ok?
    ensures SlotFunded(SubmitOrder(hs, p, a, signer, now).value, 0)
  {
    assert FlooredFee(Gross(if a.side == SIDE_BID then Bid else Ask, a.amount, a.limit), 0) == 0;
  }

  lemma StartFunded(env: BatchEnv, slots: seq<PendingOrder>, br: BatchResults, sel: seq<nat>)
    requires NoDuplicates(sel) && Collect(env, slots, sel, |sel|).Ok? && SlotsFunded(slots, env.feeRate)
    ensures AllFunded(Bid, FirstPass(env, slots, br, sel).bids, env.feeRate)
    ensures AllFunded(Ask, FirstPass(env, slots, br, sel).asks, env.feeRate)
  {
    var s := FirstPass(env, slots, br, sel);
    StartBooks(env, slots, br, sel);
    forall k | 0 <= k < |s.bids| ensures Funded(Bid, s.bids[k], env.feeRate) {
      assert IsSnapshotOf(env, slots, sel, Bid, s.bids[k]);
      assert SlotFunded(slots[s.bids[k].slot], env.feeRate);
    }
    forall k | 0 <= k < |s.asks| ensures Funded(Ask, s.asks[k], env.feeRate) {
      assert IsSnapshotOf(env, slots, sel, Ask, s.asks[k]);
      assert SlotFunded(slots[s.asks[k].slot], env.feeRate);
    }
  }

  lemma ClearFunded(env: BatchEnv, s: Pass)
    requires |s.ring| == BATCH_RESULTS_CAPACITY
    requires AllFunded(Bid, s.bids, env.feeRate) && AllFunded(Ask, s.asks, env.feeRate)
    ensures Clear(env, s).Err? ==> Clear(env, s).error == PoseidonFailed
    ensures OwnersInField(s.bids) && OwnersInField(s.asks) ==> Clear(env, s).Ok?
    ensures Clear(env, s).Ok? ==> AllFunded(Bid, Clear(env, s).value.pass.bids, env.feeRate)
    ensures Clear(env, s).Ok? ==> AllFunded(Ask, Clear(env, s).value.pass.asks, env.feeRate)
  {
    var r := ClearingPrice(s.bids, s.asks);
    if r.Some? && !Deviates(r.value.0, env.twap, env.cfg.circuitBps) {
      FundedRun(TermsOf(env, r.value.0), s);
    }
  }

  lemma {:induction false} CollectErrors(env: BatchEnv, slots: seq<PendingOrder>, sel: seq<nat>, k: nat)
    requires k <= |sel| && Collect(env, slots, sel, k).Err?
    ensures Collect(env, slots, sel, k).error == PendingOrderInvalidOwner || Collect(env, slots, sel, k).error == MarketMismatch
  {
    if Collect(env, slots, sel, k - 1).Err? {
      CollectErrors(env, slots, sel, k - 1);
    }
  }

  predicate IsArithmeticAbort(e: MatchingError) {
    e == NotionalOverflow || e == FeeOverflow || e == ConservationViolation
  }

  lemma GuardErrors(env: BatchEnv, sel: seq<nat>)
    ensures Guard(env, sel).Some? ==> !IsArithmeticAbort(Guard(env, sel).value)
  {
  }

  lemma FlushErrors(env: BatchEnv, r: BatchResults)
    ensures FlushFees(env, r).Err? ==> FlushFees(env, r).error == PoseidonFailed
  {
  }

  /** A batch over funded slots never aborts on an overflow or on conservation. */
  lemma FundedBatchNeverOverflows(env: BatchEnv, slots: seq<PendingOrder>, br: BatchResults, sel: seq<nat>)
    requires |br.ring| == BATCH_RESULTS_CAPACITY && NoDuplicates(sel) && SlotsFunded(slots, env.feeRate)
    ensures RunBatch(env, slots, br, sel).Err? ==> !IsArithmeticAbort(RunBatch(env, slots, br, sel).error)
  {
    GuardErrors(env, sel);
    if Collect(env, slots, sel, |sel|).Err? {
      CollectErrors(env, slots, sel, |sel|);
    } else {
      var s := FirstPass(env, slots, br, sel);
      StartFunded(env, slots, br, sel);
      ClearFunded(env, s);
      if Clear(env, s).Ok? {
        FlushErrors(env, Publish(env, br, Clear(env, s).value, Collect(env, slots, sel, |sel|).value.inclusion));
      }
    }
  }

  lemma ApplyKeepsFunded(p: PendingOrder, o: Order, rate: uint16)
    requires p.Pending() && SlotFunded(p, rate) && Evolved(Snapshot(p, o.slot), o) && Funded(SideOf(p), o, rate)
    ensures SlotFunded(ApplyOrder(p, o), rate)
  {
  }

  /** What a batch leaves resting is still funded, so the next batch is as safe as the first. */
  lemma BatchKeepsFunded(env: BatchEnv, slots: seq<PendingOrder>, br: BatchResults, sel: seq<nat>)
    requires BatchRuns(env, slots, br, sel) && SlotsFunded(slots, env.feeRate)
    ensures |RunBatch(env, slots, br, sel).value.slots| == |slots|
    ensures SlotsFunded(RunBatch(env, slots, br, sel).value.slots, env.feeRate)
  {
    var after := RunBatch(env, slots, br, sel).value.slots;
    BatchSlots(env, slots, br, sel);
    StartFunded(env, slots, br, sel);
    ClearFunded(env, FirstPass(env, slots, br, sel));
    forall i | 0 <= i < |slots| ensures SlotFunded(after[i], env.feeRate) {
      var side, k := FindCopy(FirstPass(env, slots, br, sel), i);
      if k.Some? {
        BatchTouches(env, slots, br, sel, side, k.value);
        ApplyKeepsFunded(slots[i], BookOf(FinalPass(env, slots, br, sel), side)[k.value], env.feeRate);
      } else {
        BatchLeaves(env, slots, br, sel, i);
      }
    }
  }

  /** Actions at one fee rate that only submit funded orders. */
  ghost predicate FundedAction(hs: Hashes, a: Action, rate: uint16) {
    && WellFormed(a)
    && (a.Batch? ==> a.env.feeRate == rate)
    && (a.Submit? ==> forall p: PendingOrder :: SubmitOrder(hs, p, a.args, a.signer, a.now).Ok? ==>
          SlotFunded(SubmitOrder(hs, p, a.args, a.signer, a.now).value, rate))
  }

  /** Funding survives any number of batches, submissions and cancellations at one fee rate. */
  lemma {:induction false} FundedForever(hs: Hashes, m: MarketState, actions: seq<Action>, rate: uint16)
    requires SlotsFunded(m.slots, rate) && forall i :: 0 <= i < |actions| ==> FundedAction(hs, actions[i], rate)
    ensures SlotsFunded(After(hs, m, actions).slots, rate)
  {
    if actions != [] {
      FundedForever(hs, m, actions[..|actions| - 1], rate);
      var prev := After(hs, m, actions[..|actions| - 1]);
      var a := actions[|actions| - 1];
      assert FundedAction(hs, a, rate);
      match a
      case Submit(i, args, signer, now) =>
      case Cancel(i, signer, market, slotIdx) =>
      case Batch(env, sel) =>
        if |prev.results.ring| == BATCH_RESULTS_CAPACITY && RunBatch(env, prev.slots, prev.results, sel).Ok? {
          BatchKeepsFunded(env, prev.slots, prev.results, sel);
        }
    }
  }

  // ---------- the batch reaches the optimum over all prices ----------

  ghost predicate PlainSlots(env: BatchEnv, slots: seq<PendingOrder>, sel: seq<nat>) {
    forall i :: i in sel && i < |slots| && Eligible(env, slots[i]) ==> slots[i].orderType != TYPE_FOK && slots[i].minFill == 0
  }

  lemma StartPlain(env: BatchEnv, slots: seq<PendingOrder>, br: BatchResults, sel: seq<nat>)
    requires NoDuplicates(sel) && Collect(env, slots, sel, |sel|).Ok? && PlainSlots(env, slots, sel)
    ensures PlainBooks(FirstPass(env, slots, br, sel))
  {
    var s := FirstPass(env, slots, br, sel);
    StartBooks(env, slots, br, sel);
    forall k | 0 <= k < |s.bids| ensures s.bids[k].orderType != TYPE_FOK && s.bids[k].minFill == 0 {
      assert IsSnapshotOf(env, slots, sel, Bid, s.bids[k]);
    }
    forall k | 0 <= k < |s.asks| ensures s.asks[k].orderType != TYPE_FOK && s.asks[k].minFill == 0 {
      assert IsSnapshotOf(env, slots, sel, Ask, s.asks[k]);
    }
  }

  /** No sum of order sizes saturates. */
  ghost predicate NoSaturation(s: Pass) {
    forall q: uint64 :: Volume(Bid, s.bids, q) <= U64_MAX && Volume(Ask, s.asks, q) <= U64_MAX
  }

  /** What a batch matches, when the breaker does not trip, is the most any uniform price could
      have matched. */
  lemma BatchMatchesOptimum(env: BatchEnv, s: Pass, q: uint64)
    requires Start(s) && PlainBooks(s) && NoSaturation(s)
    requires Clear(env, s).Ok? && !Clear(env, s).value.tripped
    ensures Min(Volume(Bid, s.bids, q), Volume(Ask, s.asks, q)) <= Traded(Clear(env, s).value.pass.fills)
  {
    ClearingPriceOptimal(s.bids, s.asks);
    SatVolumeClamps(Bid, s.bids, q);
    SatVolumeClamps(Ask, s.asks, q);
    assert Matched(s.bids, s.asks, q) == Min(Volume(Bid, s.bids, q), Volume(Ask, s.asks, q));
    var r := ClearingPrice(s.bids, s.asks);
    if r.Some? {
      var p := r.value.0;
      SatVolumeClamps(Bid, s.bids, p);
      SatVolumeClamps(Ask, s.asks, p);
      GreedyReachesVolume(TermsOf(env, p), s);
    }
  }

  // ---------- a second batch finds nothing ----------

  /** Without a clearing price no bid reaches an ask. */
  lemma NoPriceUncrossed(bids: seq<Order>, asks: seq<Order>, i: nat, j: nat)
    requires ClearingPrice(bids, asks).None? && i < |bids| && j < |asks|
    requires bids[i].amount > 0 && asks[j].amount > 0
    ensures bids[i].limit < asks[j].limit
  {
    ClearingPriceOptimal(bids, asks);
    if bids[i].limit >= asks[j].limit {
      var q := asks[j].limit;
      SatVolumeClamps(Bid, bids, q);
      SatVolumeClamps(Ask, asks, q);
      VolumeHolds(Bid, bids, q, i);
      VolumeHolds(Ask, asks, q, j);
      var m := Matched(bids, asks, q);
    }
  }

  /** Books without a crossing pair have no clearing price. */
  lemma UncrossedNoPrice(bids: seq<Order>, asks: seq<Order>)
    requires forall i, j :: 0 <= i < |bids| && 0 <= j < |asks| ==> bids[i].limit < asks[j].limit
    ensures ClearingPrice(bids, asks).None?
  {
    ClearingPriceOptimal(bids, asks);
    if ClearingPrice(bids, asks).Some? {
      var p := ClearingPrice(bids, asks).value.0;
      PositiveVolumeCrosses(Bid, bids, p);
      PositiveVolumeCrosses(Ask, asks, p);
    }
  }

  /** After clearing, what is left of any bid is strictly below what is left of any ask. */
  lemma ClearUncrosses(env: BatchEnv, s: Pass, i: nat, j: nat)
    requires Start(s) && PlainBooks(s) && NoSaturation(s) && Sorted(Bid, s.bids) && Sorted(Ask, s.asks)
    requires Clear(env, s).Ok? && !Clear(env, s).value.tripped
    requires i < |s.bids| && j < |s.asks|
    requires
      var f := Clear(env, s).value.pass;
      |f.bids| == |s.bids| && |f.asks| == |s.asks| && f.bids[i].amount > 0 && f.asks[j].amount > 0
    ensures s.bids[i].limit < s.asks[j].limit
  {
    var r := ClearingPrice(s.bids, s.asks);
    if r.None? {
      NoPriceUncrossed(s.bids, s.asks, i, j);
    } else {
      ResidualUncrossed(TermsOf(env, r.value.0), s, i, j);
    }
  }

  lemma {:induction false} CollectComplete(env: BatchEnv, slots: seq<PendingOrder>, sel: seq<nat>, k: nat, at: nat, side: Side)
    requires at < k <= |sel| && Collect(env, slots, sel, k).Ok? && NoDuplicates(sel)
    requires sel[at] < |slots| && Eligible(env, slots[sel[at]]) && slots[sel[at]].side == SideCode(side)
    ensures Snapshot(slots[sel[at]], sel[at]) in Listed(Collect(env, slots, sel, k).value, side)
  {
    CollectFacts(env, slots, sel, k - 1);
    if at < k - 1 {
      CollectComplete(env, slots, sel, k - 1, at, side);
    } else {
      assert sel[at] !in sel[..k - 1];
    }
  }

  /** A slot that can take part in a later batch was, in the earlier one, a copy with something left. */
  lemma LeftoverSlot(env: BatchEnv, env': BatchEnv, slots: seq<PendingOrder>, br: BatchResults, sel: seq<nat>, side: Side, i: nat)
      returns (k: nat)
    requires BatchRuns(env, slots, br, sel) && i < |slots| && i in sel
    requires env'.now >= env.now && env'.cfg.minOrderSize == env.cfg.minOrderSize
    requires |RunBatch(env, slots, br, sel).value.slots| == |slots|
    requires Eligible(env', RunBatch(env, slots, br, sel).value.slots[i])
    requires RunBatch(env, slots, br, sel).value.slots[i].side == SideCode(side)
    ensures
      var s, f := FirstPass(env, slots, br, sel), FinalPass(env, slots, br, sel);
      && k < |BookOf(s, side)| && |BookOf(f, side)| == |BookOf(s, side)|
      && BookOf(s, side)[k].slot == i && BookOf(f, side)[k].amount > 0
      && RunBatch(env, slots, br, sel).value.slots[i].limit == BookOf(s, side)[k].limit
  {
    var s := FirstPass(env, slots, br, sel);
    var side', k' := FindCopy(s, i);
    if k'.Some? {
      BatchTouches(env, slots, br, sel, side', k'.value);
      k := k'.value;
    } else {
      BatchLeaves(env, slots, br, sel, i);
      var at :| 0 <= at < |sel| && sel[at] == i;
      CollectComplete(env, slots, sel, |sel|, at, side);
      SortMembers(side, Listed(Collect(env, slots, sel, |sel|).value, side));
      assert false;
    }
  }

  /** Repeating the batch at once, or later with the same size floor, matches nothing. */
  lemma SecondBatchIdle(env: BatchEnv, env': BatchEnv, slots: seq<PendingOrder>, br: BatchResults, sel: seq<nat>)
    requires BatchRuns(env, slots, br, sel) && PlainSlots(env, slots, sel)
    requires NoSaturation(FirstPass(env, slots, br, sel))
    requires !RunBatch(env, slots, br, sel).value.results.tripped
    requires env'.now >= env.now && env'.cfg.minOrderSize == env.cfg.minOrderSize
    requires
      var o := RunBatch(env, slots, br, sel).value;
      |o.results.ring| == BATCH_RESULTS_CAPACITY && RunBatch(env', o.slots, o.results, sel).Ok?
    ensures
      var o := RunBatch(env, slots, br, sel).value;
      RunBatch(env', o.slots, o.results, sel).value.fills == []
  {
    var o := RunBatch(env, slots, br, sel).value;
    BatchSlots(env, slots, br, sel);
    BatchAccount(env, slots, br, sel);
    var next := FirstPass(env', o.slots, o.results, sel);
    StartBooks(env', o.slots, o.results, sel);
    forall i, j | 0 <= i < |next.bids| && 0 <= j < |next.asks|
      ensures next.bids[i].limit < next.asks[j].limit
    {
      assert IsSnapshotOf(env', o.slots, sel, Bid, next.bids[i]);
      assert IsSnapshotOf(env', o.slots, sel, Ask, next.asks[j]);
      var bk := LeftoverSlot(env, env', slots, br, sel, Bid, next.bids[i].slot);
      var ak := LeftoverSlot(env, env', slots, br, sel, Ask, next.asks[j].slot);
      StartInOrder(env, slots, br, sel);
      StartPlain(env, slots, br, sel);
      ClearUncrosses(env, FirstPass(env, slots, br, sel), bk, ak);
    }
    UncrossedNoPrice(next.bids, next.asks);
    BatchSlots(env', o.slots, o.results, sel);
  }

  lemma StartInOrder(env: BatchEnv, slots: seq<PendingOrder>, br: BatchResults, sel: seq<nat>)
    requires Collect(env, slots, sel, |sel|).Ok?
    ensures Sorted(Bid, FirstPass(env, slots, br, sel).bids) && Sorted(Ask, FirstPass(env, slots, br, sel).asks)
  {
    SortSorts(Bid, Collect(env, slots, sel, |sel|).value.bids);
    SortSorts(Ask, Collect(env, slots, sel, |sel|).value.asks);
  }

  lemma FlushFacts(env: BatchEnv, r: BatchResults)
    requires FlushFees(env, r).Ok?
    ensures
      var r' := FlushFees(env, r).value;
      r' == r.(baseFees := r'.baseFees, quoteFees := r'.quoteFees)
  {
  }

  /** The batch account a successful batch leaves: ring, counters and breaker flag are the pass's. */
  lemma BatchAccount(env: BatchEnv, slots: seq<PendingOrder>, br: BatchResults, sel: seq<nat>)
    requires BatchRuns(env, slots, br, sel)
    ensures
      var r := RunBatch(env, slots, br, sel).value.results;
      var f := FinalPass(env, slots, br, sel);
      && r.tripped == Clear(env, FirstPass(env, slots, br, sel)).value.tripped
      && r.ring == f.ring && r.cursor == f.cursor && r.nextId == f.nextId && r.matchCount == |f.fills|
  {
    var c := Collect(env, slots, sel, |sel|).value;
    var cleared := Clear(env, StartPass(c, br)).value;
    FlushFacts(env, Publish(env, br, cleared, c.inclusion));
  }

  // ---------- the life of one order ----------

  /** Where an order stands after the log `fills`: while it rests, its slot holds what its chain left
      and the rest of its size; once matched, its fills add up to its size. */
  ghost predicate OrderLife(p: PendingOrder, slot: nat, start: PendingOrder, fills: seq<Fill>) {
    var side := SideOf(start);
    var first := Holding(start.note, start.noteAmount);
    && (p.Pending() ==>
          && p.side == start.side && p.limit == start.limit && p.orderType == start.orderType
          && Holding(p.note, p.noteAmount) == HoldingAfter(fills, side, slot, first)
          && p.amount + Filled(fills, side, slot) == start.amount)
    && (p.Pending() && p.orderType == TYPE_FOK ==> Filled(fills, side, slot) == 0)
    && (p.status == STATUS_MATCHED ==> Filled(fills, side, slot) == start.amount)
  }

  lemma {:induction false} NoFillsElsewhere(fills: seq<Fill>, side: Side, slot: nat, first: Holding)
    requires forall k :: 0 <= k < |fills| ==> SlotOn(fills[k], side) != slot
    ensures Chain(fills, side, slot, first)
    ensures HoldingAfter(fills, side, slot, first) == first && Filled(fills, side, slot) == 0
  {
    if fills != [] {
      NoFillsElsewhere(fills[..|fills| - 1], side, slot, first);
    }
  }

  /** Every fill of a pass names two orders of its books. */
  lemma {:induction false} RunFillSlots(t: Terms, s: Pass, side: Side, slot: nat)
    requires |s.ring| == BATCH_RESULTS_CAPACITY && Run(t, s).Ok?
    requires forall k :: 0 <= k < |BookOf(s, side)| ==> BookOf(s, side)[k].slot != slot
    requires forall k :: 0 <= k < |s.fills| ==> SlotOn(s.fills[k], side) != slot
    ensures forall k :: 0 <= k < |Run(t, s).value.fills| ==> SlotOn(Run(t, s).value.fills[k], side) != slot
    decreases |s.bids| + |s.asks| - s.bi - s.ai
  {
    if s.Live() {
      var s' := Step(t, s).value;
      StepShape(t, s);
      forall k | 0 <= k < |BookOf(s', side)| ensures BookOf(s', side)[k].slot != slot {
        StepSide(t, s, side, CursorOf(s, side));
        StepEvolves(t, s, side, k);
      }
      StepFillSlot(t, s, side, slot);
      RunFillSlots(t, s', side, slot);
    }
  }

  lemma StepFillSlot(t: Terms, s: Pass, side: Side, slot: nat)
    requires CanStep(t, s)
    requires BookOf(s, side)[CursorOf(s, side)].slot != slot
    requires forall k :: 0 <= k < |s.fills| ==> SlotOn(s.fills[k], side) != slot
    ensures forall k :: 0 <= k < |Step(t, s).value.fills| ==> SlotOn(Step(t, s).value.fills[k], side) != slot
  {
    StepShape(t, s);
    if NextMove(t, s).Cross? {
      var f := Step(t, s).value.fills[|s.fills|];
      assert SlotOn(f, side) == BookOf(s, side)[CursorOf(s, side)].slot;
    }
  }

  /** In one batch a funded limit or fill-or-kill order's fills chain from its slot's holding. */
  lemma ClearLife(env: BatchEnv, s: Pass, side: Side, k: nat)
    requires Start(s) && Clear(env, s).Ok?
    requires k < |BookOf(s, side)| && DistinctSlots(BookOf(s, side))
    requires
      var o := BookOf(s, side)[k];
      Funded(side, o, env.feeRate) && o.limit > 0 && o.amount > 0 && (o.orderType == TYPE_LIMIT || o.orderType == TYPE_FOK)
    ensures |BookOf(Clear(env, s).value.pass, side)| == |BookOf(s, side)|
    ensures Backed(Clear(env, s).value.pass.fills, side, BookOf(Clear(env, s).value.pass, side)[k], BookOf(s, side)[k])
  {
    var r := ClearingPrice(s.bids, s.asks);
    if r.Some? && !Deviates(r.value.0, env.twap, env.cfg.circuitBps) {
      RunBacked(TermsOf(env, r.value.0), s, side, k, BookOf(s, side)[k]);
    }
  }

  lemma ClearElsewhere(env: BatchEnv, s: Pass, side: Side, slot: nat, first: Holding)
    requires Start(s) && Clear(env, s).Ok?
    requires forall k :: 0 <= k < |BookOf(s, side)| ==> BookOf(s, side)[k].slot != slot
    ensures Chain(Clear(env, s).value.pass.fills, side, slot, first)
    ensures HoldingAfter(Clear(env, s).value.pass.fills, side, slot, first) == first
    ensures Filled(Clear(env, s).value.pass.fills, side, slot) == 0
  {
    var r := ClearingPrice(s.bids, s.asks);
    if r.Some? && !Deviates(r.value.0, env.twap, env.cfg.circuitBps) {
      RunFillSlots(TermsOf(env, r.value.0), s, side, slot);
    }
    NoFillsElsewhere(Clear(env, s).value.pass.fills, side, slot, first);
  }

  ghost predicate AllPositive(fills: seq<Fill>) {
    forall k :: 0 <= k < |fills| ==> fills[k].result.base > 0
  }

  /** Everything from the cursors on has something to trade. */
  ghost predicate LiveAhead(s: Pass) {
    && (forall k :: s.bi <= k < |s.bids| ==> s.bids[k].amount > 0)
    && (forall k :: s.ai <= k < |s.asks| ==> s.asks[k].amount > 0)
  }

  lemma StepPositive(t: Terms, s: Pass)
    requires CanStep(t, s) && LiveAhead(s) && AllPositive(s.fills)
    ensures LiveAhead(Step(t, s).value) && AllPositive(Step(t, s).value.fills)
  {
    StepShape(t, s);
  }

  lemma {:induction false} RunPositive(t: Terms, s: Pass)
    requires |s.ring| == BATCH_RESULTS_CAPACITY && Run(t, s).Ok? && LiveAhead(s) && AllPositive(s.fills)
    ensures AllPositive(Run(t, s).value.fills)
    decreases |s.bids| + |s.asks| - s.bi - s.ai
  {
    if s.Live() {
      StepShape(t, s);
      StepPositive(t, s);
      RunPositive(t, Step(t, s).value);
    }
  }

  /** Every match of a batch over sound slots moves something. */
  lemma BatchPositive(env: BatchEnv, slots: seq<PendingOrder>, br: BatchResults, sel: seq<nat>)
    requires BatchRuns(env, slots, br, sel) && SlotsOk(slots)
    ensures AllPositive(FinalPass(env, slots, br, sel).fills)
  {
    var s := FirstPass(env, slots, br, sel);
    StartBooks(env, slots, br, sel);
    forall k | 0 <= k < |s.bids| ensures s.bids[k].amount > 0 {
      assert IsSnapshotOf(env, slots, sel, Bid, s.bids[k]);
    }
    forall k | 0 <= k < |s.asks| ensures s.asks[k].amount > 0 {
      assert IsSnapshotOf(env, slots, sel, Ask, s.asks[k]);
    }
    var r := ClearingPrice(s.bids, s.asks);
    if r.Some? && !Deviates(r.value.0, env.twap, env.cfg.circuitBps) {
      RunPositive(TermsOf(env, r.value.0), s);
    }
  }

  lemma {:induction false} NothingFilled(fills: seq<Fill>, side: Side, slot: nat, first: Holding)
    requires AllPositive(fills) && Filled(fills, side, slot) == 0
    ensures HoldingAfter(fills, side, slot, first) == first
  {
    if fills != [] {
      NothingFilled(fills[..|fills| - 1], side, slot, first);
    }
  }

  /** How `apply_slot_updates` reads the end of a pass off the working copy. */
  lemma ApplyLife(p: PendingOrder, slot: nat, o: Order, start: PendingOrder, log: seq<Fill>, more: seq<Fill>)
    requires p.Pending() && SlotOk(p) && (p.orderType == TYPE_LIMIT || p.orderType == TYPE_FOK)
    requires OrderLife(p, slot, start, log)
    requires Evolved(Snapshot(p, slot), o) && Backed(more, SideOf(start), o, Snapshot(p, slot))
    requires AllPositive(more)
    ensures OrderLife(ApplyOrder(p, o), slot, start, log + more)
    ensures SlotOk(ApplyOrder(p, o))
  {
    var side := SideOf(start);
    LogAppends(log, more, side, slot, Holding(start.note, start.noteAmount));
    if o.amount == p.amount {
      NothingFilled(more, side, slot, Holding(p.note, p.noteAmount));
    }
  }

  /** One batch extends the life of the order in slot `i`. */
  lemma BatchLife(env: BatchEnv, slots: seq<PendingOrder>, br: BatchResults, sel: seq<nat>, i: nat, start: PendingOrder, log: seq<Fill>)
    requires BatchRuns(env, slots, br, sel) && i < |slots|
    requires start.side == SIDE_BID || start.side == SIDE_ASK
    requires start.orderType == TYPE_LIMIT || start.orderType == TYPE_FOK
    requires SlotsOk(slots) && SlotFunded(slots[i], env.feeRate)
    requires OrderLife(slots[i], i, start, log)
    requires Chain(log, SideOf(start), i, Holding(start.note, start.noteAmount))
    ensures
      var o := RunBatch(env, slots, br, sel).value;
      && |o.slots| == |slots|
      && OrderLife(o.slots[i], i, start, log + o.fills)
      && Chain(log + o.fills, SideOf(start), i, Holding(start.note, start.noteAmount))
  {
    var side := SideOf(start);
    var first := Holding(start.note, start.noteAmount);
    var s := FirstPass(env, slots, br, sel);
    var f := FinalPass(env, slots, br, sel);
    BatchSlots(env, slots, br, sel);
    StartBooks(env, slots, br, sel);
    BatchPositive(env, slots, br, sel);
    var at, k := FindCopy(s, i);
    if k.Some? {
      BatchTouches(env, slots, br, sel, at, k.value);
      ClearLife(env, s, side, k.value);
      ApplyLife(slots[i], i, BookOf(f, side)[k.value], start, log, f.fills);
    } else {
      BatchLeaves(env, slots, br, sel, i);
      ClearElsewhere(env, s, side, i, HoldingAfter(log, side, i, first));
      LogAppends(log, f.fills, side, i, first);
    }
    ChainAppends(log, f.fills, side, i, first);
  }

  /** The matches of all successful batches, in the order they were made. */
  ghost function LogOf(hs: Hashes, m: MarketState, actions: seq<Action>): seq<Fill> {
    if actions == [] then []
    else
      var prev := After(hs, m, actions[..|actions| - 1]);
      var log := LogOf(hs, m, actions[..|actions| - 1]);
      match actions[|actions| - 1]
      case Batch(env, sel) =>
        if |prev.results.ring| == BATCH_RESULTS_CAPACITY && RunBatch(env, prev.slots, prev.results, sel).Ok?
        then log + RunBatch(env, prev.slots, prev.results, sel).value.fills else log
      case _ => log
  }

  /** The action does not resubmit or cancel the order in slot `i`. */
  predicate LeavesOrder(a: Action, i: nat) {
    (a.Submit? ==> a.slot != i) && (a.Cancel? ==> a.slot != i)
  }

  lemma {:induction false} LifeOverRun(hs: Hashes, m: MarketState, actions: seq<Action>, i: nat, rate: uint16)
    requires i < |m.slots| && m.slots[i].Pending()
    requires m.slots[i].orderType == TYPE_LIMIT || m.slots[i].orderType == TYPE_FOK
    requires SlotsOk(m.slots) && SlotsFunded(m.slots, rate)
    requires forall k :: 0 <= k < |actions| ==> FundedAction(hs, actions[k], rate) && LeavesOrder(actions[k], i)
    ensures |After(hs, m, actions).slots| == |m.slots|
    ensures OrderLife(After(hs, m, actions).slots[i], i, m.slots[i], LogOf(hs, m, actions))
    ensures Chain(LogOf(hs, m, actions), SideOf(m.slots[i]), i, Holding(m.slots[i].note, m.slots[i].noteAmount))
  {
    if actions != [] {
      var done := actions[..|actions| - 1];
      var prev := After(hs, m, done);
      var a := actions[|actions| - 1];
      LifeOverRun(hs, m, done, i, rate);
      FundedForever(hs, m, done, rate);
      SlotMachineInvariant(hs, m, done);
      assert FundedAction(hs, a, rate) && LeavesOrder(a, i);
      match a
      case Submit(_, _, _, _) =>
      case Cancel(_, _, _, _) =>
      case Batch(env, sel) =>
        if |prev.results.ring| == BATCH_RESULTS_CAPACITY && RunBatch(env, prev.slots, prev.results, sel).Ok? {
          BatchLife(env, prev.slots, prev.results, sel, i, m.slots[i], LogOf(hs, m, done));
        }
    }
  }

  /** Conservation along an order's life, over any number of batches and fills: the note it was
      submitted with equals its trade legs, its fees and what its slot holds now, or, once it is
      matched, the change of its last fill; and its fills add up to its size. */
  lemma OrderLifeConserves(hs: Hashes, m: MarketState, actions: seq<Action>, i: nat, rate: uint16)
    requires i < |m.slots| && m.slots[i].Pending()
    requires m.slots[i].orderType == TYPE_LIMIT || m.slots[i].orderType == TYPE_FOK
    requires SlotsOk(m.slots) && SlotsFunded(m.slots, rate)
    requires forall k :: 0 <= k < |actions| ==> FundedAction(hs, actions[k], rate) && LeavesOrder(actions[k], i)
    ensures |After(hs, m, actions).slots| == |m.slots|
    ensures
      var p := After(hs, m, actions).slots[i];
      var log := LogOf(hs, m, actions);
      var side := SideOf(m.slots[i]);
      var last := HoldingAfter(log, side, i, Holding(m.slots[i].note, m.slots[i].noteAmount));
      && m.slots[i].noteAmount == Paid(log, side, i) + last.value
      && (p.Pending() ==> p.note == last.note && p.noteAmount == last.value && p.amount + Filled(log, side, i) == m.slots[i].amount)
      && (p.status == STATUS_MATCHED ==> Filled(log, side, i) == m.slots[i].amount)
  {
    LifeOverRun(hs, m, actions, i, rate);
    ChainConserves(LogOf(hs, m, actions), SideOf(m.slots[i]), i, Holding(m.slots[i].note, m.slots[i].noteAmount));
  }

  // ---------- the ring of results ----------

  /** A pass over `b` bids and `a` asks makes at most `a + b - 1` matches. */
  lemma {:induction false} RunCount(t: Terms, s: Pass)
    requires |s.ring| == BATCH_RESULTS_CAPACITY && Run(t, s).Ok? && s.bi <= |s.bids| && s.ai <= |s.asks|
    ensures |Run(t, s).value.fills| >= |s.fills|
    ensures s.Live() ==> |Run(t, s).value.fills| - |s.fills| <= (|s.bids| - s.bi) + (|s.asks| - s.ai) - 1
    ensures !s.Live() ==> Run(t, s).value.fills == s.fills
    decreases |s.bids| + |s.asks| - s.bi - s.ai
  {
    if s.Live() {
      StepShape(t, s);
      RunCount(t, Step(t, s).value);
    }
  }

  /** Entry `m % 16` holds match `m` for the last 16 matches, and ids count the matches. */
  ghost predicate RingHolds(ring: seq<MatchResult>, log: seq<Fill>) {
    && |ring| == BATCH_RESULTS_CAPACITY
    && (forall m :: 0 <= m < |log| ==> log[m].result.matchId == m)
    && (forall m :: 0 <= m < |log| && m >= |log| - BATCH_RESULTS_CAPACITY ==> ring[m % BATCH_RESULTS_CAPACITY] == log[m].result)
  }

  ghost predicate RingCurrent(s: Pass, log: seq<Fill>) {
    RingHolds(s.ring, log + s.fills) && s.cursor == s.nextId == |log| + |s.fills|
  }

  lemma RingAppends(ring: seq<MatchResult>, log: seq<Fill>, f: Fill)
    requires RingHolds(ring, log) && f.result.matchId == |log|
    ensures RingHolds(ring[|log| % BATCH_RESULTS_CAPACITY := f.result], log + [f])
  {
  }

  lemma {:induction false} RunRing(t: Terms, s: Pass, log: seq<Fill>)
    requires RingCurrent(s, log) && Run(t, s).Ok? && s.bi <= |s.bids| && s.ai <= |s.asks|
    requires |log| + |Run(t, s).value.fills| <= U64_MAX
    ensures RingCurrent(Run(t, s).value, log)
    decreases |s.bids| + |s.asks| - s.bi - s.ai
  {
    if s.Live() {
      StepShape(t, s);
      RunCount(t, Step(t, s).value);
      StepRing(t, s, log);
      RunRing(t, Step(t, s).value, log);
    }
  }

  lemma StepRing(t: Terms, s: Pass, log: seq<Fill>)
    requires CanStep(t, s) && RingCurrent(s, log) && |log| + |Step(t, s).value.fills| <= U64_MAX
    ensures RingCurrent(Step(t, s).value, log)
  {
    StepShape(t, s);
    if NextMove(t, s).Cross? {
      var f := Step(t, s).value.fills[|s.fills|];
      RingAppends(s.ring, log + s.fills, f);
      assert Step(t, s).value.fills == s.fills + [f];
      assert (log + s.fills) + [f] == log + (s.fills + [f]);
    }
  }

  /** The ring follows the log over a batch; with at most 17 working copies every match of the batch
      is in it. */
  lemma BatchRing(env: BatchEnv, s: Pass, log: seq<Fill>)
    requires Start(s) && RingCurrent(s, log) && Clear(env, s).Ok?
    requires |log| + |Clear(env, s).value.pass.fills| <= U64_MAX
    ensures RingCurrent(Clear(env, s).value.pass, log)
    ensures |Clear(env, s).value.pass.fills| <= Max(0, |s.bids| + |s.asks| - 1)
    ensures |s.bids| + |s.asks| <= BATCH_RESULTS_CAPACITY + 1 ==>
      forall k :: 0 <= k < |Clear(env, s).value.pass.fills| ==>
        Clear(env, s).value.pass.ring[(|log| + k) % BATCH_RESULTS_CAPACITY] == Clear(env, s).value.pass.fills[k].result
  {
    var r := ClearingPrice(s.bids, s.asks);
    var f := Clear(env, s).value.pass;
    if r.Some? && !Deviates(r.value.0, env.twap, env.cfg.circuitBps) {
      RunRing(TermsOf(env, r.value.0), s, log);
      RunCount(TermsOf(env, r.value.0), s);
    }
    if |s.bids| + |s.asks| <= BATCH_RESULTS_CAPACITY + 1 {
      forall k | 0 <= k < |f.fills| ensures f.ring[(|log| + k) % BATCH_RESULTS_CAPACITY] == f.fills[k].result {
        var m := |log| + k;
        assert (log + f.fills)[m] == f.fills[k];
      }
    }
  }
}
