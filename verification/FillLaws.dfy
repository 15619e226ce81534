// How often and how much an order of any type is filled in a pass, and what becomes of it.
module FillLaws {
  import opened Prelude
  import opened Orders
  import opened Auction
  import opened Matching
  import opened MatchingLaws
  import opened Collateral
  import opened Market
  import opened MarketLaws
  import opened BatchLaws

  // ---------- counting fills ----------

  /** How many matches a slot takes part in on one side. */
  function FillCount(fills: seq<Fill>, side: Side, slot: nat): nat {
    if fills == [] then 0
    else FillCount(fills[..|fills| - 1], side, slot) + if SlotOn(fills[|fills| - 1], side) == slot then 1 else 0
  }

  lemma FillCountGrows(fills: seq<Fill>, f: Fill, side: Side, slot: nat)
    ensures FillCount(fills + [f], side, slot) == FillCount(fills, side, slot) + if SlotOn(f, side) == slot then 1 else 0
  {
    assert (fills + [f])[..|fills + [f]| - 1] == fills;
  }

  lemma {:induction false} FillCountPrefix(fills: seq<Fill>, more: seq<Fill>, side: Side, slot: nat)
    requires fills <= more
    ensures FillCount(fills, side, slot) <= FillCount(more, side, slot)
    decreases |more|
  {
    if fills != more {
      FillCountPrefix(fills, more[..|more| - 1], side, slot);
    }
  }

  /** A slot filled once or more has a fill; filled twice or more it has two. */
  lemma {:induction false} FirstFill(fills: seq<Fill>, side: Side, slot: nat) returns (j: nat)
    requires FillCount(fills, side, slot) >= 1
    ensures j < |fills| && SlotOn(fills[j], side) == slot
    ensures FillCount(fills[..j], side, slot) == FillCount(fills, side, slot) - 1
  {
    var t := fills[..|fills| - 1];
    if SlotOn(fills[|fills| - 1], side) == slot {
      j := |fills| - 1;
    } else {
      j := FirstFill(t, side, slot);
      assert fills[..j] == t[..j];
    }
  }

  lemma TwoFills(fills: seq<Fill>, side: Side, slot: nat) returns (i: nat, j: nat)
    requires FillCount(fills, side, slot) >= 2
    ensures i < j < |fills| && SlotOn(fills[i], side) == SlotOn(fills[j], side) == slot
  {
    j := FirstFill(fills, side, slot);
    i := FirstFill(fills[..j], side, slot);
  }

  /** When every match moves something, unfilled and untouched are the same. */
  lemma {:induction false} CountedIsFilled(fills: seq<Fill>, side: Side, slot: nat)
    requires AllPositive(fills)
    ensures FillCount(fills, side, slot) == 0 <==> Filled(fills, side, slot) == 0
  {
    if fills != [] {
      CountedIsFilled(fills[..|fills| - 1], side, slot);
    }
  }

  lemma FilledGrows(fills: seq<Fill>, f: Fill, side: Side, slot: nat)
    ensures Filled(fills + [f], side, slot) == Filled(fills, side, slot) + if SlotOn(f, side) == slot then f.result.base else 0
  {
    assert (fills + [f])[..|fills + [f]| - 1] == fills;
  }

  /** A pass only adds to its matches. */
  lemma {:induction false} RunExtends(t: Terms, s: Pass)
    requires |s.ring| == BATCH_RESULTS_CAPACITY && Run(t, s).Ok?
    ensures s.fills <= Run(t, s).value.fills
    decreases |s.bids| + |s.asks| - s.bi - s.ai
  {
    if s.Live() {
      StepShape(t, s);
      RunExtends(t, Step(t, s).value);
    }
  }

  // ---------- quantities, for every order type ----------

  /** What is left and what was filled add up to the start; a killed order was filled nothing, an
      immediate-or-cancel order keeps its note, and the cursor has orders with something left ahead. */
  ghost predicate Measured(fills: seq<Fill>, side: Side, o: Order, start: Order, ahead: bool) {
    && o.slot == start.slot && start.orderType != TYPE_KILLED
    && (if o.orderType == TYPE_KILLED then start.orderType == TYPE_FOK && o.amount == 0 && Filled(fills, side, o.slot) == 0
        else o.orderType == start.orderType && o.amount + Filled(fills, side, o.slot) == start.amount)
    && (o.orderType == TYPE_FOK ==> o.amount == 0 || Filled(fills, side, o.slot) == 0)
    && (o.orderType == TYPE_IOC ==> o.note == start.note && o.noteAmount == start.noteAmount)
    && (ahead ==> o.amount > 0)
  }

  lemma MeasuredAfterFill(fills: seq<Fill>, f: Fill, side: Side, o: Order, o': Order, start: Order)
    requires Measured(fills, side, o, start, true) && SlotOn(f, side) == o.slot
    requires o.orderType == TYPE_FOK ==> f.result.base == o.amount
    requires f.result.base <= o.amount && o' == AfterFill(o, f.result.base, LegOn(f.result, side).change, LegOn(f.result, side).changeNote)
    ensures Measured(fills + [f], side, o', start, o'.amount > 0)
  {
    FilledGrows(fills, f, side, o.slot);
  }

  lemma MeasuredElsewhere(fills: seq<Fill>, f: Fill, side: Side, o: Order, start: Order, ahead: bool)
    requires Measured(fills, side, o, start, ahead) && SlotOn(f, side) != o.slot
    ensures Measured(fills + [f], side, o, start, ahead)
  {
    FilledGrows(fills, f, side, o.slot);
  }

  /** What a trade does at the cursor of one side. */
  lemma CrossAtCursor(t: Terms, s: Pass, side: Side)
    requires CanStep(t, s) && NextMove(t, s).Cross?
    ensures |Step(t, s).value.fills| == |s.fills| + 1 && |BookOf(Step(t, s).value, side)| == |BookOf(s, side)|
    ensures
      var s' := Step(t, s).value;
      var f := s'.fills[|s.fills|];
      var k := CursorOf(s, side);
      var o, o' := BookOf(s, side)[k], BookOf(s', side)[k];
      && s'.fills == s.fills + [f] && SlotOn(f, side) == o.slot && f.result.base <= o.amount
      && o' == AfterFill(o, f.result.base, LegOn(f.result, side).change, LegOn(f.result, side).changeNote)
      && (o.orderType == TYPE_FOK ==> f.result.base == o.amount)
      && CursorOf(s', side) == (if o'.amount == 0 then k + 1 else k)
  {
  }

  lemma StepMeasuredByTrade(t: Terms, s: Pass, side: Side, k: nat, start: Order)
    requires CanStep(t, s) && NextMove(t, s).Cross? && k < |BookOf(s, side)| && DistinctSlots(BookOf(s, side))
    requires Measured(s.fills, side, BookOf(s, side)[k], start, k >= CursorOf(s, side))
    ensures |BookOf(Step(t, s).value, side)| == |BookOf(s, side)|
    ensures Measured(Step(t, s).value.fills, side, BookOf(Step(t, s).value, side)[k], start, k >= CursorOf(Step(t, s).value, side))
  {
    CrossAtCursor(t, s, side);
    StepSide(t, s, side, k);
    var f := Step(t, s).value.fills[|s.fills|];
    if k == CursorOf(s, side) {
      MeasuredAfterFill(s.fills, f, side, BookOf(s, side)[k], BookOf(Step(t, s).value, side)[k], start);
    } else {
      MeasuredElsewhere(s.fills, f, side, BookOf(s, side)[k], start, k >= CursorOf(s, side));
    }
  }

  lemma StepMeasured(t: Terms, s: Pass, side: Side, k: nat, start: Order)
    requires CanStep(t, s) && k < |BookOf(s, side)| && DistinctSlots(BookOf(s, side))
    requires Measured(s.fills, side, BookOf(s, side)[k], start, k >= CursorOf(s, side))
    ensures |BookOf(Step(t, s).value, side)| == |BookOf(s, side)|
    ensures Measured(Step(t, s).value.fills, side, BookOf(Step(t, s).value, side)[k], start, k >= CursorOf(Step(t, s).value, side))
  {
    if NextMove(t, s).Cross? {
      StepMeasuredByTrade(t, s, side, k, start);
    } else {
      StepSide(t, s, side, k);
      StepShape(t, s);
    }
  }

  lemma {:induction false} RunMeasured(t: Terms, s: Pass, side: Side, k: nat, start: Order)
    requires |s.ring| == BATCH_RESULTS_CAPACITY && Run(t, s).Ok?
    requires k < |BookOf(s, side)| && DistinctSlots(BookOf(s, side))
    requires Measured(s.fills, side, BookOf(s, side)[k], start, k >= CursorOf(s, side))
    ensures |BookOf(Run(t, s).value, side)| == |BookOf(s, side)|
    ensures Measured(Run(t, s).value.fills, side, BookOf(Run(t, s).value, side)[k], start, false)
    decreases |s.bids| + |s.asks| - s.bi - s.ai
  {
    if s.Live() {
      StepShape(t, s);
      StepDistinct(t, s, side);
      StepMeasured(t, s, side, k, start);
      RunMeasured(t, Step(t, s).value, side, k, start);
    }
  }

  // ---------- when a fill-or-kill order is killed ----------

  /** Both orders under the cursors cross the price. */
  predicate Facing(t: Terms, s: Pass)
    requires s.Live()
  {
    s.bids[s.bi].limit >= t.price && s.asks[s.ai].limit <= t.price
  }

  function AtCursor(s: Pass, side: Side): Order
    requires s.Live()
  {
    match side
    case Bid => s.bids[s.bi]
    case Ask => s.asks[s.ai]
  }

  function Facer(s: Pass, side: Side): Order
    requires s.Live()
  {
    match side
    case Bid => s.asks[s.ai]
    case Ask => s.bids[s.bi]
  }

  /** At some point of the pass order `k`, under its cursor, faces a crossing order that is smaller. */
  ghost predicate MeetsSmaller(t: Terms, s: Pass, side: Side, k: nat)
    requires |s.ring| == BATCH_RESULTS_CAPACITY
    decreases |s.bids| + |s.asks| - s.bi - s.ai
  {
    && s.Live()
    && ((CursorOf(s, side) == k && Facing(t, s) && Facer(s, side).amount < AtCursor(s, side).amount)
        || (Step(t, s).Ok? && (StepShape(t, s); MeetsSmaller(t, Step(t, s).value, side, k))))
  }

  lemma {:induction false} PassedOrder(t: Terms, s: Pass, side: Side, k: nat)
    requires |s.ring| == BATCH_RESULTS_CAPACITY && Run(t, s).Ok? && k < |BookOf(s, side)| && k < CursorOf(s, side)
    ensures !MeetsSmaller(t, s, side, k)
    ensures |BookOf(Run(t, s).value, side)| == |BookOf(s, side)| && BookOf(Run(t, s).value, side)[k] == BookOf(s, side)[k]
    decreases |s.bids| + |s.asks| - s.bi - s.ai
  {
    if s.Live() {
      StepShape(t, s);
      StepSide(t, s, side, k);
      PassedOrder(t, Step(t, s).value, side, k);
    }
  }

  /** The kill branch is taken for the order under the cursor exactly when it faces a smaller one. */
  lemma KillsSmaller(t: Terms, s: Pass, side: Side)
    requires CanStep(t, s) && AtCursor(s, side).orderType == TYPE_FOK && AtCursor(s, side).amount > 0
    ensures |BookOf(Step(t, s).value, side)| == |BookOf(s, side)|
    ensures
      var k := CursorOf(s, side);
      var o' := BookOf(Step(t, s).value, side)[k];
      && (Facing(t, s) && Facer(s, side).amount < AtCursor(s, side).amount ==> o'.orderType == TYPE_KILLED)
      && (!(Facing(t, s) && Facer(s, side).amount < AtCursor(s, side).amount) ==>
            o'.orderType == TYPE_FOK && (o'.amount > 0 || CursorOf(Step(t, s).value, side) == k + 1))
  {
  }

  /** A fill-or-kill order is killed in a pass exactly when it meets a smaller crossing order. */
  lemma {:induction false} KilledExactlyWhen(t: Terms, s: Pass, side: Side, k: nat)
    requires |s.ring| == BATCH_RESULTS_CAPACITY && Run(t, s).Ok? && k < |BookOf(s, side)|
    requires BookOf(s, side)[k].orderType == TYPE_FOK && (k >= CursorOf(s, side) ==> BookOf(s, side)[k].amount > 0)
    ensures |BookOf(Run(t, s).value, side)| == |BookOf(s, side)|
    ensures BookOf(Run(t, s).value, side)[k].orderType == TYPE_KILLED <==> MeetsSmaller(t, s, side, k)
    decreases |s.bids| + |s.asks| - s.bi - s.ai
  {
    if k < CursorOf(s, side) {
      PassedOrder(t, s, side, k);
    } else if s.Live() {
      var s' := Step(t, s).value;
      StepShape(t, s);
      StepSide(t, s, side, k);
      if k == CursorOf(s, side) {
        KillsSmaller(t, s, side);
      }
      if BookOf(s', side)[k].orderType == TYPE_KILLED {
        RunEvolves(t, s', side, k);
      } else {
        KilledExactlyWhen(t, s', side, k);
      }
    }
  }

  // ---------- what a batch makes of a slot ----------

  /** The fill-or-kill order `k` is killed by this batch. */
  ghost predicate FacesSmaller(env: BatchEnv, s: Pass, side: Side, k: nat)
    requires |s.ring| == BATCH_RESULTS_CAPACITY
  {
    var r := ClearingPrice(s.bids, s.asks);
    r.Some? && !Deviates(r.value.0, env.twap, env.cfg.circuitBps) && MeetsSmaller(TermsOf(env, r.value.0), s, side, k)
  }

  /** The slot `p` after a batch that filled it `filled` and killed it or not. */
  predicate SlotOutcome(p: PendingOrder, q: PendingOrder, filled: nat, killed: bool) {
    && filled <= p.amount
    && (q.status == STATUS_MATCHED <==> filled == p.amount)
    && (q.status == STATUS_MATCHED ==>
          q == p.(status := STATUS_MATCHED, filled := p.total, amount := 0, limit := 0, minFill := 0, noteAmount := 0,
                  note := 0, owner := 0, orderId := 0))
    && (q.status == STATUS_CANCELLED <==> killed || (p.orderType == TYPE_IOC && 0 < filled < p.amount))
    && (killed ==> q == p.(status := STATUS_CANCELLED, amount := 0, note := 0))
    && (p.orderType == TYPE_IOC && 0 < filled < p.amount ==>
          q == p.(status := STATUS_CANCELLED, filled := SatAdd(p.filled, filled), amount := 0, note := 0, noteAmount := q.noteAmount))
    && (filled == 0 && !killed ==> q == p)
    && (p.orderType == TYPE_LIMIT && 0 < filled < p.amount ==>
          q == p.(filled := SatAdd(p.filled, filled), amount := p.amount - filled, note := q.note, noteAmount := q.noteAmount))
    && (p.orderType == TYPE_FOK ==> filled == 0 || filled == p.amount)
    && (killed ==> filled == 0)
  }

  lemma OutcomeOfCopy(p: PendingOrder, slot: nat, o: Order, fills: seq<Fill>, side: Side)
    requires p.Pending() && p.amount > 0
    requires p.orderType == TYPE_LIMIT || p.orderType == TYPE_IOC || p.orderType == TYPE_FOK
    requires Measured(fills, side, o, Snapshot(p, slot), false) && Evolved(Snapshot(p, slot), o)
    ensures SlotOutcome(p, ApplyOrder(p, o), Filled(fills, side, slot), o.orderType == TYPE_KILLED)
  {
  }

  lemma ClearMeasured(env: BatchEnv, s: Pass, side: Side, k: nat)
    requires Start(s) && Clear(env, s).Ok? && k < |BookOf(s, side)| && DistinctSlots(BookOf(s, side))
    requires BookOf(s, side)[k].orderType != TYPE_KILLED && BookOf(s, side)[k].amount > 0
    ensures |BookOf(Clear(env, s).value.pass, side)| == |BookOf(s, side)|
    ensures Measured(Clear(env, s).value.pass.fills, side, BookOf(Clear(env, s).value.pass, side)[k], BookOf(s, side)[k], false)
    ensures BookOf(Clear(env, s).value.pass, side)[k].orderType == TYPE_KILLED <==>
      BookOf(s, side)[k].orderType == TYPE_FOK && FacesSmaller(env, s, side, k)
  {
    var r := ClearingPrice(s.bids, s.asks);
    if r.Some? && !Deviates(r.value.0, env.twap, env.cfg.circuitBps) {
      var t := TermsOf(env, r.value.0);
      RunMeasured(t, s, side, k, BookOf(s, side)[k]);
      if BookOf(s, side)[k].orderType == TYPE_FOK {
        KilledExactlyWhen(t, s, side, k);
      }
    }
  }

  /** What becomes of an order of any type in a batch, read off the batch's fills: it ends Matched
      exactly when they add up to its amount; Cancelled exactly when it is immediate-or-cancel and
      filled in part, or fill-or-kill and met a smaller crossing order under the cursor; otherwise it
      rests, unchanged if unfilled, and reduced by its fills if it is a limit order. */
  lemma BatchOutcome(env: BatchEnv, slots: seq<PendingOrder>, br: BatchResults, sel: seq<nat>, side: Side, k: nat)
    requires BatchRuns(env, slots, br, sel) && SlotsOk(slots)
    requires k < |BookOf(FirstPass(env, slots, br, sel), side)|
    ensures
      var s := FirstPass(env, slots, br, sel);
      var o := RunBatch(env, slots, br, sel).value;
      var i := BookOf(s, side)[k].slot;
      && i < |slots| == |o.slots| && Eligible(env, slots[i]) && i in sel
      && SlotOutcome(slots[i], o.slots[i], Filled(o.fills, side, i), slots[i].orderType == TYPE_FOK && FacesSmaller(env, s, side, k))
  {
    var s := FirstPass(env, slots, br, sel);
    StartBooks(env, slots, br, sel);
    BatchTouches(env, slots, br, sel, side, k);
    BatchSlots(env, slots, br, sel);
    var i := BookOf(s, side)[k].slot;
    assert SlotOk(slots[i]);
    ClearMeasured(env, s, side, k);
    OutcomeOfCopy(slots[i], i, BookOf(FinalPass(env, slots, br, sel), side)[k], FinalPass(env, slots, br, sel).fills, side);
  }
}
