// The collateral behind an order: it covers every fill, and it is handed from change note to change note.
module Collateral {
  import opened Prelude
  import opened Crypto
  import opened Orders
  import opened Matching
  import opened MatchingLaws

  // ---------- coverage ----------

  /** What an order may have to pay: quote at its limit for a bid, base for an ask. */
  function Gross(side: Side, amount: nat, limit: uint64): nat {
    match side
    case Bid => amount * limit
    case Ask => amount
  }

  function FlooredFee(x: nat, rate: uint16): nat {
    x * rate / 10_000
  }

  /** The note covers the order at its limit together with the floored fee. */
  predicate Funded(side: Side, o: Order, rate: uint16) {
    Gross(side, o.amount, o.limit) + FlooredFee(Gross(side, o.amount, o.limit), rate) <= o.noteAmount
  }

  lemma DivSuperadditive(a: nat, b: nat)
    ensures a / 10_000 + b / 10_000 <= (a + b) / 10_000
  {
  }

  lemma FeeSplits(x: nat, y: nat, z: nat, rate: uint16)
    requires x + y <= z
    ensures FlooredFee(x, rate) + FlooredFee(y, rate) <= FlooredFee(z, rate)
  {
    assert x * rate + y * rate <= z * rate by {
      assert (x + y) * rate == x * rate + y * rate;
      MulMonotone(x + y, z, rate);
    }
    DivSuperadditive(x * rate, y * rate);
    DivMonotone(x * rate + y * rate, z * rate);
  }

  lemma MulMonotone(a: nat, b: nat, c: nat)
    requires a <= b
    ensures a * c <= b * c
  {
  }

  lemma DivMonotone(a: nat, b: nat)
    requires a <= b
    ensures a / 10_000 <= b / 10_000
  {
  }

  /** The trade leg of a fill of `qty` at `price`. */
  function LegAmount(side: Side, qty: nat, price: uint64): nat {
    match side
    case Bid => qty * price
    case Ask => qty
  }

  lemma GrossSplits(side: Side, amount: nat, qty: nat, limit: uint64, price: uint64)
    requires qty <= amount && Crosses(side, limit, price)
    ensures LegAmount(side, qty, price) + Gross(side, amount - qty, limit) <= Gross(side, amount, limit)
  {
    if side.Bid? {
      assert qty * limit + (amount - qty) * limit == amount * limit;
      MulMonotone(price, limit, qty);
    }
  }

  /** A funded order can pay any fill at a price it crosses, and what is left funds the residual. */
  lemma FundedFill(side: Side, o: Order, qty: nat, price: uint64, rate: uint16)
    requires Funded(side, o, rate) && qty <= o.amount && Crosses(side, o.limit, price)
    ensures
      var x := LegAmount(side, qty, price);
      var rest := Gross(side, o.amount - qty, o.limit);
      && x + FlooredFee(x, rate) <= o.noteAmount
      && rest + FlooredFee(rest, rate) <= o.noteAmount - (x + FlooredFee(x, rate))
      && (qty < o.amount && o.limit > 0 ==> rest > 0)
  {
    var x := LegAmount(side, qty, price);
    var rest := Gross(side, o.amount - qty, o.limit);
    GrossSplits(side, o.amount, qty, o.limit, price);
    FeeSplits(x, rest, Gross(side, o.amount, o.limit), rate);
    if side.Bid? && qty < o.amount && o.limit > 0 {
      MulMonotone(1, o.amount - qty, o.limit);
    }
  }

  /** An order is funded exactly when its note can pay every fill of it, at every price it crosses. */
  lemma FundedExactly(side: Side, o: Order, rate: uint16)
    ensures Funded(side, o, rate) <==>
      forall qty: nat, price: uint64 :: qty <= o.amount && Crosses(side, o.limit, price) ==>
        LegAmount(side, qty, price) + FlooredFee(LegAmount(side, qty, price), rate) <= o.noteAmount
  {
    if Funded(side, o, rate) {
      forall qty: nat, price: uint64 | qty <= o.amount && Crosses(side, o.limit, price)
        ensures LegAmount(side, qty, price) + FlooredFee(LegAmount(side, qty, price), rate) <= o.noteAmount
      {
        FundedFill(side, o, qty, price, rate);
      }
    } else {
      assert Crosses(side, o.limit, o.limit) && LegAmount(side, o.amount, o.limit) == Gross(side, o.amount, o.limit);
    }
  }

  /** Two funded orders that cross never hit an arithmetic error; only a commitment can fail, and
      only because an owner commitment is not a field element. */
  lemma FundedTrade(t: Terms, b: Order, a: Order, id: uint64)
    requires Funded(Bid, b, t.feeRate) && Funded(Ask, a, t.feeRate)
    requires a.limit <= t.price <= b.limit
    ensures Trade(t, b, a, id).Err? ==> Trade(t, b, a, id).error == PoseidonFailed
    ensures b.owner < BN254_R && a.owner < BN254_R ==> Trade(t, b, a, id).Ok?
  {
    var qty := Min(b.amount, a.amount);
    FundedFill(Bid, b, qty, t.price, t.feeRate);
    FundedFill(Ask, a, qty, t.price, t.feeRate);
  }

  lemma FundedAfter(t: Terms, b: Order, a: Order, id: uint64, side: Side)
    requires Funded(side, if side.Bid? then b else a, t.feeRate)
    requires a.limit <= t.price <= b.limit && Trade(t, b, a, id).Ok?
    ensures
      var m := Trade(t, b, a, id).value;
      var o := if side.Bid? then b else a;
      var leg := LegOn(m, side);
      && m.base <= o.amount
      && Funded(side, AfterFill(o, m.base, leg.change, leg.changeNote), t.feeRate)
      && leg.fee == FlooredFee(Spent(m, side), t.feeRate)
      && (m.base < o.amount && o.limit > 0 ==> leg.change > 0)
  {
    var o := if side.Bid? then b else a;
    var m := Trade(t, b, a, id).value;
    TradeFacts(t, b, a, id, side);
    FundedFill(side, o, m.base, t.price, t.feeRate);
    FeeFits(Spent(m, side), t.feeRate, o.noteAmount);
    var leg := LegOn(m, side);
    if !Relocks(o, m.base, leg.change) {
      FundedLess(side, o, o.amount - m.base, t.feeRate);
    }
  }

  /** A fee that a note can pay is not truncated. */
  lemma FeeFits(x: uint64, rate: uint16, note: uint64)
    requires x + FlooredFee(x, rate) <= note
    ensures Fee(x, rate) == FlooredFee(x, rate)
  {
  }

  lemma FundedLess(side: Side, o: Order, amount: uint64, rate: uint16)
    requires Funded(side, o, rate) && amount <= o.amount
    ensures Funded(side, o.(amount := amount), rate)
  {
    if side.Bid? {
      MulMonotone(amount, o.amount, o.limit);
    }
    var x, z := Gross(side, amount, o.limit), Gross(side, o.amount, o.limit);
    FeeSplits(x, 0, z, rate);
  }

  ghost predicate AllFunded(side: Side, s: seq<Order>, rate: uint16) {
    forall i :: 0 <= i < |s| ==> Funded(side, s[i], rate)
  }

  ghost predicate OwnersInField(s: seq<Order>) {
    forall i :: 0 <= i < |s| ==> s[i].owner < BN254_R
  }

  lemma StepFundedAt(t: Terms, s: Pass, side: Side, k: nat)
    requires CanStep(t, s) && k < |BookOf(s, side)| && Funded(side, BookOf(s, side)[k], t.feeRate)
    ensures |BookOf(Step(t, s).value, side)| == |BookOf(s, side)|
    ensures Funded(side, BookOf(Step(t, s).value, side)[k], t.feeRate)
  {
    StepSide(t, s, side, k);
    if k == CursorOf(s, side) {
      FundedLess(side, BookOf(s, side)[k], 0, t.feeRate);
      if NextMove(t, s).Cross? {
        FundedAfter(t, s.bids[s.bi], s.asks[s.ai], s.nextId, side);
      }
    }
  }

  lemma StepFunded(t: Terms, s: Pass, side: Side)
    requires CanStep(t, s) && AllFunded(side, BookOf(s, side), t.feeRate)
    ensures AllFunded(side, BookOf(Step(t, s).value, side), t.feeRate)
  {
    StepSide(t, s, side, CursorOf(s, side));
    forall k | 0 <= k < |BookOf(Step(t, s).value, side)|
      ensures Funded(side, BookOf(Step(t, s).value, side)[k], t.feeRate)
    {
      StepFundedAt(t, s, side, k);
    }
  }

  lemma StepOwners(t: Terms, s: Pass, side: Side)
    requires CanStep(t, s) && OwnersInField(BookOf(s, side))
    ensures OwnersInField(BookOf(Step(t, s).value, side))
  {
    forall i | 0 <= i < |BookOf(Step(t, s).value, side)|
      ensures BookOf(Step(t, s).value, side)[i].owner < BN254_R
    {
      StepSide(t, s, side, CursorOf(s, side));
      StepEvolves(t, s, side, i);
    }
  }

  /** A pass over funded books, of any order types, never aborts on an overflow or on conservation;
      with owners in the field it never aborts at all, and every order ends funded for its residual. */
  lemma {:induction false} FundedRun(t: Terms, s: Pass)
    requires |s.ring| == BATCH_RESULTS_CAPACITY
    requires AllFunded(Bid, s.bids, t.feeRate) && AllFunded(Ask, s.asks, t.feeRate)
    ensures Run(t, s).Err? ==> Run(t, s).error == PoseidonFailed
    ensures OwnersInField(s.bids) && OwnersInField(s.asks) ==> Run(t, s).Ok?
    ensures Run(t, s).Ok? ==>
      AllFunded(Bid, Run(t, s).value.bids, t.feeRate) && AllFunded(Ask, Run(t, s).value.asks, t.feeRate)
    decreases |s.bids| + |s.asks| - s.bi - s.ai
  {
    if s.Live() {
      if NextMove(t, s).Cross? {
        FundedTrade(t, s.bids[s.bi], s.asks[s.ai], s.nextId);
      }
      if Step(t, s).Ok? {
        StepShape(t, s);
        StepFunded(t, s, Bid);
        StepFunded(t, s, Ask);
        if OwnersInField(s.bids) && OwnersInField(s.asks) {
          StepOwners(t, s, Bid);
          StepOwners(t, s, Ask);
        }
        FundedRun(t, Step(t, s).value);
      }
    }
  }

  // ---------- the chain of notes of one order ----------

  /** Everything a slot has paid on one side: trade legs and fees. */
  function Paid(fills: seq<Fill>, side: Side, slot: nat): nat {
    if fills == [] then 0
    else
      var f := fills[|fills| - 1];
      Paid(fills[..|fills| - 1], side, slot) +
      if SlotOn(f, side) == slot then Spent(f.result, side) + LegOn(f.result, side).fee else 0
  }

  /** Base units a slot has traded. */
  function Filled(fills: seq<Fill>, side: Side, slot: nat): nat {
    if fills == [] then 0
    else
      var f := fills[|fills| - 1];
      Filled(fills[..|fills| - 1], side, slot) + if SlotOn(f, side) == slot then f.result.base else 0
  }

  /** A note and its value. */
  datatype Holding = Holding(note: Digest, value: uint64)

  /** What stands behind a slot after `fills`: its first holding, then the change of its last fill. */
  function HoldingAfter(fills: seq<Fill>, side: Side, slot: nat, first: Holding): Holding {
    if fills == [] then first
    else
      var f := fills[|fills| - 1];
      if SlotOn(f, side) == slot then Holding(LegOn(f.result, side).changeNote, LegOn(f.result, side).change)
      else HoldingAfter(fills[..|fills| - 1], side, slot, first)
  }

  /** Every fill of the slot consumes exactly the holding the previous one left, and splits it
      without remainder. */
  ghost predicate Chain(fills: seq<Fill>, side: Side, slot: nat, first: Holding) {
    fills == [] ||
    var f := fills[|fills| - 1];
    var leg := LegOn(f.result, side);
    && Chain(fills[..|fills| - 1], side, slot, first)
    && (SlotOn(f, side) == slot ==>
          && Holding(leg.note, leg.noteValue) == HoldingAfter(fills[..|fills| - 1], side, slot, first)
          && leg.noteValue == Spent(f.result, side) + leg.fee + leg.change)
  }

  /** Conservation along the chain: what was put up equals trade legs, fees and the final change. */
  lemma {:induction false} ChainConserves(fills: seq<Fill>, side: Side, slot: nat, first: Holding)
    requires Chain(fills, side, slot, first)
    ensures first.value == Paid(fills, side, slot) + HoldingAfter(fills, side, slot, first).value
  {
    if fills != [] {
      ChainConserves(fills[..|fills| - 1], side, slot, first);
    }
  }

  lemma {:induction false} LogAppends(log: seq<Fill>, more: seq<Fill>, side: Side, slot: nat, first: Holding)
    ensures HoldingAfter(log + more, side, slot, first) == HoldingAfter(more, side, slot, HoldingAfter(log, side, slot, first))
    ensures Filled(log + more, side, slot) == Filled(log, side, slot) + Filled(more, side, slot)
  {
    if more == [] {
      assert log + more == log;
    } else {
      var t := more[..|more| - 1];
      LogAppends(log, t, side, slot, first);
      assert (log + more)[..|log + more| - 1] == log + t;
    }
  }

  /** Logs of successive batches chain when each starts from what the previous one left. */
  lemma {:induction false} ChainAppends(log: seq<Fill>, more: seq<Fill>, side: Side, slot: nat, first: Holding)
    requires Chain(log, side, slot, first)
    requires Chain(more, side, slot, HoldingAfter(log, side, slot, first))
    ensures Chain(log + more, side, slot, first)
  {
    if more == [] {
      assert log + more == log;
    } else {
      var t := more[..|more| - 1];
      ChainAppends(log, t, side, slot, first);
      LogAppends(log, t, side, slot, first);
      assert (log + more)[..|log + more| - 1] == log + t;
    }
  }

  // ---------- the chain holds over a pass ----------

  ghost predicate DistinctSlots(s: seq<Order>) {
    forall i, j :: 0 <= i < j < |s| ==> s[i].slot != s[j].slot
  }

  /** Order `k` is funded, of a known type, and live while the cursor has not passed it. */
  ghost predicate Steady(side: Side, s: seq<Order>, k: nat, cursor: nat, rate: uint16) {
    && k < |s| && DistinctSlots(s)
    && Funded(side, s[k], rate) && s[k].limit > 0
    && (s[k].orderType == TYPE_LIMIT || s[k].orderType == TYPE_IOC || s[k].orderType == TYPE_FOK || s[k].orderType == TYPE_KILLED)
    && (k >= cursor ==> s[k].amount > 0)
    && (s[k].orderType == TYPE_KILLED ==> s[k].amount == 0)
  }

  lemma StepDistinct(t: Terms, s: Pass, side: Side)
    requires CanStep(t, s) && DistinctSlots(BookOf(s, side))
    ensures DistinctSlots(BookOf(Step(t, s).value, side))
  {
    var now, next := BookOf(s, side), BookOf(Step(t, s).value, side);
    forall i | 0 <= i < |now| ensures |next| == |now| && next[i].slot == now[i].slot {
      StepEvolves(t, s, side, i);
    }
  }

  lemma StepSteady(t: Terms, s: Pass, side: Side, k: nat)
    requires CanStep(t, s) && Steady(side, BookOf(s, side), k, CursorOf(s, side), t.feeRate)
    ensures Steady(side, BookOf(Step(t, s).value, side), k, CursorOf(Step(t, s).value, side), t.feeRate)
  {
    StepDistinct(t, s, side);
    StepCursor(t, s, side);
    StepSide(t, s, side, k);
    StepEvolves(t, s, side, k);
    StepFundedAt(t, s, side, k);
  }

  /** The order owes its fills to its slot's chain, and while it has something left to trade it
      holds exactly what the chain left. */
  ghost predicate Backed(fills: seq<Fill>, side: Side, o: Order, start: Order) {
    var first := Holding(start.note, start.noteAmount);
    && o.slot == start.slot
    && Chain(fills, side, o.slot, first)
    && (o.amount > 0 ==> Holding(o.note, o.noteAmount) == HoldingAfter(fills, side, o.slot, first))
    && (o.orderType != TYPE_KILLED ==> o.amount + Filled(fills, side, o.slot) == start.amount)
    && (o.orderType == TYPE_KILLED ==> Filled(fills, side, o.slot) == 0)
    && (o.orderType == TYPE_FOK && o.amount > 0 ==> Filled(fills, side, o.slot) == 0)
  }

  lemma BackedByOther(fills: seq<Fill>, f: Fill, side: Side, o: Order, start: Order)
    requires Backed(fills, side, o, start) && SlotOn(f, side) != o.slot
    ensures Backed(fills + [f], side, o, start)
  {
    assert (fills + [f])[..|fills|] == fills;
  }

  lemma BackedByFill(fills: seq<Fill>, f: Fill, side: Side, o: Order, start: Order)
    requires Backed(fills, side, o, start) && SlotOn(f, side) == o.slot
    requires o.amount > 0 && f.result.base <= o.amount && o.orderType != TYPE_KILLED
    requires
      var leg := LegOn(f.result, side);
      && leg.note == o.note && leg.noteValue == o.noteAmount
      && leg.noteValue == Spent(f.result, side) + leg.fee + leg.change
      && (f.result.base < o.amount ==> leg.change > 0 && o.orderType == TYPE_LIMIT)
    ensures Backed(fills + [f], side, AfterFill(o, f.result.base, LegOn(f.result, side).change, LegOn(f.result, side).changeNote), start)
  {
    assert (fills + [f])[..|fills|] == fills;
  }

  lemma StepBacked(t: Terms, s: Pass, side: Side, k: nat, start: Order)
    requires CanStep(t, s) && k < |BookOf(s, side)|
    requires Steady(side, BookOf(s, side), k, CursorOf(s, side), t.feeRate) && BookOf(s, side)[k].orderType != TYPE_IOC
    requires Backed(s.fills, side, BookOf(s, side)[k], start)
    ensures |BookOf(Step(t, s).value, side)| == |BookOf(s, side)|
    ensures Backed(Step(t, s).value.fills, side, BookOf(Step(t, s).value, side)[k], start)
  {
    var o := BookOf(s, side)[k];
    StepSide(t, s, side, k);
    StepShape(t, s);
    if NextMove(t, s).Cross? {
      var f := Step(t, s).value.fills[|s.fills|];
      assert Step(t, s).value.fills == s.fills + [f];
      if k == CursorOf(s, side) {
        TradeFacts(t, s.bids[s.bi], s.asks[s.ai], s.nextId, side);
        FundedAfter(t, s.bids[s.bi], s.asks[s.ai], s.nextId, side);
        BackedByFill(s.fills, f, side, o, start);
      } else {
        BackedByOther(s.fills, f, side, o, start);
      }
    }
  }

  lemma {:induction false} RunBacked(t: Terms, s: Pass, side: Side, k: nat, start: Order)
    requires |s.ring| == BATCH_RESULTS_CAPACITY && Run(t, s).Ok? && k < |BookOf(s, side)|
    requires Steady(side, BookOf(s, side), k, CursorOf(s, side), t.feeRate) && BookOf(s, side)[k].orderType != TYPE_IOC
    requires Backed(s.fills, side, BookOf(s, side)[k], start)
    ensures |BookOf(Run(t, s).value, side)| == |BookOf(s, side)|
    ensures Backed(Run(t, s).value.fills, side, BookOf(Run(t, s).value, side)[k], start)
    decreases |s.bids| + |s.asks| - s.bi - s.ai
  {
    if s.Live() {
      StepShape(t, s);
      StepBacked(t, s, side, k, start);
      StepSteady(t, s, side, k);
      StepEvolves(t, s, side, k);
      RunBacked(t, Step(t, s).value, side, k, start);
    }
  }

  // ---------- fees ----------

  function FeesOn(fills: seq<Fill>, side: Side): nat {
    if fills == [] then 0 else FeesOn(fills[..|fills| - 1], side) + LegOn(fills[|fills| - 1].result, side).fee
  }

  function ConsumedOn(fills: seq<Fill>, side: Side): nat {
    if fills == [] then 0 else ConsumedOn(fills[..|fills| - 1], side) + LegOn(fills[|fills| - 1].result, side).noteValue
  }

  /** Value handed on: trade legs and change notes. */
  function MintedOn(fills: seq<Fill>, side: Side): nat {
    if fills == [] then 0
    else
      var m := fills[|fills| - 1].result;
      MintedOn(fills[..|fills| - 1], side) + Spent(m, side) + LegOn(m, side).change
  }

  function FeeAccumulator(s: Pass, side: Side): uint64 {
    match side
    case Bid => s.quoteFees
    case Ask => s.baseFees
  }

  /** The accumulator of a side holds, up to saturation, the fees of its fills, and value consumed
      on a side is value minted plus those fees. */
  ghost predicate FeesBalance(s: Pass, side: Side) {
    && FeeAccumulator(s, side) == Min(U64_MAX, FeesOn(s.fills, side))
    && ConsumedOn(s.fills, side) == MintedOn(s.fills, side) + FeesOn(s.fills, side)
  }

  lemma CrossFees(s: Pass, s': Pass, f: Fill, side: Side)
    requires s'.fills == s.fills + [f] && FeesBalance(s, side)
    requires FeeAccumulator(s', side) == SatAdd(FeeAccumulator(s, side), LegOn(f.result, side).fee)
    requires LegOn(f.result, side).noteValue == Spent(f.result, side) + LegOn(f.result, side).fee + LegOn(f.result, side).change
    ensures FeesBalance(s', side)
  {
    FeesAppend(s.fills, f, side);
  }

  lemma StepAccumulates(t: Terms, s: Pass, side: Side)
    requires CanStep(t, s) && NextMove(t, s).Cross?
    ensures Trade(t, s.bids[s.bi], s.asks[s.ai], s.nextId).Ok?
    ensures |Step(t, s).value.fills| == |s.fills| + 1
    ensures
      var s' := Step(t, s).value;
      var f := s'.fills[|s.fills|];
      && s'.fills == s.fills + [f] && f.result == MatchOf(t, s)
      && FeeAccumulator(s', side) == SatAdd(FeeAccumulator(s, side), LegOn(f.result, side).fee)
  {
  }

  lemma StepFees(t: Terms, s: Pass, side: Side)
    requires CanStep(t, s) && FeesBalance(s, side)
    ensures FeesBalance(Step(t, s).value, side)
  {
    if NextMove(t, s).Cross? {
      StepAccumulates(t, s, side);
      TradeFacts(t, s.bids[s.bi], s.asks[s.ai], s.nextId, side);
      CrossFees(s, Step(t, s).value, Step(t, s).value.fills[|s.fills|], side);
    } else {
      QuietFees(t, s, side);
    }
  }

  lemma QuietFees(t: Terms, s: Pass, side: Side)
    requires CanStep(t, s) && !NextMove(t, s).Cross? && FeesBalance(s, side)
    ensures FeesBalance(Step(t, s).value, side)
  {
    var s' := Step(t, s).value;
    assert s'.fills == s.fills && FeeAccumulator(s', side) == FeeAccumulator(s, side);
  }

  lemma FeesAppend(fills: seq<Fill>, f: Fill, side: Side)
    ensures FeesOn(fills + [f], side) == FeesOn(fills, side) + LegOn(f.result, side).fee
    ensures ConsumedOn(fills + [f], side) == ConsumedOn(fills, side) + LegOn(f.result, side).noteValue
    ensures MintedOn(fills + [f], side) == MintedOn(fills, side) + Spent(f.result, side) + LegOn(f.result, side).change
  {
    assert (fills + [f])[..|fills + [f]| - 1] == fills;
  }

  lemma {:induction false} RunFees(t: Terms, s: Pass, side: Side)
    requires |s.ring| == BATCH_RESULTS_CAPACITY && Run(t, s).Ok? && FeesBalance(s, side)
    ensures FeesBalance(Run(t, s).value, side)
    decreases |s.bids| + |s.asks| - s.bi - s.ai
  {
    if s.Live() {
      StepShape(t, s);
      StepFees(t, s, side);
      RunFees(t, Step(t, s).value, side);
    }
  }
}
