// Batches that show where the program stops short: an order accepted without a fee aborts the batch it
// trades in, unmatched orders of every type rest, and more than sixteen matches overwrite the ring.
module BatchWitnesses {
  import opened Prelude
  import opened Crypto
  import opened Orders
  import opened Auction
  import opened Matching
  import opened MatchingLaws
  import opened Market
  import opened MarketLaws
  import opened BatchLaws

  // ---------- small books ----------

  lemma InsertLast(side: Side, t: seq<Order>, o: Order)
    requires t != [] ==> !Ahead(side, o, t[|t| - 1])
    ensures Insert(side, t, o) == t + [o]
  {
  }

  lemma SortLast(side: Side, t: seq<Order>, o: Order)
    ensures Sort(side, t + [o]) == Insert(side, Sort(side, t), o)
  {
    assert (t + [o])[..|t|] == t;
  }

  lemma {:induction false} SortKept(side: Side, s: seq<Order>)
    requires Sorted(side, s)
    ensures Sort(side, s) == s
  {
    if s != [] {
      var t, last := s[..|s| - 1], s[|s| - 1];
      assert s == t + [last];
      SortKept(side, t);
      SortLast(side, t, last);
      InsertLast(side, t, last);
    }
  }

  ghost predicate AllAt(s: seq<Order>, price: uint64) {
    forall i :: 0 <= i < |s| ==> s[i].limit == price
  }

  lemma VolumeAway(side: Side, s: seq<Order>, price: uint64, q: uint64)
    requires AllAt(s, price) && !Crosses(side, price, q)
    ensures Volume(side, s, q) == 0
  {
    ZeroVolume(side, s, q);
  }

  /** When all orders have one limit and both sides have volume, that limit is the clearing price. */
  lemma UniformPrice(bids: seq<Order>, asks: seq<Order>, price: uint64)
    requires AllAt(bids, price) && AllAt(asks, price)
    requires Volume(Bid, bids, price) > 0 && Volume(Ask, asks, price) > 0
    ensures ClearingPrice(bids, asks).Some? && ClearingPrice(bids, asks).value.0 == price
  {
    ClearingPriceOptimal(bids, asks);
    SatVolumeClamps(Bid, bids, price);
    SatVolumeClamps(Ask, asks, price);
    assert Matched(bids, asks, price) > 0;
    var p := ClearingPrice(bids, asks).value.0;
    SatVolumeClamps(Bid, bids, p);
    SatVolumeClamps(Ask, asks, p);
    if p < price {
      VolumeAway(Ask, asks, price, p);
    } else if p > price {
      VolumeAway(Bid, bids, price, p);
    }
  }

  function SampleEnv(hs: Hashes, rate: uint16, twap: uint64): BatchEnv {
    BatchEnv(hs, MatchingConfig(0, 1, 2, 0, 300, 0), 0, 0, 0, 0, rate, 0, 0, twap)
  }

  /** An empty slot of market 0 that belongs to `key`. */
  function EmptySlot(key: Digest): PendingOrder {
    PendingOrder(key, 0, STATUS_EMPTY, 0, 0, 0, 0, 0, 0, 0, 0, 0, 0, 0, 0, 0, 0, 0)
  }

  function SampleArgs(side: uint8, orderType: uint8, amount: uint64, limit: uint64, noteAmount: uint64, id: uint8): SubmitArgs {
    SubmitArgs(0, 0, side, orderType, amount, 0, limit, noteAmount, 1000, id + 1, id, 0)
  }

  /** The slot after its owner submitted a sample order at slot 0. */
  function SampleSlot(hs: Hashes, side: uint8, orderType: uint8, amount: uint64, limit: uint64, noteAmount: uint64, id: uint8): Result<PendingOrder, MatchingError> {
    SubmitOrder(hs, EmptySlot(id), SampleArgs(side, orderType, amount, limit, noteAmount, id), id, 0)
  }

  /** What pass 1 does with one more eligible slot. */
  lemma CollectOne(env: BatchEnv, slots: seq<PendingOrder>, sel: seq<nat>, k: nat, c: Collected, side: Side)
    requires k < |sel| && Collect(env, slots, sel, k) == Ok(c) && sel[k] < |c.slots|
    requires c.slots[sel[k]].market == env.market && Eligible(env, c.slots[sel[k]]) && c.slots[sel[k]].side == SideCode(side)
    ensures
      var p := c.slots[sel[k]];
      Collect(env, slots, sel, k + 1) == Ok(Collected(c.slots, if side.Bid? then c.bids + [Snapshot(p, sel[k])] else c.bids,
                                                      if side.Ask? then c.asks + [Snapshot(p, sel[k])] else c.asks, c.inclusion + [p.inclusion]))
  {
  }

  /** A fresh sample slot takes part in a sample batch. */
  lemma SampleEligible(hs: Hashes, rate: uint16, twap: uint64, side: Side, orderType: uint8, amount: uint64, limit: uint64, noteAmount: uint64, id: uint8)
    requires SampleSlot(hs, SideCode(side), orderType, amount, limit, noteAmount, id).Ok?
    ensures
      var p := SampleSlot(hs, SideCode(side), orderType, amount, limit, noteAmount, id).value;
      && Eligible(SampleEnv(hs, rate, twap), p) && p.market == 0 && p.side == SideCode(side)
      && p.orderType == orderType && p.amount == amount && p.limit == limit && p.noteAmount == noteAmount && p.minFill == 0
  {
  }

  // ---------- an accepted order aborts the batch ----------

  function Accepted(hs: Hashes, side: Side, noteAmount: uint64, id: uint8): PendingOrder
    requires noteAmount >= 10_000
  {
    SampleSlot(hs, SideCode(side), TYPE_LIMIT, 1, 10_000, noteAmount, id).value
  }

  /** Four accepted orders for 1 at 10000: a bid with a note of 20000, a bid with one of exactly 10000,
      and two asks. */
  function ShortBook(hs: Hashes): seq<PendingOrder> {
    [Accepted(hs, Bid, 20_000, 1), Accepted(hs, Ask, 20_000, 2), Accepted(hs, Bid, 10_000, 3), Accepted(hs, Ask, 20_000, 4)]
  }

  function ShortCopies(hs: Hashes, side: Side): seq<Order> {
    match side
    case Bid => [Snapshot(ShortBook(hs)[0], 0), Snapshot(ShortBook(hs)[2], 2)]
    case Ask => [Snapshot(ShortBook(hs)[1], 1), Snapshot(ShortBook(hs)[3], 3)]
  }

  /** What the sample orders have in common. */
  ghost predicate Unit(o: Order, noteAmount: uint64) {
    o.limit == 10_000 && o.amount == 1 && o.orderType == TYPE_LIMIT && o.minFill == 0 && o.owner == 0 && o.noteAmount == noteAmount
  }

  lemma ShortCollected(hs: Hashes) returns (first: Collected, all: Collected)
    ensures Collect(SampleEnv(hs, 30, 10_000), ShortBook(hs), [0, 1], 2) == Ok(first)
    ensures Collect(SampleEnv(hs, 30, 10_000), ShortBook(hs), [0, 1, 2, 3], 4) == Ok(all)
    ensures first.bids == [Snapshot(ShortBook(hs)[0], 0)] && first.asks == [Snapshot(ShortBook(hs)[1], 1)]
    ensures all.bids == ShortCopies(hs, Bid) && all.asks == ShortCopies(hs, Ask)
  {
    var env, slots := SampleEnv(hs, 30, 10_000), ShortBook(hs);
    first := CollectPair(env, slots, [0, 1], Collected(slots, [], [], []), 0);
    var half := CollectPair(env, slots, [0, 1, 2, 3], Collected(slots, [], [], []), 0);
    all := CollectPair(env, slots, [0, 1, 2, 3], half, 2);
  }

  lemma CollectPair(env: BatchEnv, slots: seq<PendingOrder>, sel: seq<nat>, c: Collected, k: nat) returns (d: Collected)
    requires k + 2 <= |sel| && sel[k] < |slots| && sel[k + 1] < |slots| && c.slots == slots
    requires Collect(env, slots, sel, k) == Ok(c)
    requires slots[sel[k]].market == slots[sel[k + 1]].market == env.market
    requires Eligible(env, slots[sel[k]]) && slots[sel[k]].side == SIDE_BID
    requires Eligible(env, slots[sel[k + 1]]) && slots[sel[k + 1]].side == SIDE_ASK
    ensures Collect(env, slots, sel, k + 2) == Ok(d) && d.slots == slots
    ensures d.bids == c.bids + [Snapshot(slots[sel[k]], sel[k])] && d.asks == c.asks + [Snapshot(slots[sel[k + 1]], sel[k + 1])]
  {
    CollectOne(env, slots, sel, k, c, Bid);
    var h := Collect(env, slots, sel, k + 1).value;
    CollectOne(env, slots, sel, k + 1, h, Ask);
    d := Collect(env, slots, sel, k + 2).value;
  }

  /** One covered trade at the sample terms. */
  lemma UnitTrade(t: Terms, b: Order, a: Order, id: uint64)
    requires t.price == 10_000 && t.feeRate == 30 && Unit(a, 20_000) && (Unit(b, 20_000) || Unit(b, 10_000))
    ensures Unit(b, 20_000) ==> Trade(t, b, a, id).Ok? && Trade(t, b, a, id).value.base == 1
    ensures Unit(b, 10_000) ==> Trade(t, b, a, id) == Err(ConservationViolation)
  {
  }

  lemma UnitStep(t: Terms, s: Pass)
    requires s.Live() && |s.ring| == BATCH_RESULTS_CAPACITY && t.price == 10_000 && t.feeRate == 30
    requires Unit(s.asks[s.ai], 20_000) && (Unit(s.bids[s.bi], 20_000) || Unit(s.bids[s.bi], 10_000))
    ensures Unit(s.bids[s.bi], 10_000) ==> Step(t, s) == Err(ConservationViolation)
    ensures Unit(s.bids[s.bi], 20_000) ==>
      && Step(t, s).Ok? && Step(t, s).value.bi == s.bi + 1 && Step(t, s).value.ai == s.ai + 1
      && |Step(t, s).value.fills| == |s.fills| + 1
      && Step(t, s).value.bids[s.bi + 1..] == s.bids[s.bi + 1..] && Step(t, s).value.asks[s.ai + 1..] == s.asks[s.ai + 1..]
  {
    UnitTrade(t, s.bids[s.bi], s.asks[s.ai], s.nextId);
  }

  /** A pass over sample bids: covered first; if there is a second bid it is short. */
  lemma ShortPass(env: BatchEnv, s: Pass)
    requires env.feeRate == 30 && env.twap == 10_000 && env.cfg.circuitBps == 300
    requires Start(s) && 1 <= |s.bids| == |s.asks| <= 2
    requires Unit(s.bids[0], 20_000) && (forall i :: 0 <= i < |s.asks| ==> Unit(s.asks[i], 20_000))
    requires |s.bids| == 2 ==> Unit(s.bids[1], 10_000)
    ensures |s.bids| == 1 ==> Clear(env, s).Ok? && |Clear(env, s).value.pass.fills| == 1
    ensures |s.bids| == 2 ==> Clear(env, s) == Err(ConservationViolation)
  {
    VolumeHolds(Bid, s.bids, 10_000, 0);
    VolumeHolds(Ask, s.asks, 10_000, 0);
    UniformPrice(s.bids, s.asks, 10_000);
    var t := TermsOf(env, 10_000);
    UnitStep(t, s);
    StepShape(t, s);
    var s' := Step(t, s).value;
    if |s.bids| == 2 {
      assert s'.bids[1] == s'.bids[1..][0] && s'.asks[1] == s'.asks[1..][0];
      UnitStep(t, s');
      assert Run(t, s') == Err(ConservationViolation);
    } else {
      assert Run(t, s') == Ok(s');
    }
    assert Run(t, s) == Run(t, s');
  }

  /** How a batch ends, from its collected books; here no protocol owner is set. */
  lemma BatchFrom(env: BatchEnv, slots: seq<PendingOrder>, br: BatchResults, sel: seq<nat>, c: Collected)
    requires |br.ring| == BATCH_RESULTS_CAPACITY && Guard(env, sel).None? && env.protocolOwner == 0
    requires Collect(env, slots, sel, |sel|) == Ok(c)
    ensures
      var cleared := Clear(env, StartPass(c, br));
      var r := RunBatch(env, slots, br, sel);
      if cleared.Err? then r == Err(cleared.error)
      else r.Ok? && r.value.fills == cleared.value.pass.fills
           && r.value.slots == WriteBack(c.slots, cleared.value.pass.bids + cleared.value.pass.asks)
           && r.value.results.ring == cleared.value.pass.ring
  {
    var cleared := Clear(env, StartPass(c, br));
    if cleared.Ok? {
      FlushSkipped(env, Publish(env, br, cleared.value, c.inclusion));
    }
  }

  lemma AcceptedUnit(hs: Hashes, side: Side, noteAmount: uint64, id: uint8, slot: nat)
    requires noteAmount == 20_000 || noteAmount == 10_000
    ensures Unit(Snapshot(Accepted(hs, side, noteAmount, id), slot), noteAmount)
  {
  }

  lemma ShortCopiesUnit(hs: Hashes)
    ensures Unit(ShortCopies(hs, Bid)[0], 20_000) && Unit(ShortCopies(hs, Bid)[1], 10_000)
    ensures Unit(ShortCopies(hs, Ask)[0], 20_000) && Unit(ShortCopies(hs, Ask)[1], 20_000)
    ensures ShortCopies(hs, Bid)[0].arrival == ShortCopies(hs, Bid)[1].arrival && ShortCopies(hs, Ask)[0].arrival == ShortCopies(hs, Ask)[1].arrival
  {
    AcceptedUnit(hs, Bid, 20_000, 1, 0);
    AcceptedUnit(hs, Ask, 20_000, 2, 1);
    AcceptedUnit(hs, Bid, 10_000, 3, 2);
    AcceptedUnit(hs, Ask, 20_000, 4, 3);
  }

  lemma StartKept(c: Collected, br: BatchResults)
    requires Sorted(Bid, c.bids) && Sorted(Ask, c.asks)
    ensures StartPass(c, br) == Pass(c.bids, c.asks, 0, 0, [], br.ring, br.cursor, br.nextId, 0, 0)
  {
    SortKept(Bid, c.bids);
    SortKept(Ask, c.asks);
  }

  lemma CoveredPairMatches(hs: Hashes, br: BatchResults, c: Collected)
    requires |br.ring| == BATCH_RESULTS_CAPACITY
    requires Collect(SampleEnv(hs, 30, 10_000), ShortBook(hs), [0, 1], 2) == Ok(c)
    requires |c.bids| == |c.asks| == 1 && Unit(c.bids[0], 20_000) && Unit(c.asks[0], 20_000)
    ensures
      var r := RunBatch(SampleEnv(hs, 30, 10_000), ShortBook(hs), br, [0, 1]);
      r.Ok? && |r.value.fills| == 1
  {
    StartKept(c, br);
    ShortPass(SampleEnv(hs, 30, 10_000), StartPass(c, br));
    BatchFrom(SampleEnv(hs, 30, 10_000), ShortBook(hs), br, [0, 1], c);
  }

  lemma ShortBidAborts(hs: Hashes, br: BatchResults, c: Collected)
    requires |br.ring| == BATCH_RESULTS_CAPACITY
    requires Collect(SampleEnv(hs, 30, 10_000), ShortBook(hs), [0, 1, 2, 3], 4) == Ok(c)
    requires |c.bids| == |c.asks| == 2 && Unit(c.bids[0], 20_000) && Unit(c.bids[1], 10_000)
    requires Unit(c.asks[0], 20_000) && Unit(c.asks[1], 20_000)
    requires c.bids[0].arrival == c.bids[1].arrival && c.asks[0].arrival == c.asks[1].arrival
    ensures RunBatch(SampleEnv(hs, 30, 10_000), ShortBook(hs), br, [0, 1, 2, 3]) == Err(ConservationViolation)
  {
    StartKept(c, br);
    ShortPass(SampleEnv(hs, 30, 10_000), StartPass(c, br));
    BatchFrom(SampleEnv(hs, 30, 10_000), ShortBook(hs), br, [0, 1, 2, 3], c);
  }

  /** `submit_order` accepts all four orders. At a fee of 30 basis points a batch over the first two
      makes their match; a batch over all four fails on the short bid, and that match is lost with it. */
  lemma AcceptedOrderAbortsBatch(hs: Hashes, br: BatchResults)
    requires |br.ring| == BATCH_RESULTS_CAPACITY
    ensures SampleSlot(hs, SIDE_BID, TYPE_LIMIT, 1, 10_000, 10_000, 3) == Ok(ShortBook(hs)[2]) && !SlotFunded(ShortBook(hs)[2], 30)
    ensures
      var r := RunBatch(SampleEnv(hs, 30, 10_000), ShortBook(hs), br, [0, 1]);
      r.Ok? && |r.value.fills| == 1
    ensures RunBatch(SampleEnv(hs, 30, 10_000), ShortBook(hs), br, [0, 1, 2, 3]) == Err(ConservationViolation)
  {
    var first, all := ShortCollected(hs);
    ShortCopiesUnit(hs);
    assert first.bids[0] == ShortCopies(hs, Bid)[0] && first.asks[0] == ShortCopies(hs, Ask)[0];
    CoveredPairMatches(hs, br, first);
    ShortBidAborts(hs, br, all);
  }

  // ---------- unmatched orders rest ----------

  lemma LoneBidCollected(hs: Hashes, orderType: uint8)
    requires SampleSlot(hs, SIDE_BID, orderType, 1, 1, 1, 1).Ok?
    ensures
      var p := SampleSlot(hs, SIDE_BID, orderType, 1, 1, 1, 1).value;
      Collect(SampleEnv(hs, 0, 1), [p], [0], 1) == Ok(Collected([p], [Snapshot(p, 0)], [], [p.inclusion]))
  {
    var p := SampleSlot(hs, SIDE_BID, orderType, 1, 1, 1, 1).value;
    SampleEligible(hs, 0, 1, Bid, orderType, 1, 1, 1, 1);
    CollectOne(SampleEnv(hs, 0, 1), [p], [0], 0, Collected([p], [], [], []), Bid);
    assert [] + [Snapshot(p, 0)] == [Snapshot(p, 0)] && [] + [p.inclusion] == [p.inclusion];
  }

  /** Writing back an order that nothing happened to changes nothing. */
  lemma WriteBackOne(p: PendingOrder)
    requires p.amount > 0 && p.orderType != TYPE_KILLED
    ensures WriteBack([p], [Snapshot(p, 0)]) == [p]
  {
    assert [Snapshot(p, 0)][..0] == [];
  }

  /** A batch over one bid changes nothing, whatever the bid's type: an immediate-or-cancel order that
      crosses nothing is not cancelled, and a fill-or-kill order the loop does not reach is not killed. */
  lemma LoneBidRests(hs: Hashes, br: BatchResults, orderType: uint8)
    requires |br.ring| == BATCH_RESULTS_CAPACITY
    requires orderType == TYPE_LIMIT || orderType == TYPE_IOC || orderType == TYPE_FOK
    ensures SampleSlot(hs, SIDE_BID, orderType, 1, 1, 1, 1).Ok?
    ensures
      var p := SampleSlot(hs, SIDE_BID, orderType, 1, 1, 1, 1).value;
      var r := RunBatch(SampleEnv(hs, 0, 1), [p], br, [0]);
      && p.Pending() && p.orderType == orderType && r.Ok? && r.value.slots == [p] && r.value.fills == []
  {
    var p := SampleSlot(hs, SIDE_BID, orderType, 1, 1, 1, 1).value;
    var env := SampleEnv(hs, 0, 1);
    var c := Collected([p], [Snapshot(p, 0)], [], [p.inclusion]);
    LoneBidCollected(hs, orderType);
    SortKept(Bid, c.bids);
    SortKept(Ask, c.asks);
    var s := StartPass(c, br);
    assert Clear(env, s) == Ok(Cleared(s, 0, false));
    assert s.bids + s.asks == [Snapshot(p, 0)];
    WriteBackOne(p);
    BatchFrom(env, [p], br, [0], c);
  }

  lemma FlushSkipped(env: BatchEnv, r: BatchResults)
    requires env.protocolOwner == 0
    ensures FlushFees(env, r) == Ok(r)
  {
  }
}
