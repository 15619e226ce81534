// When the matching loop trades, and on whose terms: every fill keeps the limit and the fill floor of
// both orders it names.
module FillRules {
  import opened Prelude
  import opened Crypto
  import opened Orders
  import opened Auction
  import opened Matching
  import opened MatchingLaws
  import opened Market
  import opened MarketLaws
  import opened BatchLaws

  // ---------- change notes ----------

  /** A change note commits to the mint, the change, the order's owner, and a nonce and a blinding factor
      derived from the match and the side; with nothing left over there is none, and an owner outside
      the field makes it fail. */
  lemma ChangeNotePreimage(hs: Hashes, mint: Digest, change: uint64, owner: Digest, id: uint64, role: uint8)
    ensures ChangeNote(hs, mint, change, owner, id, role) ==
      if change == 0 then Some(0)
      else if owner >= BN254_R then None
      else Some(hs.poseidon6(mint % TWO_128, mint / TWO_128, change, owner,
                             hs.deriveSha(NonceTag, id, role) % TWO_244, hs.deriveSha(BlindTag, id, role) % TWO_244))
  {
  }

  /** A match asks for a re-lock exactly for a limit order with something left to trade and change to
      trade it with; its fee is the rate's share of the trade leg, rounded down. */
  lemma RelocksAndFees(t: Terms, b: Order, a: Order, id: uint64, side: Side)
    requires Trade(t, b, a, id).Ok?
    ensures
      var m := Trade(t, b, a, id).value;
      var o := if side.Bid? then b else a;
      var leg := LegOn(m, side);
      && (leg.relockOrder, leg.relockExpiry) ==
           (if o.orderType == 0 && o.amount > m.base && leg.change > 0 then (o.orderId, o.expiry) else (0, 0))
      && leg.fee == (if side.Bid? then m.quote else m.base) * t.feeRate / 10_000 % TWO_64
  {
  }

  // ---------- one iteration ----------

  /** Both orders cross, neither is a fill-or-kill order larger than the other, and the smaller amount
      meets both fill floors. */
  predicate Tradable(b: Order, a: Order, price: uint64) {
    && b.limit >= price && a.limit <= price
    && (b.orderType == TYPE_FOK ==> b.amount <= a.amount)
    && (a.orderType == TYPE_FOK ==> a.amount <= b.amount)
    && Min(b.amount, a.amount) >= b.minFill && Min(b.amount, a.amount) >= a.minFill
  }

  /** An iteration adds a match exactly for a tradable pair, and only a tradable pair can abort it. */
  lemma StepTradesExactly(t: Terms, s: Pass)
    requires s.Live() && |s.ring| == BATCH_RESULTS_CAPACITY
    ensures Step(t, s).Err? ==> Tradable(s.bids[s.bi], s.asks[s.ai], t.price)
    ensures Step(t, s).Ok? ==>
      (|Step(t, s).value.fills| == |s.fills| + 1 <==> Tradable(s.bids[s.bi], s.asks[s.ai], t.price))
    ensures Step(t, s).Ok? && !Tradable(s.bids[s.bi], s.asks[s.ai], t.price) ==> Step(t, s).value.fills == s.fills
  {
  }

  /** A crossing pair below a floor, with nothing to kill: the smaller order is passed over, the bid on
      a tie; the other stays under its cursor and nothing else changes. */
  lemma FloorPassesOver(t: Terms, s: Pass)
    requires s.Live() && |s.ring| == BATCH_RESULTS_CAPACITY
    requires
      var b, a := s.bids[s.bi], s.asks[s.ai];
      && b.limit >= t.price && a.limit <= t.price
      && (b.orderType == TYPE_FOK ==> b.amount <= a.amount) && (a.orderType == TYPE_FOK ==> a.amount <= b.amount)
      && (Min(b.amount, a.amount) < b.minFill || Min(b.amount, a.amount) < a.minFill)
    ensures
      var b, a := s.bids[s.bi], s.asks[s.ai];
      Step(t, s) == Ok(if b.amount <= a.amount then s.(bi := s.bi + 1) else s.(ai := s.ai + 1))
  {
  }

  // ---------- a pass ----------

  /** The same order at a later point of a pass. */
  predicate SameOrder(o: Order, o': Order) {
    o' == o.(orderType := o'.orderType, amount := o'.amount, note := o'.note, noteAmount := o'.noteAmount) && o'.amount <= o.amount
  }

  function OrderIdOn(f: Fill, side: Side): OrderId {
    match side
    case Bid => f.buyerOrder
    case Ask => f.sellerOrder
  }

  /** The match is one this order agreed to: at least its floor, at most its amount, at a price within
      its limit; and it names the order and its owner. */
  predicate Honours(t: Terms, o: Order, f: Fill, side: Side) {
    var m := f.result;
    && SlotOn(f, side) == o.slot && OrderIdOn(f, side) == o.orderId
    && LegOn(m, side).tradingKey == o.tradingKey && LegOn(m, side).owner == o.owner
    && o.minFill <= m.base <= o.amount && Crosses(side, o.limit, m.price)
    && m.price == t.price && m.twap == t.twap && m.batchSlot == t.now && m.quote == m.base * m.price && m.status == STATUS_FILLED
  }

  ghost predicate AllHonoured(t: Terms, start: seq<Order>, fills: seq<Fill>, side: Side) {
    forall j :: 0 <= j < |fills| ==> exists k :: 0 <= k < |start| && Honours(t, start[k], fills[j], side)
  }

  ghost predicate SameBook(start: seq<Order>, now: seq<Order>) {
    |now| == |start| && forall k :: 0 <= k < |start| ==> SameOrder(start[k], now[k])
  }

  lemma TradeHonours(t: Terms, s: Pass, side: Side, start: seq<Order>)
    requires CanStep(t, s) && NextMove(t, s).Cross? && SameBook(start, BookOf(s, side))
    ensures |Step(t, s).value.fills| == |s.fills| + 1
    ensures Honours(t, start[CursorOf(s, side)], Step(t, s).value.fills[|s.fills|], side)
  {
    assert SameOrder(start[CursorOf(s, side)], BookOf(s, side)[CursorOf(s, side)]);
  }

  lemma StepHonours(t: Terms, s: Pass, side: Side, start: seq<Order>)
    requires CanStep(t, s) && SameBook(start, BookOf(s, side)) && AllHonoured(t, start, s.fills, side)
    ensures SameBook(start, BookOf(Step(t, s).value, side)) && AllHonoured(t, start, Step(t, s).value.fills, side)
  {
    StepShape(t, s);
    StepSide(t, s, side, CursorOf(s, side));
    forall k | 0 <= k < |start| ensures SameOrder(start[k], BookOf(Step(t, s).value, side)[k]) {
      assert SameOrder(start[k], BookOf(s, side)[k]);
      StepEvolves(t, s, side, k);
    }
    if NextMove(t, s).Cross? {
      TradeHonours(t, s, side, start);
    }
  }

  /** Every match of a pass honours an order of each book. */
  lemma {:induction false} RunHonours(t: Terms, s: Pass, side: Side, start: seq<Order>)
    requires |s.ring| == BATCH_RESULTS_CAPACITY && Run(t, s).Ok?
    requires SameBook(start, BookOf(s, side)) && AllHonoured(t, start, s.fills, side)
    ensures AllHonoured(t, start, Run(t, s).value.fills, side)
    decreases |s.bids| + |s.asks| - s.bi - s.ai
  {
    if s.Live() {
      StepShape(t, s);
      StepHonours(t, s, side, start);
      RunHonours(t, Step(t, s).value, side, start);
    }
  }

  // ---------- a batch ----------

  /** A slot takes part in a batch exactly if its order rests, outlasts the settlement buffer and is
      not below the market's minimum size. */
  lemma EligibleExactly(env: BatchEnv, p: PendingOrder)
    ensures Eligible(env, p) <==>
      p.status == STATUS_PENDING && p.expiry > env.now + 20 && p.amount >= env.cfg.minOrderSize
  {
  }

  /** What a batch's match owes the order in a slot. */
  predicate KeepsTerms(env: BatchEnv, p: PendingOrder, f: Fill, side: Side) {
    var m := f.result;
    && p.status == STATUS_PENDING && p.side == SideCode(side)
    && p.expiry > m.batchSlot + 20 && p.amount >= env.cfg.minOrderSize
    && OrderIdOn(f, side) == p.orderId && LegOn(m, side).tradingKey == p.tradingKey && LegOn(m, side).owner == p.owner
    && p.minFill <= m.base <= p.amount
    && (if side.Bid? then m.price <= p.limit else m.price >= p.limit)
    && m.quote == m.base * m.price && m.batchSlot == env.now && m.twap == env.twap && m.status == STATUS_FILLED
  }

  lemma ClearHonours(env: BatchEnv, s: Pass, side: Side)
    requires Start(s) && Clear(env, s).Ok?
    ensures AllHonoured(TermsOf(env, Clear(env, s).value.price), BookOf(s, side), Clear(env, s).value.pass.fills, side)
  {
    var r := ClearingPrice(s.bids, s.asks);
    if r.Some? && !Deviates(r.value.0, env.twap, env.cfg.circuitBps) {
      RunHonours(TermsOf(env, r.value.0), s, side, BookOf(s, side));
    }
  }

  /** Every match of a batch, on either side and for every order type, is one its order agreed to: a
      selected, resting order of that side that outlasts the buffer, for at least its fill floor and
      within its limit, at the batch's one price. */
  lemma BatchHonours(env: BatchEnv, slots: seq<PendingOrder>, br: BatchResults, sel: seq<nat>, side: Side, j: nat)
    requires BatchRuns(env, slots, br, sel) && j < |RunBatch(env, slots, br, sel).value.fills|
    ensures
      var o := RunBatch(env, slots, br, sel).value;
      var i := SlotOn(o.fills[j], side);
      && i < |slots| && i in sel && KeepsTerms(env, slots[i], o.fills[j], side)
      && o.fills[j].result.price == o.results.clearingPrice
  {
    var s := FirstPass(env, slots, br, sel);
    var cleared := Clear(env, s).value;
    StartBooks(env, slots, br, sel);
    BatchSlots(env, slots, br, sel);
    PublishedPrice(env, slots, br, sel);
    ClearHonours(env, s, side);
    var f := cleared.pass.fills[j];
    var k :| 0 <= k < |BookOf(s, side)| && Honours(TermsOf(env, cleared.price), BookOf(s, side)[k], f, side);
    var o := BookOf(s, side)[k];
    assert IsSnapshotOf(env, slots, sel, side, o);
    EligibleExactly(env, slots[o.slot]);
  }

  lemma PublishedPrice(env: BatchEnv, slots: seq<PendingOrder>, br: BatchResults, sel: seq<nat>)
    requires |br.ring| == BATCH_RESULTS_CAPACITY && RunBatch(env, slots, br, sel).Ok?
    ensures RunBatch(env, slots, br, sel).value.results.clearingPrice == Clear(env, FirstPass(env, slots, br, sel)).value.price
    ensures RunBatch(env, slots, br, sel).value.results.tripped == Clear(env, FirstPass(env, slots, br, sel)).value.tripped
  {
    var c := Collect(env, slots, sel, |sel|).value;
    FlushFacts(env, Publish(env, br, Clear(env, StartPass(c, br)).value, c.inclusion));
  }
}
