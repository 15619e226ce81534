// The matching engine's instructions on the accounts themselves: slots and batch account are
// updated in place, and each instruction is proved to do what its function in `Market` says.
module MarketProgram {
  import opened Prelude
  import opened Crypto
  import opened InclusionTree
  import opened Orders
  import opened Auction
  import opened Matching
  import opened MatchingLaws
  import opened Market
  import opened MarketLaws

  /** Pass 1 stops at the first account that fails. */
  lemma {:induction false} CollectStops(env: BatchEnv, slots: seq<PendingOrder>, sel: seq<nat>, k: nat, n: nat)
    requires k <= n <= |sel| && Collect(env, slots, sel, k).Err?
    ensures Collect(env, slots, sel, n) == Collect(env, slots, sel, k)
    decreases n
  {
    if k < n {
      CollectStops(env, slots, sel, k, n - 1);
    }
  }

  /** Every working copy names an account of the market. */
  lemma CopiesInRange(env: BatchEnv, slots: seq<PendingOrder>, sel: seq<nat>)
    requires Collect(env, slots, sel, |sel|).Ok?
    ensures
      var c := Collect(env, slots, sel, |sel|).value;
      && |c.slots| == |slots|
      && (forall k :: 0 <= k < |Sort(Bid, c.bids)| ==> Sort(Bid, c.bids)[k].slot < |slots|)
      && (forall k :: 0 <= k < |Sort(Ask, c.asks)| ==> Sort(Ask, c.asks)[k].slot < |slots|)
  {
    var c := Collect(env, slots, sel, |sel|).value;
    CollectFacts(env, slots, sel, |sel|);
    SortMembers(Bid, c.bids);
    SortMembers(Ask, c.asks);
    forall k | 0 <= k < |Sort(Bid, c.bids)| ensures Sort(Bid, c.bids)[k].slot < |slots| {
      assert Sort(Bid, c.bids)[k] in c.bids;
    }
    forall k | 0 <= k < |Sort(Ask, c.asks)| ensures Sort(Ask, c.asks)[k].slot < |slots| {
      assert Sort(Ask, c.asks)[k] in c.asks;
    }
  }

  ghost predicate InRange(s: Pass, n: nat) {
    && (forall k :: 0 <= k < |s.bids| ==> s.bids[k].slot < n)
    && (forall k :: 0 <= k < |s.asks| ==> s.asks[k].slot < n)
  }

  lemma FinalInRange(t: Terms, s: Pass, n: nat)
    requires |s.ring| == BATCH_RESULTS_CAPACITY && Run(t, s).Ok? && InRange(s, n)
    ensures InRange(Run(t, s).value, n)
  {
    RunLengths(t, s);
    var f := Run(t, s).value;
    forall k | 0 <= k < |f.bids| ensures f.bids[k].slot < n {
      RunEvolves(t, s, Bid, k);
    }
    forall k | 0 <= k < |f.asks| ensures f.asks[k].slot < n {
      RunEvolves(t, s, Ask, k);
    }
  }

  class MarketAccounts {
    /** The pending-order slots; an account is its index here. */
    const slots: array<PendingOrder>
    const ring: ResultRing
    var baseMint: Digest
    var quoteMint: Digest
    var baseFlushed: Digest
    var quoteFlushed: Digest
    var feeBatchSlot: uint64
    var inclusionRoot: Digest
    var batchSlot: uint64
    var matchCount: nat
    var clearingPrice: uint64
    var twap: uint64
    var tripped: bool

    ghost predicate Valid()
      reads this, ring
    {
      ring.results.Length == BATCH_RESULTS_CAPACITY
    }

    /** The contents of the batch account. */
    function Results(): BatchResults
      reads this, ring, ring.results
    {
      BatchResults(ring.results[..], ring.writeCursor, ring.nextMatchId,
                   FeeSlot(baseMint, ring.baseFees, feeBatchSlot, baseFlushed),
                   FeeSlot(quoteMint, ring.quoteFees, feeBatchSlot, quoteFlushed),
                   inclusionRoot, batchSlot, matchCount, clearingPrice, twap, tripped)
    }

    /** `init_market` with its slot accounts created empty. */
    constructor (empty: seq<PendingOrder>, noMatch: MatchResult)
      ensures Valid() && slots[..] == empty && fresh(slots) && fresh(ring) && fresh(ring.results)
      ensures Results() == BatchResults(seq(BATCH_RESULTS_CAPACITY, _ => noMatch), 0, 0, FeeSlot(0, 0, 0, 0), FeeSlot(0, 0, 0, 0),
                                        0, 0, 0, 0, 0, false)
    {
      slots := new PendingOrder[|empty|](i requires 0 <= i < |empty| => empty[i]);
      ring := new ResultRing(noMatch);
      baseMint, quoteMint, baseFlushed, quoteFlushed, feeBatchSlot := 0, 0, 0, 0, 0;
      inclusionRoot, batchSlot, matchCount, clearingPrice, twap, tripped := 0, 0, 0, 0, 0, false;
      new;
      assert ring.results[..] == seq(BATCH_RESULTS_CAPACITY, _ => noMatch);
    }

    /** `submit_order` into slot `i`. */
    method Submit(hs: Hashes, i: nat, a: SubmitArgs, signer: Digest, now: uint64) returns (r: Option<MatchingError>)
      requires i < slots.Length
      modifies slots
      ensures r == match SubmitOrder(hs, old(slots[i]), a, signer, now) case Ok(_) => None case Err(e) => Some(e)
      ensures slots[..] == match SubmitOrder(hs, old(slots[i]), a, signer, now)
                           case Ok(p) => old(slots[..])[i := p] case Err(_) => old(slots[..])
    {
      if a.side != SIDE_BID && a.side != SIDE_ASK { return Some(InvalidSide); }
      if !(a.orderType == TYPE_LIMIT || a.orderType == TYPE_IOC || a.orderType == TYPE_FOK) { return Some(InvalidOrderType); }
      if a.amount == 0 { return Some(ZeroAmount); }
      if a.limit == 0 { return Some(ZeroPrice); }
      if a.orderId == 0 { return Some(InvalidOrderId); }
      if a.minFill > a.amount { return Some(AmountBelowMinOrderSize); }
      var required := if a.side == SIDE_BID then a.amount * a.limit else a.amount;
      if required > a.noteAmount { return Some(NotionalExceedsNoteValue); }
      if a.expiry <= now { return Some(ExpiryInPast); }
      var slot := slots[i];
      if slot.tradingKey != signer { return Some(UnauthorizedTradingKey); }
      if slot.market != a.market { return Some(MarketMismatch); }
      if slot.slotIdx != a.slotIdx { return Some(InvalidPendingSlot); }
      if !(slot.status in {STATUS_EMPTY, STATUS_MATCHED, STATUS_EXPIRED, STATUS_CANCELLED}) { return Some(SlotAlreadyOccupied); }
      var inclusion := hs.inclusionSha(now, a.note, signer);
      slots[i] := slots[i].(status := STATUS_PENDING, side := a.side, orderType := a.orderType);
      slots[i] := slots[i].(arrival := now, expiry := a.expiry, limit := a.limit, amount := a.amount, total := a.amount);
      slots[i] := slots[i].(filled := 0, minFill := a.minFill, noteAmount := a.noteAmount, note := a.note);
      slots[i] := slots[i].(owner := a.owner, orderId := a.orderId, inclusion := inclusion);
      return None;
    }

    /** `cancel_order` on slot `i`. */
    method Cancel(i: nat, signer: Digest, market: Digest, slotIdx: uint8) returns (r: Option<MatchingError>)
      requires i < slots.Length
      modifies slots
      ensures r == match CancelOrder(old(slots[i]), signer, market, slotIdx) case Ok(_) => None case Err(e) => Some(e)
      ensures slots[..] == match CancelOrder(old(slots[i]), signer, market, slotIdx)
                           case Ok(p) => old(slots[..])[i := p] case Err(_) => old(slots[..])
    {
      var slot := slots[i];
      if slot.tradingKey != signer { return Some(UnauthorizedTradingKey); }
      if slot.market != market { return Some(MarketMismatch); }
      if slot.slotIdx != slotIdx { return Some(InvalidPendingSlot); }
      if slot.status != STATUS_PENDING { return Some(OrderNotFound); }
      slots[i] := slots[i].(status := STATUS_CANCELLED);
      slots[i] := slots[i].(amount := 0, limit := 0, noteAmount := 0, minFill := 0, note := 0, owner := 0, orderId := 0);
      return None;
    }

    /** Pass 1: drains slots about to expire in place and lists the rest. */
    method LoadOrders(env: BatchEnv, sel: seq<nat>)
      returns (r: Option<MatchingError>, bids: seq<Order>, asks: seq<Order>, inclusion: seq<Digest>)
      modifies slots
      ensures Collect(env, old(slots[..]), sel, |sel|) ==
              if r.Some? then Err(r.value) else Ok(Collected(slots[..], bids, asks, inclusion))
    {
      bids, asks, inclusion := [], [], [];
      for k := 0 to |sel|
        invariant Collect(env, old(slots[..]), sel, k) == Ok(Collected(slots[..], bids, asks, inclusion))
      {
        var i := sel[k];
        if i >= slots.Length {
          CollectStops(env, old(slots[..]), sel, k + 1, |sel|);
          return Some(PendingOrderInvalidOwner), bids, asks, inclusion;
        }
        if slots[i].market != env.market {
          CollectStops(env, old(slots[..]), sel, k + 1, |sel|);
          return Some(MarketMismatch), bids, asks, inclusion;
        }
        if slots[i].status == STATUS_PENDING {
          if slots[i].expiry <= SatAdd(env.now, SETTLEMENT_BUFFER_SLOTS) {
            slots[i] := Expire(slots[i]);
          } else if !(slots[i].amount < env.cfg.minOrderSize && env.cfg.minOrderSize > 0) {
            inclusion := inclusion + [slots[i].inclusion];
            if slots[i].side == SIDE_BID {
              bids := bids + [Snapshot(slots[i], i)];
            } else if slots[i].side == SIDE_ASK {
              asks := asks + [Snapshot(slots[i], i)];
            }
          }
        }
      }
      return None, bids, asks, inclusion;
    }

    /** `apply_slot_updates` for one side. */
    method WriteSide(orders: array<Order>)
      requires forall k :: 0 <= k < orders.Length ==> orders[k].slot < slots.Length
      modifies slots
      ensures slots[..] == WriteBack(old(slots[..]), orders[..])
    {
      for k := 0 to orders.Length
        invariant slots[..] == WriteBack(old(slots[..]), orders[..k])
      {
        assert orders[..k + 1][..k] == orders[..k];
        var s := orders[k];
        var i := s.slot;
        if s.orderType == TYPE_KILLED {
          slots[i] := slots[i].(status := STATUS_CANCELLED, amount := 0, note := 0);
        } else if s.amount == 0 {
          slots[i] := slots[i].(status := STATUS_MATCHED, filled := slots[i].total, amount := 0, note := 0,
                                limit := 0, noteAmount := 0, minFill := 0, owner := 0, orderId := 0);
        } else if s.amount < slots[i].amount {
          slots[i] := slots[i].(filled := SatAdd(slots[i].filled, slots[i].amount - s.amount),
                                amount := s.amount, note := s.note, noteAmount := s.noteAmount);
          if s.orderType == TYPE_IOC {
            slots[i] := slots[i].(status := STATUS_CANCELLED, amount := 0, note := 0);
          }
        }
      }
      assert orders[..orders.Length] == orders[..];
    }

    /** Resets the accumulators, finds the price, checks the breaker, and matches. */
    method ClearBooks(env: BatchEnv, bids: array<Order>, asks: array<Order>)
      returns (r: Option<MatchingError>, price: uint64, tripped: bool, count: nat, ghost final: Pass)
      requires Valid() && bids != asks
      modifies bids, asks, ring, ring.results
      ensures
        var s := old(Pass(bids[..], asks[..], 0, 0, [], ring.results[..], ring.writeCursor, ring.nextMatchId, 0, 0));
        Clear(env, s) == if r.Some? then Err(r.value) else Ok(Cleared(final, price, tripped))
      ensures r.None? ==> final == PassOf(bids, asks, ring, final.bi, final.ai, final.fills) && count == |final.fills|
    {
      ring.baseFees, ring.quoteFees := 0, 0;
      final := PassOf(bids, asks, ring, 0, 0, []);
      var best := ComputeClearingPrice(bids[..], asks[..]);
      if best.None? {
        return None, 0, false, 0, final;
      }
      var p := best.value.0;
      if Deviates(p, env.twap, env.cfg.circuitBps) {
        return None, 0, true, 0, final;
      }
      var produced, f := GenerateMatches(TermsOf(env, p), bids, asks, ring);
      if produced.Err? {
        return Some(produced.error), 0, false, 0, f;
      }
      return None, p, false, produced.value, f;
    }

    /** Flushes one fee note per mint with fees, unless the breaker tripped or no owner is set. */
    method FlushFeeNotes(env: BatchEnv) returns (r: Option<MatchingError>)
      requires baseFlushed == quoteFlushed == 0
      modifies this`baseFlushed, this`quoteFlushed
      ensures FlushFees(env, old(Results())) == if r.Some? then Err(r.value) else Ok(Results())
    {
      if env.protocolOwner != 0 && !tripped {
        if ring.baseFees > 0 {
          var c := DerivedNote(env.hs, baseMint, ring.baseFees, env.protocolOwner, env.now, FEE_ROLE_BASE);
          if c.None? { return Some(PoseidonFailed); }
          baseFlushed := c.value;
        }
        if ring.quoteFees > 0 {
          var c := DerivedNote(env.hs, quoteMint, ring.quoteFees, env.protocolOwner, env.now, FEE_ROLE_QUOTE);
          if c.None? { return Some(PoseidonFailed); }
          quoteFlushed := c.value;
        }
      }
      return None;
    }

    /** Clears the sorted books and writes what is left of them back into the slots. */
    method MatchAndWrite(env: BatchEnv, bids: seq<Order>, asks: seq<Order>)
      returns (r: Option<MatchingError>, price: uint64, trip: bool, count: nat, ghost final: Pass)
      requires Valid()
      requires forall k :: 0 <= k < |bids| ==> bids[k].slot < slots.Length
      requires forall k :: 0 <= k < |asks| ==> asks[k].slot < slots.Length
      modifies slots, ring, ring.results
      ensures
        var s := Pass(bids, asks, 0, 0, [], old(ring.results[..]), old(ring.writeCursor), old(ring.nextMatchId), 0, 0);
        Clear(env, s) == if r.Some? then Err(r.value) else Ok(Cleared(final, price, trip))
      ensures r.None? ==>
        && slots[..] == WriteBack(old(slots[..]), final.bids + final.asks)
        && ring.results[..] == final.ring && ring.writeCursor == final.cursor && ring.nextMatchId == final.nextId
        && ring.baseFees == final.baseFees && ring.quoteFees == final.quoteFees && count == |final.fills|
    {
      var bidArray := new Order[|bids|](i requires 0 <= i < |bids| => bids[i]);
      var askArray := new Order[|asks|](i requires 0 <= i < |asks| => asks[i]);
      assert bidArray[..] == bids && askArray[..] == asks;
      ghost var s := Pass(bids, asks, 0, 0, [], ring.results[..], ring.writeCursor, ring.nextMatchId, 0, 0);
      r, price, trip, count, final := ClearBooks(env, bidArray, askArray);
      if r.None? {
        ClearInRange(env, s, slots.Length);
        WriteBackAppends(slots[..], final.bids, final.asks);
        WriteSide(bidArray);
        WriteSide(askArray);
      }
    }

    /** The batch summary, and fresh fee slots. */
    method WriteSummary(env: BatchEnv, root: Digest, price: uint64, trip: bool, count: nat)
      modifies this
      ensures Results() == BatchResults(ring.results[..], ring.writeCursor, ring.nextMatchId,
                                        FeeSlot(env.cfg.baseMint, ring.baseFees, env.now, 0),
                                        FeeSlot(env.cfg.quoteMint, ring.quoteFees, env.now, 0),
                                        root, env.now, count, price, env.twap, trip)
      ensures baseFlushed == quoteFlushed == 0
    {
      baseMint, quoteMint, baseFlushed, quoteFlushed, feeBatchSlot := env.cfg.baseMint, env.cfg.quoteMint, 0, 0, env.now;
      inclusionRoot, batchSlot, matchCount, clearingPrice, twap, tripped := root, env.now, count, price, env.twap, trip;
    }

    /** Pass 1 and the two sorts. */
    method LoadBooks(env: BatchEnv, sel: seq<nat>)
      returns (r: Option<MatchingError>, bids: seq<Order>, asks: seq<Order>, inclusion: seq<Digest>, ghost c: Collected)
      modifies slots
      ensures Collect(env, old(slots[..]), sel, |sel|) == if r.Some? then Err(r.value) else Ok(c)
      ensures r.None? ==>
        && c.slots == slots[..] && c.inclusion == inclusion && bids == Sort(Bid, c.bids) && asks == Sort(Ask, c.asks)
        && (forall k :: 0 <= k < |bids| ==> bids[k].slot < slots.Length)
        && (forall k :: 0 <= k < |asks| ==> asks[k].slot < slots.Length)
    {
      ghost var before := slots[..];
      r, bids, asks, inclusion := LoadOrders(env, sel);
      c := Collected(slots[..], bids, asks, inclusion);
      if r.None? {
        CopiesInRange(env, before, sel);
        bids, asks := Sort(Bid, bids), Sort(Ask, asks);
      }
    }

    /** `run_batch_handler`. When it fails, what it has written is discarded by the runtime. */
    method RunBatchHandler(env: BatchEnv, sel: seq<nat>) returns (r: Option<MatchingError>, ghost fills: seq<Fill>)
      requires Valid()
      modifies this, slots, ring, ring.results
      ensures Valid()
      ensures RunBatch(env, old(slots[..]), old(Results()), sel) ==
              if r.Some? then Err(r.value) else Ok(Outcome(slots[..], Results(), fills))
    {
      fills := [];
      r := Guard(env, sel);
      if r.Some? { return; }
      ghost var br := Results();
      ghost var c;
      var bids, asks, inclusion;
      r, bids, asks, inclusion, c := LoadBooks(env, sel);
      if r.Some? { return; }
      var price, trip, count;
      ghost var final;
      r, price, trip, count, final := MatchAndWrite(env, bids, asks);
      assert Clear(env, StartPass(c, br)) == if r.Some? then Err(r.value) else Ok(Cleared(final, price, trip));
      if r.Some? { return; }
      var root := ComputeInclusionRoot(env.hs.sha2, inclusion);
      WriteSummary(env, root, price, trip, count);
      assert Results() == Publish(env, br, Cleared(final, price, trip), inclusion);
      r := FlushFeeNotes(env);
      fills := final.fills;
    }

    method RestoreArrays(savedSlots: seq<PendingOrder>, savedRing: seq<MatchResult>)
      requires |savedSlots| == slots.Length && |savedRing| == ring.results.Length
      modifies slots, ring.results
      ensures slots[..] == savedSlots && ring.results[..] == savedRing
    {
      forall i | 0 <= i < slots.Length { slots[i] := savedSlots[i]; }
      forall i | 0 <= i < ring.results.Length { ring.results[i] := savedRing[i]; }
    }

    /** What the runtime does with a failed instruction: every account is as it was. */
    method Restore(savedSlots: seq<PendingOrder>, saved: BatchResults)
      requires Valid() && |savedSlots| == slots.Length && |saved.ring| == BATCH_RESULTS_CAPACITY
      requires saved.baseFees.batchSlot == saved.quoteFees.batchSlot
      modifies this, slots, ring, ring.results
      ensures Valid() && slots[..] == savedSlots && Results() == saved
    {
      RestoreArrays(savedSlots, saved.ring);
      ring.writeCursor, ring.nextMatchId := saved.cursor, saved.nextId;
      ring.baseFees, ring.quoteFees := saved.baseFees.accumulated, saved.quoteFees.accumulated;
      baseMint, quoteMint, feeBatchSlot := saved.baseFees.mint, saved.quoteFees.mint, saved.baseFees.batchSlot;
      baseFlushed, quoteFlushed := saved.baseFees.flushed, saved.quoteFees.flushed;
      inclusionRoot, batchSlot, matchCount := saved.inclusionRoot, saved.batchSlot, saved.matchCount;
      clearingPrice, twap, tripped := saved.clearingPrice, saved.twap, saved.tripped;
    }

    /** `run_batch` as a transaction: all of it, or nothing. */
    method RunBatchTransaction(env: BatchEnv, sel: seq<nat>) returns (r: Option<MatchingError>, ghost fills: seq<Fill>)
      requires Valid()
      modifies this, slots, ring, ring.results
      ensures Valid()
      ensures match RunBatch(env, old(slots[..]), old(Results()), sel)
        case Ok(o) => r == None && slots[..] == o.slots && Results() == o.results && fills == o.fills
        case Err(e) => r == Some(e) && slots[..] == old(slots[..]) && Results() == old(Results())
    {
      var savedSlots, saved := slots[..], Results();
      r, fills := RunBatchHandler(env, sel);
      if r.Some? {
        Restore(savedSlots, saved);
      }
    }
  }

  lemma ClearInRange(env: BatchEnv, s: Pass, n: nat)
    requires |s.ring| == BATCH_RESULTS_CAPACITY && Clear(env, s).Ok? && InRange(s, n)
    ensures InRange(Clear(env, s).value.pass, n)
  {
    var r := ClearingPrice(s.bids, s.asks);
    if r.Some? && !Deviates(r.value.0, env.twap, env.cfg.circuitBps) {
      FinalInRange(TermsOf(env, r.value.0), s, n);
    }
  }

  lemma {:induction false} WriteBackAppends(slots: seq<PendingOrder>, first: seq<Order>, second: seq<Order>)
    ensures WriteBack(slots, first + second) == WriteBack(WriteBack(slots, first), second)
  {
    if second == [] {
      assert first + second == first;
    } else {
      WriteBackAppends(slots, first, second[..|second| - 1]);
      assert (first + second)[..|first + second| - 1] == first + second[..|second| - 1];
    }
  }
}
