// The two-pointer matching pass over the sorted books at the clearing price.
module Matching {
  import opened Prelude
  import opened Crypto
  import opened Orders

  const BATCH_RESULTS_CAPACITY: nat := 16
  const STATUS_FILLED: uint8 := 1
  const NO_ORDER: OrderId := 0

  datatype MatchingError =
    | MarketMismatch | OracleAccountMismatch | NotRootKey | OracleZeroPrice | OrderbookFull
    | PendingOrderInvalidOwner | NotionalOverflow | FeeOverflow | ConservationViolation | PoseidonFailed
    | InvalidSide | InvalidOrderType | ZeroAmount | ZeroPrice | InvalidOrderId | AmountBelowMinOrderSize
    | NotionalExceedsNoteValue | ExpiryInPast | UnauthorizedTradingKey | InvalidPendingSlot
    | SlotAlreadyOccupied | OrderNotFound

  /** One side of a `MatchResult`: the note it consumes, the change note it mints, and the re-lock request. */
  datatype Leg = Leg(
    note: Digest,
    tradingKey: Digest,
    owner: Digest,
    noteValue: uint64,
    change: uint64,
    fee: uint64,
    changeNote: Digest,
    relockOrder: OrderId,
    relockExpiry: uint64)

  datatype MatchResult = MatchResult(
    buyer: Leg,
    seller: Leg,
    base: uint64,
    quote: uint64,
    price: uint64,
    twap: uint64,
    batchSlot: uint64,
    matchId: uint64,
    status: uint8)

  /** A match together with the two orders the TEE knows it came from. */
  datatype Fill = Fill(bidSlot: nat, askSlot: nat, buyerOrder: OrderId, sellerOrder: OrderId, result: MatchResult)

  /** What is fixed during one matching pass. */
  datatype Terms = Terms(
    hs: Hashes,
    price: uint64,
    twap: uint64,
    now: uint64,
    baseMint: Digest,
    quoteMint: Digest,
    feeRate: uint16)

  /** The state of the pass: both books with their cursors, what has been matched, and the batch account. */
  datatype Pass = Pass(
    bids: seq<Order>,
    asks: seq<Order>,
    bi: nat,
    ai: nat,
    fills: seq<Fill>,
    ring: seq<MatchResult>,
    cursor: uint64,
    nextId: uint64,
    baseFees: uint64,
    quoteFees: uint64)
  {
    predicate Live() {
      bi < |bids| && ai < |asks|
    }
  }

  // ---------- one trade ----------

  /** Floored basis points, truncated to u64. */
  function Fee(leg: uint64, rate: uint16): uint64 {
    leg * rate / 10_000 % TWO_64
  }

  /** The change note of one side, zero when nothing is left over. */
  function ChangeNote(hs: Hashes, mint: Digest, change: uint64, owner: Digest, id: uint64, role: uint8): Option<Digest> {
    if change > 0 then
      var c := DerivedNote(hs, mint, change, owner, id, role);
      if c.Some? then Some(c.value) else None
    else Some(0)
  }

  /** Only a limit order with something left to trade and something left to pay with goes on. */
  predicate Relocks(o: Order, qty: uint64, change: uint64)
    requires qty <= o.amount
  {
    o.amount - qty > 0 && o.orderType == TYPE_LIMIT && change > 0
  }

  function MakeLeg(o: Order, qty: uint64, fee: uint64, change: uint64, changeNote: Digest): Leg
    requires qty <= o.amount
  {
    var relock := Relocks(o, qty, change);
    Leg(o.note, o.tradingKey, o.owner, o.noteAmount, change, fee, changeNote,
        if relock then o.orderId else NO_ORDER, if relock then o.expiry else 0)
  }

  /** The working copy after a fill: the collateral rotates to the change note of a continuing order. */
  function AfterFill(o: Order, qty: uint64, change: uint64, changeNote: Digest): Order
    requires qty <= o.amount
  {
    if Relocks(o, qty, change)
    then o.(amount := o.amount - qty, note := changeNote, noteAmount := change)
    else o.(amount := o.amount - qty)
  }

  function Trade(t: Terms, b: Order, a: Order, id: uint64): Result<MatchResult, MatchingError> {
    var qty: uint64 := Min(b.amount, a.amount);
    if qty * t.price > U64_MAX then Err(NotionalOverflow)
    else
      var quote: uint64 := qty * t.price;
      var buyerFee := Fee(quote, t.feeRate);
      var sellerFee := Fee(qty, t.feeRate);
      if quote + buyerFee > U64_MAX || qty + sellerFee > U64_MAX then Err(FeeOverflow)
      else if b.noteAmount < quote + buyerFee || a.noteAmount < qty + sellerFee then Err(ConservationViolation)
      else
        var buyerChange: uint64 := b.noteAmount - (quote + buyerFee);
        var sellerChange: uint64 := a.noteAmount - (qty + sellerFee);
        var noteE := ChangeNote(t.hs, t.quoteMint, buyerChange, b.owner, id, CHANGE_ROLE_BUYER);
        var noteF := ChangeNote(t.hs, t.baseMint, sellerChange, a.owner, id, CHANGE_ROLE_SELLER);
        if noteE.None? || noteF.None? then Err(PoseidonFailed)
        else
          Ok(MatchResult(MakeLeg(b, qty, buyerFee, buyerChange, noteE.value),
                         MakeLeg(a, qty, sellerFee, sellerChange, noteF.value),
                         qty, quote, t.price, t.twap, t.now, id, STATUS_FILLED))
  }

  // ---------- one iteration of the loop ----------

  datatype Move = SkipPrice | KillBid | KillAsk | SkipBid | SkipAsk | Cross

  /** Which branch the loop takes. */
  function NextMove(t: Terms, s: Pass): Move
    requires s.Live()
  {
    var b, a := s.bids[s.bi], s.asks[s.ai];
    var qty := Min(b.amount, a.amount);
    if b.limit < t.price || a.limit > t.price then SkipPrice
    else if b.orderType == TYPE_FOK && qty < b.amount then KillBid
    else if a.orderType == TYPE_FOK && qty < a.amount then KillAsk
    else if qty < b.minFill || qty < a.minFill then (if b.amount <= a.amount then SkipBid else SkipAsk)
    else Cross
  }

  function Kill(o: Order): Order {
    o.(amount := 0, orderType := TYPE_KILLED)
  }

  /** The pass after a trade. */
  function Book(s: Pass, m: MatchResult): Pass
    requires s.Live() && |s.ring| == BATCH_RESULTS_CAPACITY
    requires m.base <= s.bids[s.bi].amount && m.base <= s.asks[s.ai].amount
  {
    var b, a := s.bids[s.bi], s.asks[s.ai];
    var b' := AfterFill(b, m.base, m.buyer.change, m.buyer.changeNote);
    var a' := AfterFill(a, m.base, m.seller.change, m.seller.changeNote);
    Pass(s.bids[s.bi := b'],
         s.asks[s.ai := a'],
         if b'.amount == 0 then s.bi + 1 else s.bi,
         if a'.amount == 0 then s.ai + 1 else s.ai,
         s.fills + [Fill(b.slot, a.slot, b.orderId, a.orderId, m)],
         s.ring[s.cursor % BATCH_RESULTS_CAPACITY := m],
         SatAdd(s.cursor, 1),
         SatAdd(s.nextId, 1),
         SatAdd(s.baseFees, m.seller.fee),
         SatAdd(s.quoteFees, m.buyer.fee))
  }

  function Step(t: Terms, s: Pass): Result<Pass, MatchingError>
    requires s.Live() && |s.ring| == BATCH_RESULTS_CAPACITY
  {
    var b, a := s.bids[s.bi], s.asks[s.ai];
    match NextMove(t, s)
    case SkipPrice => Ok(s.(bi := if b.limit < t.price then s.bi + 1 else s.bi,
                            ai := if a.limit > t.price then s.ai + 1 else s.ai))
    case KillBid => Ok(s.(bids := s.bids[s.bi := Kill(b)], bi := s.bi + 1))
    case KillAsk => Ok(s.(asks := s.asks[s.ai := Kill(a)], ai := s.ai + 1))
    case SkipBid => Ok(s.(bi := s.bi + 1))
    case SkipAsk => Ok(s.(ai := s.ai + 1))
    case Cross =>
      var m :- Trade(t, b, a, s.nextId);
      Ok(Book(s, m))
  }

  /** Every iteration that does not fail moves a cursor and keeps the books' lengths. */
  lemma StepShape(t: Terms, s: Pass)
    requires s.Live() && |s.ring| == BATCH_RESULTS_CAPACITY && Step(t, s).Ok?
    ensures
      var s' := Step(t, s).value;
      && |s'.bids| == |s.bids| && |s'.asks| == |s.asks| && |s'.ring| == BATCH_RESULTS_CAPACITY
      && s.bi <= s'.bi <= s.bi + 1 && s.ai <= s'.ai <= s.ai + 1
      && s'.bi + s'.ai > s.bi + s.ai
      && (NextMove(t, s).Cross? ==> Trade(t, s.bids[s.bi], s.asks[s.ai], s.nextId).Ok?)
      && (if NextMove(t, s).Cross? then |s'.fills| == |s.fills| + 1 && s'.fills[..|s.fills|] == s.fills
          else s'.fills == s.fills)
  {
  }

  /** The whole pass from state `s`. */
  function Run(t: Terms, s: Pass): Result<Pass, MatchingError>
    requires |s.ring| == BATCH_RESULTS_CAPACITY
    decreases |s.bids| + |s.asks| - s.bi - s.ai
  {
    if !s.Live() then Ok(s)
    else
      var s' :- Step(t, s);
      StepShape(t, s);
      Run(t, s')
  }

  // ---------- the program: arrays, cursors and accumulators updated in place ----------

  /** The part of the `BatchResults` account the pass writes. */
  class ResultRing {
    const results: array<MatchResult>
    var writeCursor: uint64
    var nextMatchId: uint64
    var baseFees: uint64
    var quoteFees: uint64

    constructor (empty: MatchResult)
      ensures fresh(results) && results.Length == BATCH_RESULTS_CAPACITY
      ensures writeCursor == nextMatchId == 0 && baseFees == quoteFees == 0
      ensures forall i :: 0 <= i < results.Length ==> results[i] == empty
    {
      results := new MatchResult[BATCH_RESULTS_CAPACITY](_ => empty);
      writeCursor, nextMatchId, baseFees, quoteFees := 0, 0, 0, 0;
    }

    /** Records one match and its fees. */
    method Record(m: MatchResult)
      requires results.Length == BATCH_RESULTS_CAPACITY
      modifies this, results
      ensures results[..] == old(results[..])[old(writeCursor) % BATCH_RESULTS_CAPACITY := m]
      ensures writeCursor == SatAdd(old(writeCursor), 1) && nextMatchId == SatAdd(old(nextMatchId), 1)
      ensures baseFees == SatAdd(old(baseFees), m.seller.fee)
      ensures quoteFees == SatAdd(old(quoteFees), m.buyer.fee)
    {
      results[writeCursor % BATCH_RESULTS_CAPACITY] := m;
      writeCursor := SatAdd(writeCursor, 1);
      nextMatchId := SatAdd(nextMatchId, 1);
      baseFees := SatAdd(baseFees, m.seller.fee);
      quoteFees := SatAdd(quoteFees, m.buyer.fee);
    }
  }

  /** The arithmetic and the commitments of one trade, in the order the program checks them. */
  method PrepareTrade(t: Terms, b: Order, a: Order, id: uint64) returns (r: Result<MatchResult, MatchingError>)
    ensures r == Trade(t, b, a, id)
  {
    var qty: uint64 := Min(b.amount, a.amount);
    var notional := qty * t.price;
    if notional > U64_MAX {
      return Err(NotionalOverflow);
    }
    var quote: uint64 := notional;
    var buyerFee := Fee(quote, t.feeRate);
    var sellerFee := Fee(qty, t.feeRate);
    var buyerCharge := CheckedAdd(quote, buyerFee);
    if buyerCharge.None? {
      return Err(FeeOverflow);
    }
    var sellerCharge := CheckedAdd(qty, sellerFee);
    if sellerCharge.None? {
      return Err(FeeOverflow);
    }
    var buyerChange := CheckedSub(b.noteAmount, buyerCharge.value);
    if buyerChange.None? {
      return Err(ConservationViolation);
    }
    var sellerChange := CheckedSub(a.noteAmount, sellerCharge.value);
    if sellerChange.None? {
      return Err(ConservationViolation);
    }
    var noteE := ChangeNote(t.hs, t.quoteMint, buyerChange.value, b.owner, id, CHANGE_ROLE_BUYER);
    if noteE.None? {
      return Err(PoseidonFailed);
    }
    var noteF := ChangeNote(t.hs, t.baseMint, sellerChange.value, a.owner, id, CHANGE_ROLE_SELLER);
    if noteF.None? {
      return Err(PoseidonFailed);
    }
    var buyer := MakeLeg(b, qty, buyerFee, buyerChange.value, noteE.value);
    var seller := MakeLeg(a, qty, sellerFee, sellerChange.value, noteF.value);
    return Ok(MatchResult(buyer, seller, qty, quote, t.price, t.twap, t.now, id, STATUS_FILLED));
  }

  /** The pass a pair of arrays and a result account represent. */
  ghost function PassOf(bids: array<Order>, asks: array<Order>, br: ResultRing, bi: nat, ai: nat, fills: seq<Fill>): Pass
    reads bids, asks, br, br.results
  {
    Pass(bids[..], asks[..], bi, ai, fills, br.results[..], br.writeCursor, br.nextMatchId, br.baseFees, br.quoteFees)
  }

  /** The branches of the loop body that do not trade: price limits, fill-or-kill, minimum fills. */
  method SkipOrKill(t: Terms, bids: array<Order>, asks: array<Order>, br: ResultRing, bi: nat, ai: nat, ghost fills: seq<Fill>)
    returns (skipped: bool, bi': nat, ai': nat)
    requires bids != asks && br.results.Length == BATCH_RESULTS_CAPACITY
    requires bi < bids.Length && ai < asks.Length
    modifies bids, asks
    ensures skipped <==> !old(NextMove(t, PassOf(bids, asks, br, bi, ai, fills))).Cross?
    ensures skipped ==> old(Step(t, PassOf(bids, asks, br, bi, ai, fills))) == Ok(PassOf(bids, asks, br, bi', ai', fills))
    ensures !skipped ==> unchanged(bids) && unchanged(asks)
  {
    bi', ai' := bi, ai;
    if bids[bi].limit < t.price || asks[ai].limit > t.price {
      if bids[bi].limit < t.price {
        bi' := bi + 1;
      }
      if asks[ai].limit > t.price {
        ai' := ai + 1;
      }
      return true, bi', ai';
    }
    var crossable := Min(bids[bi].amount, asks[ai].amount);
    if bids[bi].orderType == TYPE_FOK && crossable < bids[bi].amount {
      bids[bi] := Kill(bids[bi]);
      return true, bi + 1, ai;
    }
    if asks[ai].orderType == TYPE_FOK && crossable < asks[ai].amount {
      asks[ai] := Kill(asks[ai]);
      return true, bi, ai + 1;
    }
    if crossable < bids[bi].minFill || crossable < asks[ai].minFill {
      if bids[bi].amount <= asks[ai].amount {
        return true, bi + 1, ai;
      } else {
        return true, bi, ai + 1;
      }
    }
    return false, bi, ai;
  }

  /** The branch that trades: it records the match, then updates both working copies in place. */
  method CrossOrders(t: Terms, bids: array<Order>, asks: array<Order>, br: ResultRing, bi: nat, ai: nat, ghost fills: seq<Fill>)
    returns (r: Result<(nat, nat), MatchingError>, ghost fills': seq<Fill>)
    requires bids != asks && br.results.Length == BATCH_RESULTS_CAPACITY
    requires bi < bids.Length && ai < asks.Length
    requires NextMove(t, PassOf(bids, asks, br, bi, ai, fills)).Cross?
    modifies bids, asks, br, br.results
    ensures old(Step(t, PassOf(bids, asks, br, bi, ai, fills))) ==
            if r.Ok? then Ok(PassOf(bids, asks, br, r.value.0, r.value.1, fills')) else Err(r.error)
    ensures r.Ok? ==> |fills'| == |fills| + 1
  {
    ghost var s := PassOf(bids, asks, br, bi, ai, fills);
    var trade := PrepareTrade(t, bids[bi], asks[ai], br.nextMatchId);
    if trade.Err? {
      return Err(trade.error), fills;
    }
    var m := trade.value;
    br.Record(m);
    fills' := fills + [Fill(bids[bi].slot, asks[ai].slot, bids[bi].orderId, asks[ai].orderId, m)];
    bids[bi] := AfterFill(bids[bi], m.base, m.buyer.change, m.buyer.changeNote);
    asks[ai] := AfterFill(asks[ai], m.base, m.seller.change, m.seller.changeNote);
    var bi' := if bids[bi].amount == 0 then bi + 1 else bi;
    var ai' := if asks[ai].amount == 0 then ai + 1 else ai;
    assert PassOf(bids, asks, br, bi', ai', fills') == Book(s, m);
    return Ok((bi', ai')), fills';
  }

  /** `generate_matches`. */
  method GenerateMatches(t: Terms, bids: array<Order>, asks: array<Order>, br: ResultRing)
    returns (r: Result<nat, MatchingError>, ghost final: Pass)
    requires bids != asks && br.results.Length == BATCH_RESULTS_CAPACITY
    modifies bids, asks, br, br.results
    ensures Run(t, old(PassOf(bids, asks, br, 0, 0, []))) == if r.Ok? then Ok(final) else Err(r.error)
    ensures r.Ok? ==> final == PassOf(bids, asks, br, final.bi, final.ai, final.fills) && r.value == |final.fills|
  {
    var produced: nat := 0;
    var bi: nat, ai: nat := 0, 0;
    ghost var fills: seq<Fill> := [];
    final := PassOf(bids, asks, br, 0, 0, fills);
    ghost var initial := final;
    while bi < bids.Length && ai < asks.Length
      invariant bi <= bids.Length && ai <= asks.Length
      invariant final == PassOf(bids, asks, br, bi, ai, fills)
      invariant Run(t, initial) == Run(t, final)
      invariant produced == |fills|
      decreases bids.Length + asks.Length - bi - ai
    {
      var skipped, bi', ai' := SkipOrKill(t, bids, asks, br, bi, ai, fills);
      if skipped {
        StepShape(t, final);
        bi, ai := bi', ai';
      } else {
        var crossed, fills' := CrossOrders(t, bids, asks, br, bi, ai, fills);
        if crossed.Err? {
          return Err(crossed.error), final;
        }
        StepShape(t, final);
        fills := fills';
        bi, ai := crossed.value.0, crossed.value.1;
        produced := produced + 1;
      }
      final := PassOf(bids, asks, br, bi, ai, fills);
    }
    return Ok(produced), final;
  }
}
