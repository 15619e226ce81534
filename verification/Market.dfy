// The matching engine's instructions as functions on account contents: submit, cancel, run a batch.
module Market {
  import opened Prelude
  import opened Crypto
  import opened InclusionTree
  import opened Orders
  import opened Auction
  import opened Matching

  const SETTLEMENT_BUFFER_SLOTS: uint64 := 20
  const MAX_PENDING_ACCOUNTS_PER_BATCH: nat := 24

  // ---------- submit and cancel ----------

  datatype SubmitArgs = SubmitArgs(
    market: Digest,
    slotIdx: uint8,
    side: uint8,
    orderType: uint8,
    amount: uint64,
    minFill: uint64,
    limit: uint64,
    noteAmount: uint64,
    expiry: uint64,
    orderId: OrderId,
    note: Digest,
    owner: Digest)

  /** `submit_order` on the slot it addresses. */
  function SubmitOrder(hs: Hashes, p: PendingOrder, a: SubmitArgs, signer: Digest, now: uint64): Result<PendingOrder, MatchingError> {
    if a.side != SIDE_BID && a.side != SIDE_ASK then Err(InvalidSide)
    else if a.orderType != TYPE_LIMIT && a.orderType != TYPE_IOC && a.orderType != TYPE_FOK then Err(InvalidOrderType)
    else if a.amount == 0 then Err(ZeroAmount)
    else if a.limit == 0 then Err(ZeroPrice)
    else if a.orderId == 0 then Err(InvalidOrderId)
    else if a.minFill > a.amount then Err(AmountBelowMinOrderSize)
    else if (if a.side == SIDE_BID then a.amount * a.limit else a.amount) > a.noteAmount then Err(NotionalExceedsNoteValue)
    else if a.expiry <= now then Err(ExpiryInPast)
    else if p.tradingKey != signer then Err(UnauthorizedTradingKey)
    else if p.market != a.market then Err(MarketMismatch)
    else if p.slotIdx != a.slotIdx then Err(InvalidPendingSlot)
    else if p.status != STATUS_EMPTY && p.status != STATUS_MATCHED && p.status != STATUS_EXPIRED && p.status != STATUS_CANCELLED
      then Err(SlotAlreadyOccupied)
    else
      Ok(PendingOrder(p.tradingKey, p.market, STATUS_PENDING, a.side, a.orderType, p.slotIdx, now, a.expiry,
                      a.limit, a.amount, a.amount, 0, a.minFill, a.noteAmount, a.note, a.owner, a.orderId,
                      hs.inclusionSha(now, a.note, signer)))
  }

  /** `cancel_order` on the slot it addresses. */
  function CancelOrder(p: PendingOrder, signer: Digest, market: Digest, slotIdx: uint8): Result<PendingOrder, MatchingError> {
    if p.tradingKey != signer then Err(UnauthorizedTradingKey)
    else if p.market != market then Err(MarketMismatch)
    else if p.slotIdx != slotIdx then Err(InvalidPendingSlot)
    else if p.status != STATUS_PENDING then Err(OrderNotFound)
    else Ok(p.(status := STATUS_CANCELLED, amount := 0, limit := 0, noteAmount := 0, minFill := 0, note := 0, owner := 0, orderId := 0))
  }

  // ---------- the inputs and outputs of a batch ----------

  datatype MatchingConfig = MatchingConfig(
    market: Digest,
    baseMint: Digest,
    quoteMint: Digest,
    pythAccount: Digest,
    circuitBps: uint64,
    minOrderSize: uint64)

  /** Everything `run_batch` reads besides the slots and the batch account. */
  datatype BatchEnv = BatchEnv(
    hs: Hashes,
    cfg: MatchingConfig,
    market: Digest,
    oracleAccount: Digest,
    authority: Digest,
    teePubkey: Digest,
    feeRate: uint16,
    protocolOwner: Digest,
    now: uint64,
    twap: uint64)

  datatype FeeSlot = FeeSlot(mint: Digest, accumulated: uint64, batchSlot: uint64, flushed: Digest)

  datatype BatchResults = BatchResults(
    ring: seq<MatchResult>,
    cursor: uint64,
    nextId: uint64,
    baseFees: FeeSlot,
    quoteFees: FeeSlot,
    inclusionRoot: Digest,
    batchSlot: uint64,
    matchCount: nat,
    clearingPrice: uint64,
    twap: uint64,
    tripped: bool)

  // ---------- pass 1: drain and collect ----------

  /** Too close to expiry to settle in time. */
  predicate Drained(env: BatchEnv, p: PendingOrder) {
    p.Pending() && p.expiry <= SatAdd(env.now, SETTLEMENT_BUFFER_SLOTS)
  }

  /** Takes part in the batch. */
  predicate Eligible(env: BatchEnv, p: PendingOrder) {
    p.Pending() && !Drained(env, p) && !(p.amount < env.cfg.minOrderSize && env.cfg.minOrderSize > 0)
  }

  function Expire(p: PendingOrder): PendingOrder {
    p.(status := STATUS_EXPIRED, amount := 0, note := 0)
  }

  datatype Collected = Collected(slots: seq<PendingOrder>, bids: seq<Order>, asks: seq<Order>, inclusion: seq<Digest>)

  /** One account of pass 1. An index outside the program's accounts is an account it does not own. */
  function Visit(env: BatchEnv, c: Collected, i: nat): Result<Collected, MatchingError> {
    if i >= |c.slots| then Err(PendingOrderInvalidOwner)
    else
      var p := c.slots[i];
      if p.market != env.market then Err(MarketMismatch)
      else if Drained(env, p) then Ok(c.(slots := c.slots[i := Expire(p)]))
      else if !Eligible(env, p) then Ok(c)
      else
        var c' := c.(inclusion := c.inclusion + [p.inclusion]);
        if p.side == SIDE_BID then Ok(c'.(bids := c.bids + [Snapshot(p, i)]))
        else if p.side == SIDE_ASK then Ok(c'.(asks := c.asks + [Snapshot(p, i)]))
        else Ok(c')
  }

  /** Pass 1 over the first `k` accounts. */
  function Collect(env: BatchEnv, slots: seq<PendingOrder>, sel: seq<nat>, k: nat): Result<Collected, MatchingError>
    requires k <= |sel|
  {
    if k == 0 then Ok(Collected(slots, [], [], []))
    else
      var c :- Collect(env, slots, sel, k - 1);
      Visit(env, c, sel[k - 1])
  }

  // ---------- clearing ----------

  /** `deviates_by_more_than_bps`; neither 128-bit product can saturate. */
  predicate Deviates(p: uint64, reference: uint64, bps: uint64) {
    reference == 0 || (if p >= reference then p - reference else reference - p) * 10_000 > reference * bps
  }

  function TermsOf(env: BatchEnv, price: uint64): Terms {
    Terms(env.hs, price, env.twap, env.now, env.cfg.baseMint, env.cfg.quoteMint, env.feeRate)
  }

  /** The pass a batch starts from: sorted books, empty accumulators. */
  function StartPass(c: Collected, br: BatchResults): Pass {
    Pass(Sort(Bid, c.bids), Sort(Ask, c.asks), 0, 0, [], br.ring, br.cursor, br.nextId, 0, 0)
  }

  datatype Cleared = Cleared(pass: Pass, price: uint64, tripped: bool)

  /** Price, circuit breaker, and the matching pass. */
  function Clear(env: BatchEnv, s: Pass): Result<Cleared, MatchingError>
    requires |s.ring| == BATCH_RESULTS_CAPACITY
  {
    match ClearingPrice(s.bids, s.asks)
    case None => Ok(Cleared(s, 0, false))
    case Some((p, _)) =>
      if Deviates(p, env.twap, env.cfg.circuitBps) then Ok(Cleared(s, 0, true))
      else
        var f :- Run(TermsOf(env, p), s);
        Ok(Cleared(f, p, false))
  }

  // ---------- writing the slots back ----------

  /** `apply_slot_updates` for one working copy. */
  function ApplyOrder(p: PendingOrder, o: Order): PendingOrder {
    if o.orderType == TYPE_KILLED then p.(status := STATUS_CANCELLED, amount := 0, note := 0)
    else if o.amount == 0 then
      p.(status := STATUS_MATCHED, filled := p.total, amount := 0, note := 0, limit := 0, noteAmount := 0,
         minFill := 0, owner := 0, orderId := 0)
    else if o.amount < p.amount then
      var q := p.(filled := SatAdd(p.filled, p.amount - o.amount), amount := o.amount, note := o.note, noteAmount := o.noteAmount);
      if o.orderType == TYPE_IOC then q.(status := STATUS_CANCELLED, amount := 0, note := 0) else q
    else p
  }

  function WriteBack(slots: seq<PendingOrder>, orders: seq<Order>): (r: seq<PendingOrder>)
    ensures |r| == |slots|
  {
    if orders == [] then slots
    else
      var w := WriteBack(slots, orders[..|orders| - 1]);
      var o := orders[|orders| - 1];
      if o.slot < |w| then w[o.slot := ApplyOrder(w[o.slot], o)] else w
  }

  // ---------- fee notes and the whole instruction ----------

  /** The fee note of one accumulator; zero fees leave its field alone. */
  function FlushFee(env: BatchEnv, f: FeeSlot, role: uint8): Result<FeeSlot, MatchingError> {
    if f.accumulated == 0 then Ok(f)
    else
      var c := DerivedNote(env.hs, f.mint, f.accumulated, env.protocolOwner, env.now, role);
      if c.None? then Err(PoseidonFailed) else Ok(f.(flushed := c.value))
  }

  /** The batch account after the pass, before fee notes are flushed. */
  ghost function Publish(env: BatchEnv, br: BatchResults, c: Cleared, inclusion: seq<Digest>): BatchResults {
    BatchResults(c.pass.ring, c.pass.cursor, c.pass.nextId,
                 FeeSlot(env.cfg.baseMint, c.pass.baseFees, env.now, 0),
                 FeeSlot(env.cfg.quoteMint, c.pass.quoteFees, env.now, 0),
                 InclusionRoot(env.hs.sha2, inclusion), env.now, |c.pass.fills|, c.price, env.twap, c.tripped)
  }

  function FlushFees(env: BatchEnv, br: BatchResults): Result<BatchResults, MatchingError> {
    if env.protocolOwner == 0 || br.tripped then Ok(br)
    else
      var base :- FlushFee(env, br.baseFees, FEE_ROLE_BASE);
      var quote :- FlushFee(env, br.quoteFees, FEE_ROLE_QUOTE);
      Ok(br.(baseFees := base, quoteFees := quote))
  }

  datatype Outcome = Outcome(slots: seq<PendingOrder>, results: BatchResults, fills: seq<Fill>)

  function Guard(env: BatchEnv, sel: seq<nat>): Option<MatchingError> {
    if env.cfg.market != env.market then Some(MarketMismatch)
    else if env.oracleAccount != env.cfg.pythAccount then Some(OracleAccountMismatch)
    else if env.authority != env.teePubkey then Some(NotRootKey)
    else if env.twap == 0 then Some(OracleZeroPrice)
    else if |sel| > MAX_PENDING_ACCOUNTS_PER_BATCH then Some(OrderbookFull)
    else None
  }

  /** `run_batch`: `sel` lists the slot accounts passed as remaining accounts. */
  ghost function RunBatch(env: BatchEnv, slots: seq<PendingOrder>, br: BatchResults, sel: seq<nat>): Result<Outcome, MatchingError>
    requires |br.ring| == BATCH_RESULTS_CAPACITY
  {
    var g := Guard(env, sel);
    if g.Some? then Err(g.value)
    else
      var c :- Collect(env, slots, sel, |sel|);
      var cleared :- Clear(env, StartPass(c, br));
      var results :- FlushFees(env, Publish(env, br, cleared, c.inclusion));
      Ok(Outcome(WriteBack(c.slots, cleared.pass.bids + cleared.pass.asks), results, cleared.pass.fills))
  }
}
