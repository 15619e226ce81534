// What a batch publishes: the circuit breaker as a band of prices around the TWAP, the summary, the
// fee notes, and when the instruction is accepted at all.
module BatchRules {
  import opened Prelude
  import opened Crypto
  import opened InclusionTree
  import opened Orders
  import opened Auction
  import opened Matching
  import opened MatchingLaws
  import opened Collateral
  import opened Market
  import opened MarketLaws
  import opened BatchLaws
  import opened BatchOutcomes
  import opened FillRules

  // ---------- the circuit breaker ----------

  /** More than `bps` basis points above or below the reference price. */
  predicate OutsideBand(p: uint64, reference: uint64, bps: uint64) {
    10_000 * p > reference * (10_000 + bps) || 10_000 * p < reference * (10_000 - bps)
  }

  lemma DeviatesOutsideBand(p: uint64, reference: uint64, bps: uint64)
    requires reference > 0
    ensures Deviates(p, reference, bps) <==> OutsideBand(p, reference, bps)
  {
    assert reference * (10_000 - bps) == reference * 10_000 - reference * bps;
    assert reference * (10_000 + bps) == reference * 10_000 + reference * bps;
  }

  ghost predicate Succeeds(env: BatchEnv, slots: seq<PendingOrder>, br: BatchResults, sel: seq<nat>) {
    |br.ring| == BATCH_RESULTS_CAPACITY && RunBatch(env, slots, br, sel).Ok?
  }

  /** The price the books of a batch clear at. */
  ghost function BookPrice(env: BatchEnv, slots: seq<PendingOrder>, br: BatchResults, sel: seq<nat>): Option<(uint64, uint64)>
    requires Succeeds(env, slots, br, sel)
  {
    ClearingPrice(FirstPass(env, slots, br, sel).bids, FirstPass(env, slots, br, sel).asks)
  }

  /** Clearing trips outside the band, and then leaves the pass where it started. */
  lemma ClearsInBand(env: BatchEnv, s: Pass)
    requires |s.ring| == BATCH_RESULTS_CAPACITY && env.twap > 0 && Clear(env, s).Ok?
    ensures
      var price := ClearingPrice(s.bids, s.asks);
      var c := Clear(env, s).value;
      var inside := price.Some? && !OutsideBand(price.value.0, env.twap, env.cfg.circuitBps);
      && c.tripped == (price.Some? && !inside)
      && c.price == (if inside then price.value.0 else 0)
      && (!inside ==> c.pass == s)
  {
    if ClearingPrice(s.bids, s.asks).Some? {
      DeviatesOutsideBand(ClearingPrice(s.bids, s.asks).value.0, env.twap, env.cfg.circuitBps);
    }
  }

  lemma SucceedsMeans(env: BatchEnv, slots: seq<PendingOrder>, br: BatchResults, sel: seq<nat>)
    requires Succeeds(env, slots, br, sel)
    ensures env.twap > 0 && Collect(env, slots, sel, |sel|).Ok? && Clear(env, FirstPass(env, slots, br, sel)).Ok?
  {
  }

  /** The breaker trips exactly when the books clear at a price outside the band; the published price
      is the books' own if it lies in the band, and zero otherwise. */
  lemma TripsOutsideBand(env: BatchEnv, slots: seq<PendingOrder>, br: BatchResults, sel: seq<nat>)
    requires Succeeds(env, slots, br, sel)
    ensures
      var price := BookPrice(env, slots, br, sel);
      var r := RunBatch(env, slots, br, sel).value.results;
      && r.tripped == (price.Some? && OutsideBand(price.value.0, env.twap, env.cfg.circuitBps))
      && r.clearingPrice == (if price.Some? && !r.tripped then price.value.0 else 0)
  {
    SucceedsMeans(env, slots, br, sel);
    ClearsInBand(env, FirstPass(env, slots, br, sel));
    PublishedPrice(env, slots, br, sel);
  }

  lemma TrippedFlush(env: BatchEnv, r: BatchResults)
    requires r.tripped
    ensures FlushFees(env, r) == Ok(r)
  {
  }

  /** A tripped batch matches nothing and records nothing: no fill, no price, no fee, no fee note, and
      the ring, its cursor and the next id as they were. */
  lemma TrippedRecordsNothing(env: BatchEnv, slots: seq<PendingOrder>, br: BatchResults, sel: seq<nat>)
    requires Succeeds(env, slots, br, sel) && RunBatch(env, slots, br, sel).value.results.tripped
    ensures
      var o := RunBatch(env, slots, br, sel).value;
      && o.fills == [] && o.results.matchCount == 0 && o.results.clearingPrice == 0
      && o.results.ring == br.ring && o.results.cursor == br.cursor && o.results.nextId == br.nextId
      && o.results.baseFees == FeeSlot(env.cfg.baseMint, 0, env.now, 0)
      && o.results.quoteFees == FeeSlot(env.cfg.quoteMint, 0, env.now, 0)
  {
    var s, c := FirstPass(env, slots, br, sel), Collect(env, slots, sel, |sel|).value;
    SucceedsMeans(env, slots, br, sel);
    PublishedPrice(env, slots, br, sel);
    ClearsInBand(env, s);
    TrippedFlush(env, Publish(env, br, Clear(env, s).value, c.inclusion));
  }

  // ---------- draining ----------

  /** A selected resting order that will not outlast the settlement buffer. */
  predicate TooLate(env: BatchEnv, p: PendingOrder) {
    p.status == STATUS_PENDING && p.expiry <= env.now + 20
  }

  function AfterDraining(env: BatchEnv, p: PendingOrder, selected: bool): PendingOrder {
    if selected && TooLate(env, p) then p.(status := STATUS_EXPIRED, amount := 0, note := 0) else p
  }

  lemma DrainedIsTooLate(env: BatchEnv, p: PendingOrder)
    ensures Drained(env, p) <==> TooLate(env, p)
  {
  }

  /** A slot that takes no part in the matching of a batch is expired, if selected and too late, or
      left alone. */
  lemma DrainsExactly(env: BatchEnv, slots: seq<PendingOrder>, br: BatchResults, sel: seq<nat>, i: nat)
    requires BatchRuns(env, slots, br, sel) && i < |slots|
    requires i !in sel || slots[i].status != STATUS_PENDING || slots[i].expiry <= env.now + 20
             || slots[i].amount < env.cfg.minOrderSize
    ensures |RunBatch(env, slots, br, sel).value.slots| == |slots|
    ensures RunBatch(env, slots, br, sel).value.slots[i] == AfterDraining(env, slots[i], i in sel)
  {
    var side, k := FindCopy(FirstPass(env, slots, br, sel), i);
    DrainedIsTooLate(env, slots[i]);
    EligibleExactly(env, slots[i]);
    if k.Some? {
      BatchTouches(env, slots, br, sel, side, k.value);
      assert false;
    } else {
      BatchLeaves(env, slots, br, sel, i);
    }
  }

  lemma UntouchedCopy(p: PendingOrder, slot: nat)
    requires SlotOk(p) && p.Pending()
    ensures ApplyOrder(p, Snapshot(p, slot)) == p
  {
  }

  /** A tripped batch changes a slot only by draining it. */
  lemma TrippedOnlyDrains(env: BatchEnv, slots: seq<PendingOrder>, br: BatchResults, sel: seq<nat>, i: nat)
    requires BatchRuns(env, slots, br, sel) && SlotsOk(slots) && i < |slots|
    requires RunBatch(env, slots, br, sel).value.results.tripped
    ensures |RunBatch(env, slots, br, sel).value.slots| == |slots|
    ensures RunBatch(env, slots, br, sel).value.slots[i] == AfterDraining(env, slots[i], i in sel)
  {
    SucceedsMeans(env, slots, br, sel);
    PublishedPrice(env, slots, br, sel);
    ClearsInBand(env, FirstPass(env, slots, br, sel));
    DrainedIsTooLate(env, slots[i]);
    EligibleExactly(env, slots[i]);
    var side, k := FindCopy(FirstPass(env, slots, br, sel), i);
    if k.Some? {
      BatchTouches(env, slots, br, sel, side, k.value);
      UntouchedCopy(slots[i], i);
    } else {
      BatchLeaves(env, slots, br, sel, i);
    }
  }

  // ---------- the summary ----------

  /** The inclusion commitments of the selected orders that take part, in the order of the accounts. */
  ghost function Included(env: BatchEnv, slots: seq<PendingOrder>, sel: seq<nat>): seq<Digest> {
    if sel == [] then []
    else
      var i := sel[|sel| - 1];
      Included(env, slots, sel[..|sel| - 1]) +
      if i < |slots| && slots[i].status == STATUS_PENDING && slots[i].expiry > env.now + 20
         && slots[i].amount >= env.cfg.minOrderSize then [slots[i].inclusion] else []
  }

  lemma {:induction false} CollectsIncluded(env: BatchEnv, slots: seq<PendingOrder>, sel: seq<nat>, k: nat)
    requires k <= |sel| && Collect(env, slots, sel, k).Ok?
    ensures Collect(env, slots, sel, k).value.inclusion == Included(env, slots, sel[..k])
  {
    if k > 0 {
      CollectsIncluded(env, slots, sel, k - 1);
      CollectFacts(env, slots, sel, k - 1);
      assert sel[..k][..k - 1] == sel[..k - 1];
      EligibleExactly(env, slots[sel[k - 1]]);
      DrainedIsTooLate(env, slots[sel[k - 1]]);
    }
  }

  /** The summary names the batch, counts its matches, and commits to exactly the orders that took part. */
  lemma SummaryOfBatch(env: BatchEnv, slots: seq<PendingOrder>, br: BatchResults, sel: seq<nat>)
    requires Succeeds(env, slots, br, sel)
    ensures
      var o := RunBatch(env, slots, br, sel).value;
      && o.results.inclusionRoot == InclusionRoot(env.hs.sha2, Included(env, slots, sel))
      && o.results.batchSlot == env.now && o.results.twap == env.twap && o.results.matchCount == |o.fills|
  {
    assert sel[..|sel|] == sel;
    CollectsIncluded(env, slots, sel, |sel|);
    var c := Collect(env, slots, sel, |sel|).value;
    FlushFacts(env, Publish(env, br, Clear(env, StartPass(c, br)).value, c.inclusion));
  }

  // ---------- fee notes ----------

  function FeeRole(side: Side): uint8 {
    match side
    case Bid => FEE_ROLE_QUOTE
    case Ask => FEE_ROLE_BASE
  }

  function FeeMint(env: BatchEnv, side: Side): Digest {
    match side
    case Bid => env.cfg.quoteMint
    case Ask => env.cfg.baseMint
  }

  function FeeAccount(r: BatchResults, side: Side): FeeSlot {
    match side
    case Bid => r.quoteFees
    case Ask => r.baseFees
  }

  lemma FlushedNote(env: BatchEnv, r: BatchResults, side: Side)
    requires FlushFees(env, r).Ok? && FeeAccount(r, side).flushed == 0
    ensures
      var f := FeeAccount(r, side);
      var note := FeeAccount(FlushFees(env, r).value, side).flushed;
      if f.accumulated > 0 && env.protocolOwner != 0 && !r.tripped
      then Some(note) == DerivedNote(env.hs, f.mint, f.accumulated, env.protocolOwner, env.now, FeeRole(side))
      else note == 0
    ensures FeeAccount(FlushFees(env, r).value, side) == FeeAccount(r, side).(flushed := FeeAccount(FlushFees(env, r).value, side).flushed)
  {
  }

  /** A batch leaves one fee note per mint in which its own fills paid fees, for their sum, to the
      protocol owner, under this batch's slot; none when no owner is set. */
  lemma FeeNoteOfBatch(env: BatchEnv, slots: seq<PendingOrder>, br: BatchResults, sel: seq<nat>, side: Side)
    requires BatchRuns(env, slots, br, sel)
    ensures
      var o := RunBatch(env, slots, br, sel).value;
      var fees: uint64 := Min(U64_MAX, FeesOn(o.fills, side));
      var account := FeeAccount(o.results, side);
      && account.mint == FeeMint(env, side) && account.accumulated == fees && account.batchSlot == env.now
      && (if fees > 0 && env.protocolOwner != 0
          then Some(account.flushed) == DerivedNote(env.hs, FeeMint(env, side), fees, env.protocolOwner, env.now, FeeRole(side))
          else account.flushed == 0)
  {
    var c := Collect(env, slots, sel, |sel|).value;
    var cleared := Clear(env, StartPass(c, br)).value;
    BatchFees(env, slots, br, sel, side);
    FlushedNote(env, Publish(env, br, cleared, c.inclusion), side);
    PublishedPrice(env, slots, br, sel);
    if cleared.tripped {
      TrippedRecordsNothing(env, slots, br, sel);
    }
  }

  // ---------- when the instruction is accepted ----------

  /** What `run_batch` demands of its accounts, its signer and the oracle. */
  ghost predicate Admitted(env: BatchEnv, slots: seq<PendingOrder>, sel: seq<nat>) {
    && env.cfg.market == env.market && env.oracleAccount == env.cfg.pythAccount
    && env.authority == env.teePubkey && env.twap > 0 && |sel| <= 24
    && forall k :: 0 <= k < |sel| ==> sel[k] < |slots| && slots[sel[k]].market == env.market
  }

  lemma VisitOk(env: BatchEnv, slots: seq<PendingOrder>, done: seq<nat>, c: Collected, i: nat)
    requires CollectedFrom(env, slots, done, c)
    ensures Visit(env, c, i).Ok? <==> i < |slots| && slots[i].market == env.market
  {
  }

  lemma {:induction false} CollectOkExactly(env: BatchEnv, slots: seq<PendingOrder>, sel: seq<nat>, k: nat)
    requires k <= |sel|
    ensures Collect(env, slots, sel, k).Ok? <==>
      forall j :: 0 <= j < k ==> sel[j] < |slots| && slots[sel[j]].market == env.market
  {
    if k > 0 {
      CollectOkExactly(env, slots, sel, k - 1);
      if Collect(env, slots, sel, k - 1).Ok? {
        CollectFacts(env, slots, sel, k - 1);
        VisitOk(env, slots, sel[..k - 1], Collect(env, slots, sel, k - 1).value, sel[k - 1]);
      }
    }
  }

  /** Every resting order's owner, and the protocol's, can be the input of a commitment. */
  ghost predicate OwnersUsable(env: BatchEnv, slots: seq<PendingOrder>) {
    && env.protocolOwner < BN254_R
    && forall i :: 0 <= i < |slots| && slots[i].Pending() ==> slots[i].owner < BN254_R
  }

  lemma StartOwners(env: BatchEnv, slots: seq<PendingOrder>, br: BatchResults, sel: seq<nat>)
    requires NoDuplicates(sel) && Collect(env, slots, sel, |sel|).Ok? && OwnersUsable(env, slots)
    ensures OwnersInField(FirstPass(env, slots, br, sel).bids) && OwnersInField(FirstPass(env, slots, br, sel).asks)
  {
    var s := FirstPass(env, slots, br, sel);
    StartBooks(env, slots, br, sel);
    forall k | 0 <= k < |s.bids| ensures s.bids[k].owner < BN254_R {
      assert IsSnapshotOf(env, slots, sel, Bid, s.bids[k]);
    }
    forall k | 0 <= k < |s.asks| ensures s.asks[k].owner < BN254_R {
      assert IsSnapshotOf(env, slots, sel, Ask, s.asks[k]);
    }
  }

  lemma FlushesExactly(env: BatchEnv, r: BatchResults)
    requires env.protocolOwner < BN254_R
    ensures FlushFees(env, r).Ok?
  {
  }

  /** No batch succeeds that is not admitted. */
  lemma SucceedsOnlyAdmitted(env: BatchEnv, slots: seq<PendingOrder>, br: BatchResults, sel: seq<nat>)
    requires Succeeds(env, slots, br, sel)
    ensures Admitted(env, slots, sel)
  {
    CollectOkExactly(env, slots, sel, |sel|);
  }

  /** Over covered slots with usable owners a batch succeeds exactly when it is admitted. */
  lemma AdmittedExactly(env: BatchEnv, slots: seq<PendingOrder>, br: BatchResults, sel: seq<nat>)
    requires |br.ring| == BATCH_RESULTS_CAPACITY
    requires NoDuplicates(sel) && SlotsFunded(slots, env.feeRate) && OwnersUsable(env, slots)
    ensures RunBatch(env, slots, br, sel).Ok? <==> Admitted(env, slots, sel)
  {
    if Admitted(env, slots, sel) {
      CollectOkExactly(env, slots, sel, |sel|);
      var c := Collect(env, slots, sel, |sel|).value;
      StartFunded(env, slots, br, sel);
      StartOwners(env, slots, br, sel);
      ClearFunded(env, FirstPass(env, slots, br, sel));
      FlushesExactly(env, Publish(env, br, Clear(env, StartPass(c, br)).value, c.inclusion));
    } else if RunBatch(env, slots, br, sel).Ok? {
      SucceedsOnlyAdmitted(env, slots, br, sel);
    }
  }

  // ---------- what each refusal means ----------

  lemma TradeRefusals(t: Terms, b: Order, a: Order, id: uint64)
    requires Trade(t, b, a, id).Err?
    ensures IsArithmeticAbort(Trade(t, b, a, id).error) || Trade(t, b, a, id).error == PoseidonFailed
    ensures Trade(t, b, a, id).error == PoseidonFailed ==> b.owner >= BN254_R || a.owner >= BN254_R
  {
  }

  lemma {:induction false} RunRefusals(t: Terms, s: Pass)
    requires |s.ring| == BATCH_RESULTS_CAPACITY && Run(t, s).Err?
    ensures IsArithmeticAbort(Run(t, s).error) || Run(t, s).error == PoseidonFailed
    ensures Run(t, s).error == PoseidonFailed ==> !OwnersInField(s.bids) || !OwnersInField(s.asks)
    decreases |s.bids| + |s.asks| - s.bi - s.ai
  {
    if NextMove(t, s).Cross? && Step(t, s).Err? {
      TradeRefusals(t, s.bids[s.bi], s.asks[s.ai], s.nextId);
    } else {
      StepShape(t, s);
      if OwnersInField(s.bids) && OwnersInField(s.asks) {
        StepOwners(t, s, Bid);
        StepOwners(t, s, Ask);
      }
      RunRefusals(t, Step(t, s).value);
    }
  }

  lemma {:induction false} CollectRefusals(env: BatchEnv, slots: seq<PendingOrder>, sel: seq<nat>, k: nat)
    requires k <= |sel| && Collect(env, slots, sel, k).Err?
    ensures Collect(env, slots, sel, k).error == PendingOrderInvalidOwner || Collect(env, slots, sel, k).error == MarketMismatch
    ensures Collect(env, slots, sel, k).error == PendingOrderInvalidOwner ==> exists j :: 0 <= j < k && sel[j] >= |slots|
    ensures Collect(env, slots, sel, k).error == MarketMismatch ==>
      exists j :: 0 <= j < k && sel[j] < |slots| && slots[sel[j]].market != env.market
  {
    if Collect(env, slots, sel, k - 1).Err? {
      CollectRefusals(env, slots, sel, k - 1);
    } else {
      CollectFacts(env, slots, sel, k - 1);
    }
  }

  lemma ClearRefusals(env: BatchEnv, s: Pass)
    requires |s.ring| == BATCH_RESULTS_CAPACITY && Clear(env, s).Err?
    ensures IsArithmeticAbort(Clear(env, s).error) || Clear(env, s).error == PoseidonFailed
    ensures Clear(env, s).error == PoseidonFailed ==> !OwnersInField(s.bids) || !OwnersInField(s.asks)
  {
    RunRefusals(TermsOf(env, ClearingPrice(s.bids, s.asks).value.0), s);
  }

  /** What an error of `run_batch` says of its inputs. */
  ghost predicate BatchReason(env: BatchEnv, slots: seq<PendingOrder>, sel: seq<nat>, e: MatchingError) {
    match e
    case MarketMismatch =>
      env.cfg.market != env.market || exists j :: 0 <= j < |sel| && sel[j] < |slots| && slots[sel[j]].market != env.market
    case OracleAccountMismatch => env.oracleAccount != env.cfg.pythAccount
    case NotRootKey => env.authority != env.teePubkey
    case OracleZeroPrice => env.twap == 0
    case OrderbookFull => |sel| > 24
    case PendingOrderInvalidOwner => exists j :: 0 <= j < |sel| && sel[j] >= |slots|
    case PoseidonFailed => !OwnersUsable(env, slots)
    case NotionalOverflow => !SlotsFunded(slots, env.feeRate)
    case FeeOverflow => !SlotsFunded(slots, env.feeRate)
    case ConservationViolation => !SlotsFunded(slots, env.feeRate)
    case _ => false
  }

  lemma GuardRefusals(env: BatchEnv, slots: seq<PendingOrder>, sel: seq<nat>)
    requires Guard(env, sel).Some?
    ensures BatchReason(env, slots, sel, Guard(env, sel).value)
  {
  }

  lemma MatchingRefusals(env: BatchEnv, slots: seq<PendingOrder>, br: BatchResults, sel: seq<nat>)
    requires |br.ring| == BATCH_RESULTS_CAPACITY && NoDuplicates(sel) && RunBatch(env, slots, br, sel).Err?
    requires Guard(env, sel).None? && Collect(env, slots, sel, |sel|).Ok?
    ensures IsArithmeticAbort(RunBatch(env, slots, br, sel).error) || RunBatch(env, slots, br, sel).error == PoseidonFailed
    ensures RunBatch(env, slots, br, sel).error == PoseidonFailed ==> !OwnersUsable(env, slots)
  {
    var c := Collect(env, slots, sel, |sel|).value;
    if OwnersUsable(env, slots) {
      StartOwners(env, slots, br, sel);
    }
    if Clear(env, StartPass(c, br)).Err? {
      ClearRefusals(env, StartPass(c, br));
    } else {
      var published := Publish(env, br, Clear(env, StartPass(c, br)).value, c.inclusion);
      FlushErrors(env, published);
      if env.protocolOwner < BN254_R {
        FlushesExactly(env, published);
      }
    }
  }

  lemma MatchingReason(env: BatchEnv, slots: seq<PendingOrder>, sel: seq<nat>, e: MatchingError)
    requires IsArithmeticAbort(e) ==> !SlotsFunded(slots, env.feeRate)
    requires e == PoseidonFailed ==> !OwnersUsable(env, slots)
    requires IsArithmeticAbort(e) || e == PoseidonFailed
    ensures BatchReason(env, slots, sel, e)
  {
  }

  /** Every refusal of a batch names its reason: a demand on the accounts, a slot that is not covered,
      or an owner that is not a field element. */
  lemma BatchRefusals(env: BatchEnv, slots: seq<PendingOrder>, br: BatchResults, sel: seq<nat>)
    requires |br.ring| == BATCH_RESULTS_CAPACITY && NoDuplicates(sel) && RunBatch(env, slots, br, sel).Err?
    ensures BatchReason(env, slots, sel, RunBatch(env, slots, br, sel).error)
  {
    if Guard(env, sel).Some? {
      GuardRefusals(env, slots, sel);
    } else if Collect(env, slots, sel, |sel|).Err? {
      CollectRefusals(env, slots, sel, |sel|);
    } else {
      MatchingRefusals(env, slots, br, sel);
      if SlotsFunded(slots, env.feeRate) {
        FundedBatchNeverOverflows(env, slots, br, sel);
      }
      MatchingReason(env, slots, sel, RunBatch(env, slots, br, sel).error);
    }
  }
}
