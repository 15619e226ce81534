// The market read off its submissions: when an order is accepted or cancelled, that a resting slot
// keeps the terms and the time it was submitted with, and priority and fills in those terms.
module MarketLog {
  import opened Prelude
  import opened Crypto
  import opened Orders
  import opened Matching
  import opened MatchingLaws
  import opened Market
  import opened MarketLaws
  import opened BatchLaws
  import opened BatchOutcomes
  import opened FillRules

  // ---------- when an order is accepted or cancelled ----------

  /** What `submit_order` demands of its arguments, its signer and the slot. */
  predicate Submittable(p: PendingOrder, a: SubmitArgs, signer: Digest, now: uint64) {
    && (a.side == 0 || a.side == 1) && a.orderType <= 2
    && a.amount > 0 && a.limit > 0 && a.orderId != 0 && a.minFill <= a.amount
    && (if a.side == 0 then a.amount * a.limit <= a.noteAmount else a.amount <= a.noteAmount)
    && a.expiry > now
    && p.tradingKey == signer && p.market == a.market && p.slotIdx == a.slotIdx
    && (p.status == STATUS_EMPTY || p.status == STATUS_MATCHED || p.status == STATUS_EXPIRED || p.status == STATUS_CANCELLED)
  }

  /** The slot carries the terms of this submission, under its slot number as time of arrival. */
  predicate Carries(hs: Hashes, q: PendingOrder, a: SubmitArgs, signer: Digest, now: uint64) {
    && q.arrival == now && q.side == a.side && q.orderType == a.orderType && q.limit == a.limit && q.minFill == a.minFill
    && q.total == a.amount && q.expiry == a.expiry && q.orderId == a.orderId && q.owner == a.owner
    && q.tradingKey == signer && q.market == a.market && q.slotIdx == a.slotIdx
    && q.inclusion == hs.inclusionSha(now, a.note, signer)
    && (q.filled == 0 ==> q.amount == a.amount && q.note == a.note && q.noteAmount == a.noteAmount)
  }

  /** An order is accepted exactly under those demands, and the slot then rests with its terms,
      nothing of it filled, and the slot number of the submission as its arrival. */
  lemma SubmitsExactly(hs: Hashes, p: PendingOrder, a: SubmitArgs, signer: Digest, now: uint64)
    ensures SubmitOrder(hs, p, a, signer, now).Ok? <==> Submittable(p, a, signer, now)
    ensures SubmitOrder(hs, p, a, signer, now).Ok? ==>
      var q := SubmitOrder(hs, p, a, signer, now).value;
      q.status == STATUS_PENDING && q.filled == 0 && Carries(hs, q, a, signer, now)
  {
  }

  /** A cancellation succeeds exactly for the owner of a resting order, and wipes its intent, not its
      identity. */
  lemma CancelsExactly(p: PendingOrder, signer: Digest, market: Digest, slotIdx: uint8)
    ensures CancelOrder(p, signer, market, slotIdx).Ok? <==>
      p.status == STATUS_PENDING && p.tradingKey == signer && p.market == market && p.slotIdx == slotIdx
    ensures CancelOrder(p, signer, market, slotIdx).Ok? ==>
      var q := CancelOrder(p, signer, market, slotIdx).value;
      && q.status == STATUS_CANCELLED
      && q.amount == q.limit == q.noteAmount == q.minFill == 0 && q.note == q.owner == 0 && q.orderId == 0
      && q.tradingKey == p.tradingKey && q.market == p.market && q.slotIdx == p.slotIdx
      && q.side == p.side && q.orderType == p.orderType && q.arrival == p.arrival && q.expiry == p.expiry
      && q.total == p.total && q.filled == p.filled && q.inclusion == p.inclusion
  {
  }

  /** Every refusal of an order names a demand it does not meet. */
  lemma SubmitRefusals(hs: Hashes, p: PendingOrder, a: SubmitArgs, signer: Digest, now: uint64)
    requires SubmitOrder(hs, p, a, signer, now).Err?
    ensures match SubmitOrder(hs, p, a, signer, now).error
      case InvalidSide => a.side > 1
      case InvalidOrderType => a.orderType > 2
      case ZeroAmount => a.amount == 0
      case ZeroPrice => a.limit == 0
      case InvalidOrderId => a.orderId == 0
      case AmountBelowMinOrderSize => a.amount < a.minFill
      case NotionalExceedsNoteValue => if a.side == 0 then a.noteAmount < a.amount * a.limit else a.noteAmount < a.amount
      case ExpiryInPast => a.expiry <= now
      case UnauthorizedTradingKey => p.tradingKey != signer
      case MarketMismatch => p.market != a.market
      case InvalidPendingSlot => p.slotIdx != a.slotIdx
      case SlotAlreadyOccupied => p.status == STATUS_PENDING || p.status > 4
      case _ => false
  {
  }

  /** Every refusal of a cancellation names its reason. */
  lemma CancelRefusals(p: PendingOrder, signer: Digest, market: Digest, slotIdx: uint8)
    requires CancelOrder(p, signer, market, slotIdx).Err?
    ensures match CancelOrder(p, signer, market, slotIdx).error
      case UnauthorizedTradingKey => p.tradingKey != signer
      case MarketMismatch => p.market != market
      case InvalidPendingSlot => p.slotIdx != slotIdx
      case OrderNotFound => p.status != STATUS_PENDING
      case _ => false
  {
  }

  // ---------- what can change a slot ----------

  predicate SameIdentity(p: PendingOrder, q: PendingOrder) {
    q.tradingKey == p.tradingKey && q.market == p.market && q.slotIdx == p.slotIdx
  }

  predicate SameTermsAfter(p: PendingOrder, q: PendingOrder) {
    && SameIdentity(p, q)
    && (q.Pending() && q != p ==>
          q.filled > 0 && q == p.(filled := q.filled, amount := q.amount, note := q.note, noteAmount := q.noteAmount))
  }

  lemma AppliedKeepsTerms(p: PendingOrder, o: Order)
    ensures SameTermsAfter(p, ApplyOrder(p, o))
  {
  }

  /** A batch changes only selected resting slots, never whose they are; and what still rests after it
      is the same order with some of it filled. */
  lemma BatchKeepsTerms(env: BatchEnv, slots: seq<PendingOrder>, br: BatchResults, sel: seq<nat>, i: nat)
    requires BatchRuns(env, slots, br, sel) && i < |slots|
    ensures |RunBatch(env, slots, br, sel).value.slots| == |slots|
    ensures
      var p, q := slots[i], RunBatch(env, slots, br, sel).value.slots[i];
      SameTermsAfter(p, q) && (q != p ==> i in sel && p.Pending())
  {
    var side, k := FindCopy(FirstPass(env, slots, br, sel), i);
    if k.Some? {
      BatchTouches(env, slots, br, sel, side, k.value);
      AppliedKeepsTerms(slots[i], BookOf(FinalPass(env, slots, br, sel), side)[k.value]);
    } else {
      BatchLeaves(env, slots, br, sel, i);
    }
  }

  /** Whose order rests in a slot is changed by nobody but that owner, who can cancel it, and a batch
      it is selected for. */
  lemma OnlyOwnerOrBatch(hs: Hashes, m: MarketState, a: Action, i: nat)
    requires WellFormed(a) && i < |m.slots|
    ensures |Next(hs, m, a).slots| == |m.slots|
    ensures SameIdentity(m.slots[i], Next(hs, m, a).slots[i])
    ensures m.slots[i].Pending() && Next(hs, m, a).slots[i] != m.slots[i] ==>
      || (a.Batch? && i in a.sel)
      || (a.Cancel? && a.slot == i && a.signer == m.slots[i].tradingKey && Next(hs, m, a).slots[i].status == STATUS_CANCELLED)
    ensures !m.slots[i].Pending() && Next(hs, m, a).slots[i] != m.slots[i] ==>
      a.Submit? && a.slot == i && a.signer == m.slots[i].tradingKey
  {
    match a
    case Submit(k, args, signer, now) => SubmitStep(hs, m, a, i);
    case Cancel(k, signer, market, slotIdx) =>
      if k == i {
        CancelsExactly(m.slots[i], signer, market, slotIdx);
      }
    case Batch(env, sel) =>
      if |m.results.ring| == BATCH_RESULTS_CAPACITY && RunBatch(env, m.slots, m.results, sel).Ok? {
        BatchKeepsTerms(env, m.slots, m.results, sel, i);
      }
  }

  lemma SubmitStep(hs: Hashes, m: MarketState, a: Action, i: nat)
    requires a.Submit? && i < |m.slots|
    ensures Next(hs, m, a).results == m.results && |Next(hs, m, a).slots| == |m.slots|
    ensures
      var q := Next(hs, m, a).slots[i];
      if a.slot == i && Submittable(m.slots[i], a.args, a.signer, a.now)
      then q.Pending() && Carries(hs, q, a.args, a.signer, a.now) && SameIdentity(m.slots[i], q) && !m.slots[i].Pending()
           && a.signer == m.slots[i].tradingKey
      else q == m.slots[i]
  {
    if a.slot == i {
      SubmitsExactly(hs, m.slots[i], a.args, a.signer, a.now);
    }
  }

  // ---------- resting orders over a run ----------

  /** The last submission into slot `i` that was accepted. */
  ghost function LastSubmit(hs: Hashes, m: MarketState, actions: seq<Action>, i: nat): (r: Option<Action>)
    ensures r.Some? ==> r.value.Submit? && r.value.slot == i && r.value in actions
  {
    if actions == [] then None
    else
      var t, a := actions[..|actions| - 1], actions[|actions| - 1];
      var slots := After(hs, m, t).slots;
      if a.Submit? && a.slot == i && i < |slots| && Submittable(slots[i], a.args, a.signer, a.now) then Some(a)
      else LastSubmit(hs, m, t, i)
  }

  /** A market in which nothing rests yet. */
  ghost predicate NothingRests(m: MarketState) {
    forall i :: 0 <= i < |m.slots| ==> !m.slots[i].Pending()
  }

  ghost predicate RestsAsSubmitted(hs: Hashes, p: PendingOrder, submit: Option<Action>) {
    p.Pending() ==> submit.Some? && submit.value.Submit? && Carries(hs, p, submit.value.args, submit.value.signer, submit.value.now)
  }

  lemma NextKeepsTerms(hs: Hashes, m: MarketState, a: Action, i: nat, submit: Option<Action>)
    requires WellFormed(a) && i < |m.slots| && !a.Submit? && RestsAsSubmitted(hs, m.slots[i], submit)
    ensures |Next(hs, m, a).slots| == |m.slots| && RestsAsSubmitted(hs, Next(hs, m, a).slots[i], submit)
  {
    match a
    case Cancel(k, signer, market, slotIdx) =>
    case Batch(env, sel) =>
      if |m.results.ring| == BATCH_RESULTS_CAPACITY && RunBatch(env, m.slots, m.results, sel).Ok? {
        BatchKeepsTerms(env, m.slots, m.results, sel, i);
      }
  }

  /** After any run, whatever rests in a slot is the last order accepted into it, on the terms it was
      submitted with and with the time of its submission; and the slot is its owner's as before. */
  lemma {:induction false} RestingAsSubmitted(hs: Hashes, m: MarketState, actions: seq<Action>, i: nat)
    requires NothingRests(m) && i < |m.slots| && forall k :: 0 <= k < |actions| ==> WellFormed(actions[k])
    ensures |After(hs, m, actions).slots| == |m.slots|
    ensures SameIdentity(m.slots[i], After(hs, m, actions).slots[i])
    ensures RestsAsSubmitted(hs, After(hs, m, actions).slots[i], LastSubmit(hs, m, actions, i))
  {
    if actions != [] {
      var t, a := actions[..|actions| - 1], actions[|actions| - 1];
      RestingAsSubmitted(hs, m, t, i);
      OnlyOwnerOrBatch(hs, After(hs, m, t), a, i);
      if a.Submit? {
        SubmitStep(hs, After(hs, m, t), a, i);
      } else {
        NextKeepsTerms(hs, After(hs, m, t), a, i, LastSubmit(hs, m, t, i));
      }
    }
  }

  // ---------- priority and fills, in terms of the submissions ----------

  /** The first submission has the better limit, or the same limit and the earlier slot. */
  predicate SubmittedAhead(side: Side, a: Action, b: Action)
    requires a.Submit? && b.Submit?
  {
    || (if side.Bid? then a.args.limit > b.args.limit else a.args.limit < b.args.limit)
    || (a.args.limit == b.args.limit && a.now < b.now)
  }

  /** The slot takes part in a batch. */
  predicate TakesPart(env: BatchEnv, p: PendingOrder) {
    p.status == STATUS_PENDING && p.expiry > env.now + 20 && p.amount >= env.cfg.minOrderSize
  }

  /** Price-time priority by submission. After any run, of two orders of one side in a batch without
      fill-or-kill orders and fill floors, if the one submitted at the worse limit, or at the same
      limit but later, changes, the other ends matched in full, however the accounts are listed. */
  lemma EarlierSubmissionFirst(hs: Hashes, m: MarketState, actions: seq<Action>, env: BatchEnv, sel: seq<nat>, side: Side, i: nat, j: nat)
    requires NothingRests(m) && SlotsOk(m.slots) && forall k :: 0 <= k < |actions| ==> WellFormed(actions[k])
    requires BatchRuns(env, After(hs, m, actions).slots, After(hs, m, actions).results, sel)
    requires PlainSlots(env, After(hs, m, actions).slots, sel)
    requires i in sel && j in sel && i < |m.slots| == |After(hs, m, actions).slots| && j < |m.slots|
    requires TakesPart(env, After(hs, m, actions).slots[i]) && TakesPart(env, After(hs, m, actions).slots[j])
    requires
      var a, b := LastSubmit(hs, m, actions, i), LastSubmit(hs, m, actions, j);
      && a.Some? && b.Some? && a.value.args.side == b.value.args.side == SideCode(side)
      && SubmittedAhead(side, a.value, b.value)
    ensures
      var w := After(hs, m, actions);
      var after := RunBatch(env, w.slots, w.results, sel).value.slots;
      && |after| == |w.slots|
      && (after[j] != w.slots[j] ==>
            after[i].status == STATUS_MATCHED && after[i].filled == LastSubmit(hs, m, actions, i).value.args.amount)
  {
    var w := After(hs, m, actions);
    RestingAsSubmitted(hs, m, actions, i);
    RestingAsSubmitted(hs, m, actions, j);
    SlotMachineInvariant(hs, m, actions);
    EligibleExactly(env, w.slots[i]);
    EligibleExactly(env, w.slots[j]);
    BatchPriority(env, w.slots, w.results, sel, side, i, j);
  }

  /** The match is within the terms of this submission. */
  predicate WithinSubmission(a: Action, f: Fill, side: Side)
    requires a.Submit?
  {
    var m := f.result;
    && a.args.side == SideCode(side) && a.slot == SlotOn(f, side)
    && OrderIdOn(f, side) == a.args.orderId && LegOn(m, side).tradingKey == a.signer && LegOn(m, side).owner == a.args.owner
    && a.args.minFill <= m.base <= a.args.amount
    && (if side.Bid? then m.price <= a.args.limit else m.price >= a.args.limit)
    && m.batchSlot + 20 < a.args.expiry && m.quote == m.base * m.price
  }

  /** After any run, every match of a batch is within the terms that both its orders were submitted
      with: side, limit, fill floor, size, expiry, owner. */
  lemma MatchesWithinSubmissions(hs: Hashes, m: MarketState, actions: seq<Action>, env: BatchEnv, sel: seq<nat>, side: Side, j: nat)
    requires NothingRests(m) && SlotsOk(m.slots) && forall k :: 0 <= k < |actions| ==> WellFormed(actions[k])
    requires BatchRuns(env, After(hs, m, actions).slots, After(hs, m, actions).results, sel)
    requires j < |RunBatch(env, After(hs, m, actions).slots, After(hs, m, actions).results, sel).value.fills|
    ensures
      var w := After(hs, m, actions);
      var f := RunBatch(env, w.slots, w.results, sel).value.fills[j];
      var submit := LastSubmit(hs, m, actions, SlotOn(f, side));
      submit.Some? && SlotOn(f, side) in sel && WithinSubmission(submit.value, f, side)
  {
    var w := After(hs, m, actions);
    var i := SlotOn(RunBatch(env, w.slots, w.results, sel).value.fills[j], side);
    BatchHonours(env, w.slots, w.results, sel, side, j);
    RunKeepsCount(hs, m, actions);
    RestingAsSubmitted(hs, m, actions, i);
    SlotMachineInvariant(hs, m, actions);
    assert SlotOk(w.slots[i]);
  }

  lemma {:induction false} RunKeepsCount(hs: Hashes, m: MarketState, actions: seq<Action>)
    requires forall k :: 0 <= k < |actions| ==> WellFormed(actions[k])
    ensures |After(hs, m, actions).slots| == |m.slots|
  {
    if actions != [] {
      var t, a := actions[..|actions| - 1], actions[|actions| - 1];
      RunKeepsCount(hs, m, t);
      var prev := After(hs, m, t);
      if a.Batch? && |prev.results.ring| == BATCH_RESULTS_CAPACITY && RunBatch(a.env, prev.slots, prev.results, a.sel).Ok? {
        BatchSlots(a.env, prev.slots, prev.results, a.sel);
      }
    }
  }
}
