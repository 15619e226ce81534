// What one batch does to the slots and to the fee accounts, read off the accounts alone.
module BatchOutcomes {
  import opened Prelude
  import opened Orders
  import opened Auction
  import opened Matching
  import opened MatchingLaws
  import opened Collateral
  import opened Market
  import opened MarketLaws
  import opened BatchLaws

  /** Every eligible slot has its copy in the book of its side. */
  lemma CopyOf(env: BatchEnv, slots: seq<PendingOrder>, br: BatchResults, sel: seq<nat>, side: Side, i: nat) returns (k: nat)
    requires NoDuplicates(sel) && Collect(env, slots, sel, |sel|).Ok? && i in sel && i < |slots|
    requires Eligible(env, slots[i]) && slots[i].side == SideCode(side)
    ensures k < |BookOf(FirstPass(env, slots, br, sel), side)|
    ensures BookOf(FirstPass(env, slots, br, sel), side)[k] == Snapshot(slots[i], i)
  {
    var at :| 0 <= at < |sel| && sel[at] == i;
    CollectComplete(env, slots, sel, |sel|, at, side);
    SortMembers(side, Listed(Collect(env, slots, sel, |sel|).value, side));
    k :| 0 <= k < |BookOf(FirstPass(env, slots, br, sel), side)|
      && BookOf(FirstPass(env, slots, br, sel), side)[k] == Snapshot(slots[i], i);
  }

  lemma PassPriority(env: BatchEnv, s: Pass, side: Side, first: nat, second: nat)
    requires Start(s) && PlainBooks(s) && Clear(env, s).Ok? && Sorted(side, BookOf(s, side))
    requires first < |BookOf(s, side)| && second < |BookOf(s, side)|
    requires Ahead(side, BookOf(s, side)[first], BookOf(s, side)[second])
    ensures
      var f := Clear(env, s).value.pass;
      && |BookOf(f, side)| == |BookOf(s, side)|
      && (BookOf(f, side)[second].amount != BookOf(s, side)[second].amount ==> BookOf(f, side)[first].amount == 0)
  {
    var r := ClearingPrice(s.bids, s.asks);
    if r.Some? && !Deviates(r.value.0, env.twap, env.cfg.circuitBps) {
      PriceTimePriority(TermsOf(env, r.value.0), s, side, first, second);
    }
  }

  lemma AppliedCopy(p: PendingOrder, o: Order, slot: nat)
    requires p.Pending() && p.amount > 0 && Evolved(Snapshot(p, slot), o)
    requires p.orderType == TYPE_LIMIT || p.orderType == TYPE_IOC
    ensures ApplyOrder(p, o) != p ==> o.amount != p.amount
    ensures o.amount == 0 ==> ApplyOrder(p, o).status == STATUS_MATCHED && ApplyOrder(p, o).filled == p.total
  {
  }

  /** Price-time priority on the slots: if an order traded in a batch, every order of its side ahead
      of it ends the batch matched in full. */
  lemma BatchPriority(env: BatchEnv, slots: seq<PendingOrder>, br: BatchResults, sel: seq<nat>, side: Side, i: nat, j: nat)
    requires BatchRuns(env, slots, br, sel) && SlotsOk(slots) && PlainSlots(env, slots, sel)
    requires i in sel && j in sel && i < |slots| && j < |slots|
    requires Eligible(env, slots[i]) && Eligible(env, slots[j])
    requires slots[i].side == SideCode(side) && slots[j].side == SideCode(side)
    requires Ahead(side, Snapshot(slots[i], i), Snapshot(slots[j], j))
    ensures
      var after := RunBatch(env, slots, br, sel).value.slots;
      && |after| == |slots|
      && (after[j] != slots[j] ==> after[i].status == STATUS_MATCHED && after[i].filled == slots[i].total)
  {
    var s := FirstPass(env, slots, br, sel);
    var first := CopyOf(env, slots, br, sel, side, i);
    var second := CopyOf(env, slots, br, sel, side, j);
    StartPlain(env, slots, br, sel);
    StartInOrder(env, slots, br, sel);
    PassPriority(env, s, side, first, second);
    BatchTouches(env, slots, br, sel, side, first);
    BatchTouches(env, slots, br, sel, side, second);
    var f := FinalPass(env, slots, br, sel);
    AppliedCopy(slots[i], BookOf(f, side)[first], i);
    AppliedCopy(slots[j], BookOf(f, side)[second], j);
  }

  /** Per batch, each fee account holds the fees of its side's fills, capped at 64 bits, and value
      consumed in a mint is value minted in it plus those fees. */
  lemma BatchFees(env: BatchEnv, slots: seq<PendingOrder>, br: BatchResults, sel: seq<nat>, side: Side)
    requires BatchRuns(env, slots, br, sel)
    ensures
      var o := RunBatch(env, slots, br, sel).value;
      var account := if side.Bid? then o.results.quoteFees else o.results.baseFees;
      && account.mint == (if side.Bid? then env.cfg.quoteMint else env.cfg.baseMint)
      && account.accumulated == Min(U64_MAX, FeesOn(o.fills, side))
      && ConsumedOn(o.fills, side) == MintedOn(o.fills, side) + FeesOn(o.fills, side)
  {
    var s := FirstPass(env, slots, br, sel);
    ClearFees(env, s, side);
    FeeAccounts(env, slots, br, sel);
    BatchSlots(env, slots, br, sel);
  }

  lemma ClearFees(env: BatchEnv, s: Pass, side: Side)
    requires Start(s) && s.baseFees == s.quoteFees == 0 && Clear(env, s).Ok?
    ensures FeesBalance(Clear(env, s).value.pass, side)
  {
    var r := ClearingPrice(s.bids, s.asks);
    if r.Some? && !Deviates(r.value.0, env.twap, env.cfg.circuitBps) {
      RunFees(TermsOf(env, r.value.0), s, side);
    }
  }

  lemma FlushKeepsFees(env: BatchEnv, r: BatchResults)
    requires FlushFees(env, r).Ok?
    ensures
      var r' := FlushFees(env, r).value;
      && r'.baseFees == r.baseFees.(flushed := r'.baseFees.flushed)
      && r'.quoteFees == r.quoteFees.(flushed := r'.quoteFees.flushed)
  {
  }

  lemma FeeAccounts(env: BatchEnv, slots: seq<PendingOrder>, br: BatchResults, sel: seq<nat>)
    requires BatchRuns(env, slots, br, sel)
    ensures
      var r, f := RunBatch(env, slots, br, sel).value.results, FinalPass(env, slots, br, sel);
      && r.baseFees.mint == env.cfg.baseMint && r.baseFees.accumulated == f.baseFees
      && r.quoteFees.mint == env.cfg.quoteMint && r.quoteFees.accumulated == f.quoteFees
  {
    var c := Collect(env, slots, sel, |sel|).value;
    FlushKeepsFees(env, Publish(env, br, Clear(env, StartPass(c, br)).value, c.inclusion));
  }
}
