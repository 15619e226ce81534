// The ring of results over runs of batches, and exactly when a batch overwrites its own matches.
module RingLaws {
  import opened Prelude
  import opened Crypto
  import opened Orders
  import opened Matching
  import opened MatchingLaws
  import opened Market
  import opened MarketLaws
  import opened BatchLaws
  import opened BatchWitnesses

  lemma BatchExtendsRing(env: BatchEnv, slots: seq<PendingOrder>, br: BatchResults, sel: seq<nat>, log: seq<Fill>)
    requires BatchRuns(env, slots, br, sel) && RingHolds(br.ring, log) && br.cursor == br.nextId == |log|
    requires |log| + |RunBatch(env, slots, br, sel).value.fills| <= U64_MAX
    ensures
      var o := RunBatch(env, slots, br, sel).value;
      RingHolds(o.results.ring, log + o.fills) && o.results.cursor == o.results.nextId == |log| + |o.fills|
  {
    var s := FirstPass(env, slots, br, sel);
    assert log + s.fills == log;
    BatchSlots(env, slots, br, sel);
    BatchAccount(env, slots, br, sel);
    BatchRing(env, s, log);
  }

  lemma LogPrefix(hs: Hashes, m: MarketState, actions: seq<Action>)
    requires actions != []
    ensures |LogOf(hs, m, actions[..|actions| - 1])| <= |LogOf(hs, m, actions)|
  {
  }

  /** From an empty account, over any run of instructions: both counters count the matches made, ids are
      positions in the log, and match `m` of the last 16 sits at entry `m % 16`. */
  lemma {:induction false} RingOverRun(hs: Hashes, m: MarketState, actions: seq<Action>)
    requires |m.results.ring| == BATCH_RESULTS_CAPACITY && m.results.cursor == m.results.nextId == 0
    requires forall i :: 0 <= i < |actions| ==> WellFormed(actions[i])
    requires |LogOf(hs, m, actions)| <= U64_MAX
    ensures RingHolds(After(hs, m, actions).results.ring, LogOf(hs, m, actions))
    ensures After(hs, m, actions).results.cursor == After(hs, m, actions).results.nextId == |LogOf(hs, m, actions)|
  {
    if actions != [] {
      var done := actions[..|actions| - 1];
      LogPrefix(hs, m, actions);
      RingOverRun(hs, m, done);
      var prev, log := After(hs, m, done), LogOf(hs, m, done);
      match actions[|actions| - 1]
      case Submit(_, _, _, _) =>
      case Cancel(_, _, _, _) =>
      case Batch(env, sel) =>
        assert WellFormed(actions[|actions| - 1]);
        if |prev.results.ring| == BATCH_RESULTS_CAPACITY && RunBatch(env, prev.slots, prev.results, sel).Ok? {
          BatchExtendsRing(env, prev.slots, prev.results, sel, log);
        }
    }
  }

  /** A match is still in the ring exactly if it is one of the last 16. */
  lemma KeptExactlyWhen(ring: seq<MatchResult>, log: seq<Fill>, m: nat)
    requires RingHolds(ring, log) && m < |log|
    ensures ring[m % BATCH_RESULTS_CAPACITY] == log[m].result <==> |log| - m <= BATCH_RESULTS_CAPACITY
  {
    if |log| - m > BATCH_RESULTS_CAPACITY {
      var last := m + (|log| - 1 - m) / BATCH_RESULTS_CAPACITY * BATCH_RESULTS_CAPACITY;
      assert last % BATCH_RESULTS_CAPACITY == m % BATCH_RESULTS_CAPACITY;
      assert m < last && |log| - BATCH_RESULTS_CAPACITY <= last < |log|;
      assert log[last].result.matchId == last && log[m].result.matchId == m;
    }
  }

  lemma KeptInBatch(ring: seq<MatchResult>, log: seq<Fill>, fills: seq<Fill>, k: nat)
    requires RingHolds(ring, log + fills) && k < |fills|
    ensures ring[(|log| + k) % BATCH_RESULTS_CAPACITY] == fills[k].result <==> |fills| - k <= BATCH_RESULTS_CAPACITY
  {
    KeptExactlyWhen(ring, log + fills, |log| + k);
  }

  /** Match `k` of a batch is still in the ring after it exactly if at most 15 follow it; so a batch
      overwrites matches of its own if and only if it makes more than 16. */
  lemma BatchKeepsExactlyWhen(env: BatchEnv, slots: seq<PendingOrder>, br: BatchResults, sel: seq<nat>, log: seq<Fill>, k: nat)
    requires BatchRuns(env, slots, br, sel) && RingHolds(br.ring, log) && br.cursor == br.nextId == |log|
    requires |log| + |RunBatch(env, slots, br, sel).value.fills| <= U64_MAX && k < |RunBatch(env, slots, br, sel).value.fills|
    ensures
      var o := RunBatch(env, slots, br, sel).value;
      && |o.results.ring| == BATCH_RESULTS_CAPACITY
      && (o.results.ring[(|log| + k) % BATCH_RESULTS_CAPACITY] == o.fills[k].result <==> |o.fills| - k <= BATCH_RESULTS_CAPACITY)
  {
    var o := RunBatch(env, slots, br, sel).value;
    BatchExtendsRing(env, slots, br, sel, log);
    KeptInBatch(o.results.ring, log, o.fills, k);
  }

  // ---------- a batch of 24 accounts that loses seven matches ----------

  /** A bid for 23 at price 1 in slot 0, and 23 asks for 1. */
  function LadderSlots(hs: Hashes): (slots: seq<PendingOrder>)
    ensures |slots| == 24
  {
    [SampleSlot(hs, SIDE_BID, TYPE_LIMIT, 23, 1, 23, 0).value]
    + seq(23, i requires 0 <= i < 23 => SampleSlot(hs, SIDE_ASK, TYPE_LIMIT, 1, 1, 1, 100).value)
  }

  function LadderSel(n: nat): (sel: seq<nat>)
    ensures |sel| == n && NoDuplicates(sel) && forall i :: 0 <= i < n ==> sel[i] == i
  {
    seq(n, i requires 0 <= i < n => i)
  }

  ghost predicate Rung(o: Order) {
    o.limit == 1 && o.amount == 1 && o.noteAmount == 1 && o.minFill == 0 && o.orderType == TYPE_LIMIT && o.arrival == 0
  }

  /** The pass between two matches: one bid that can take every ask left. */
  ghost predicate Ladder(s: Pass) {
    && |s.ring| == BATCH_RESULTS_CAPACITY && |s.bids| == 1 && s.ai <= |s.asks|
    && (s.ai < |s.asks| ==> s.bi == 0) && s.bids[0].limit == 1 && s.bids[0].owner == 0 && s.bids[0].minFill == 0
    && s.bids[0].orderType == TYPE_LIMIT
    && s.bids[0].amount == |s.asks| - s.ai && (s.ai < |s.asks| ==> s.bids[0].noteAmount == s.bids[0].amount)
    && (forall j :: s.ai <= j < |s.asks| ==> Rung(s.asks[j]))
  }

  lemma RungTrade(t: Terms, b: Order, a: Order, id: uint64)
    requires t.price == 1 && t.feeRate == 0 && Rung(a)
    requires b.amount == b.noteAmount >= 1 && b.owner == 0
    ensures Trade(t, b, a, id).Ok? && Trade(t, b, a, id).value.base == 1
    ensures Trade(t, b, a, id).value.buyer.change == b.noteAmount - 1
  {
  }

  lemma LadderStep(t: Terms, s: Pass)
    requires t.price == 1 && t.feeRate == 0 && Ladder(s) && s.ai < |s.asks|
    ensures Step(t, s).Ok? && Ladder(Step(t, s).value)
    ensures |Step(t, s).value.asks| == |s.asks| && Step(t, s).value.ai == s.ai + 1
    ensures |Step(t, s).value.fills| == |s.fills| + 1
  {
    RungTrade(t, s.bids[0], s.asks[s.ai], s.nextId);
    assert NextMove(t, s).Cross?;
  }

  lemma {:induction false} LadderRuns(t: Terms, s: Pass)
    requires t.price == 1 && t.feeRate == 0 && Ladder(s)
    ensures Run(t, s).Ok? && |Run(t, s).value.fills| == |s.fills| + |s.asks| - s.ai
    decreases |s.asks| - s.ai
  {
    if s.ai < |s.asks| {
      LadderStep(t, s);
      StepShape(t, s);
      LadderRuns(t, Step(t, s).value);
    }
  }

  /** What pass 1 has listed after `k` of the ladder's accounts. */
  lemma {:induction false} LadderCollected(hs: Hashes, k: nat)
    requires 1 <= k <= 24
    ensures
      var r := Collect(SampleEnv(hs, 0, 1), LadderSlots(hs), LadderSel(24), k);
      && r.Ok? && r.value.slots == LadderSlots(hs)
      && r.value.bids == [Snapshot(LadderSlots(hs)[0], 0)] && |r.value.asks| == k - 1
      && (forall j :: 0 <= j < k - 1 ==> Rung(r.value.asks[j]))
  {
    var env, slots, sel := SampleEnv(hs, 0, 1), LadderSlots(hs), LadderSel(24);
    if k == 1 {
      SampleEligible(hs, 0, 1, Bid, TYPE_LIMIT, 23, 1, 23, 0);
      CollectOne(env, slots, sel, 0, Collected(slots, [], [], []), Bid);
    } else {
      LadderCollected(hs, k - 1);
      SampleEligible(hs, 0, 1, Ask, TYPE_LIMIT, 1, 1, 1, 100);
      CollectOne(env, slots, sel, k - 1, Collect(env, slots, sel, k - 1).value, Ask);
    }
  }

  lemma LadderClears(env: BatchEnv, c: Collected, br: BatchResults)
    requires |br.ring| == BATCH_RESULTS_CAPACITY && env.feeRate == 0 && env.twap == 1 && env.cfg.circuitBps == 300
    requires |c.bids| == 1 && |c.asks| == 23 && (forall j :: 0 <= j < |c.asks| ==> Rung(c.asks[j]))
    requires Ladder(Pass(c.bids, c.asks, 0, 0, [], br.ring, br.cursor, br.nextId, 0, 0))
    ensures Clear(env, StartPass(c, br)).Ok? && |Clear(env, StartPass(c, br)).value.pass.fills| == 23
  {
    StartKept(c, br);
    var s := StartPass(c, br);
    VolumeHolds(Bid, s.bids, 1, 0);
    VolumeHolds(Ask, s.asks, 1, 0);
    UniformPrice(s.bids, s.asks, 1);
    LadderRuns(TermsOf(env, 1), s);
  }

  lemma LadderBatch(hs: Hashes, br: BatchResults)
    requires |br.ring| == BATCH_RESULTS_CAPACITY
    ensures BatchRuns(SampleEnv(hs, 0, 1), LadderSlots(hs), br, LadderSel(24))
    ensures |RunBatch(SampleEnv(hs, 0, 1), LadderSlots(hs), br, LadderSel(24)).value.fills| == 23
  {
    var env, slots, sel := SampleEnv(hs, 0, 1), LadderSlots(hs), LadderSel(24);
    LadderCollected(hs, 24);
    var c := Collect(env, slots, sel, 24).value;
    LadderClears(env, c, br);
    BatchFrom(env, slots, br, sel, c);
  }

  /** The largest batch the program admits, 24 accounts, can make 23 matches: the results of the first
      seven are overwritten before the batch ends. */
  lemma SevenMatchesLost(hs: Hashes, br: BatchResults)
    requires |br.ring| == BATCH_RESULTS_CAPACITY && br.cursor == br.nextId == 0
    ensures |LadderSel(24)| == MAX_PENDING_ACCOUNTS_PER_BATCH
    ensures
      var r := RunBatch(SampleEnv(hs, 0, 1), LadderSlots(hs), br, LadderSel(24));
      && r.Ok? && |r.value.fills| == 23 && |r.value.results.ring| == BATCH_RESULTS_CAPACITY
      && (forall k :: 0 <= k < 23 ==> (r.value.results.ring[k % BATCH_RESULTS_CAPACITY] == r.value.fills[k].result <==> k >= 7))
  {
    LadderBatch(hs, br);
    LostFromFresh(SampleEnv(hs, 0, 1), LadderSlots(hs), br, LadderSel(24));
  }

  lemma LostFromFresh(env: BatchEnv, slots: seq<PendingOrder>, br: BatchResults, sel: seq<nat>)
    requires BatchRuns(env, slots, br, sel) && br.cursor == br.nextId == 0
    requires |RunBatch(env, slots, br, sel).value.fills| == 23
    ensures
      var o := RunBatch(env, slots, br, sel).value;
      && |o.results.ring| == BATCH_RESULTS_CAPACITY
      && (forall k :: 0 <= k < 23 ==> (o.results.ring[k % BATCH_RESULTS_CAPACITY] == o.fills[k].result <==> k >= 7))
  {
    var o := RunBatch(env, slots, br, sel).value;
    var log: seq<Fill> := [];
    BatchExtendsRing(env, slots, br, sel, log);
    forall k | 0 <= k < 23 ensures o.results.ring[k % BATCH_RESULTS_CAPACITY] == o.fills[k].result <==> k >= 7 {
      KeptInBatch(o.results.ring, log, o.fills, k);
    }
  }
}
