// What one matching pass keeps: the laws are stated for either side of the book.
module MatchingLaws {
  import opened Prelude
  import opened Crypto
  import opened Orders
  import opened Auction
  import opened Matching

  function BookOf(s: Pass, side: Side): seq<Order> {
    match side
    case Bid => s.bids
    case Ask => s.asks
  }

  function CursorOf(s: Pass, side: Side): nat {
    match side
    case Bid => s.bi
    case Ask => s.ai
  }

  function LegOn(m: MatchResult, side: Side): Leg {
    match side
    case Bid => m.buyer
    case Ask => m.seller
  }

  /** The trade leg: buyers pay quote, sellers pay base. */
  function Spent(m: MatchResult, side: Side): uint64 {
    match side
    case Bid => m.quote
    case Ask => m.base
  }

  function SlotOn(f: Fill, side: Side): nat {
    match side
    case Bid => f.bidSlot
    case Ask => f.askSlot
  }

  /** The match a crossing step produces. */
  function MatchOf(t: Terms, s: Pass): MatchResult
    requires s.Live() && Trade(t, s.bids[s.bi], s.asks[s.ai], s.nextId).Ok?
  {
    Trade(t, s.bids[s.bi], s.asks[s.ai], s.nextId).value
  }

  ghost predicate CanStep(t: Terms, s: Pass) {
    s.Live() && |s.ring| == BATCH_RESULTS_CAPACITY && Step(t, s).Ok?
  }

  // ---------- one step, seen from one order ----------

  /** The order under the cursor is left alone, killed, or filled; every other order is left alone. */
  lemma StepSide(t: Terms, s: Pass, side: Side, k: nat)
    requires CanStep(t, s) && k < |BookOf(s, side)|
    ensures
      var s' := Step(t, s).value;
      var o := BookOf(s, side)[k];
      && |BookOf(s', side)| == |BookOf(s, side)|
      && (if k != CursorOf(s, side) then BookOf(s', side)[k] == o
          else match NextMove(t, s)
            case Cross => Trade(t, s.bids[s.bi], s.asks[s.ai], s.nextId).Ok?
              && MatchOf(t, s).base <= o.amount
              && BookOf(s', side)[k] == AfterFill(o, MatchOf(t, s).base, LegOn(MatchOf(t, s), side).change, LegOn(MatchOf(t, s), side).changeNote)
            case KillBid => BookOf(s', side)[k] == if side.Bid? then Kill(o) else o
            case KillAsk => BookOf(s', side)[k] == if side.Ask? then Kill(o) else o
            case _ => BookOf(s', side)[k] == o)
  {
  }

  /** Where the cursor goes. */
  lemma StepCursor(t: Terms, s: Pass, side: Side)
    requires CanStep(t, s)
    ensures
      var s' := Step(t, s).value;
      var k := CursorOf(s, side);
      var o := BookOf(s, side)[k];
      var o' := BookOf(s', side)[k];
      && (CursorOf(s', side) == k || CursorOf(s', side) == k + 1)
      && (NextMove(t, s).Cross? ==> (CursorOf(s', side) == k + 1 <==> o'.amount == 0))
      && (NextMove(t, s).Cross? ==> Crosses(side, o.limit, t.price))
      && (CursorOf(s', side) == k + 1 && Crosses(side, o.limit, t.price) && NoMinFill(s.bids) && NoMinFill(s.asks) ==> o'.amount == 0)
  {
  }

  // ---------- the identities of one trade ----------

  /** What a recorded match says of the order on each side of it. */
  lemma TradeFacts(t: Terms, b: Order, a: Order, id: uint64, side: Side)
    requires Trade(t, b, a, id).Ok?
    ensures
      var m := Trade(t, b, a, id).value;
      var o := if side.Bid? then b else a;
      var leg := LegOn(m, side);
      && m.base == Min(b.amount, a.amount) && m.quote == m.base * t.price && m.matchId == id
      && leg.note == o.note && leg.noteValue == o.noteAmount
      && leg.fee == Fee(Spent(m, side), t.feeRate)
      && leg.noteValue == Spent(m, side) + leg.fee + leg.change
      && (if Relocks(o, m.base, leg.change) then leg.relockOrder == o.orderId && leg.relockExpiry == o.expiry
          else leg.relockOrder == NO_ORDER)
      && Some(leg.changeNote) == ChangeNote(t.hs, if side.Bid? then t.quoteMint else t.baseMint, leg.change, o.owner, id,
                                            if side.Bid? then CHANGE_ROLE_BUYER else CHANGE_ROLE_SELLER)
  {
  }

  // ---------- identity of orders ----------

  /** How a working copy may change: identity and limit stay, the amount only falls, and a
      fill-or-kill order is untouched, wholly filled or killed. */
  ghost predicate Evolved(o: Order, o': Order) {
    && o' == o.(orderType := o'.orderType, amount := o'.amount, note := o'.note, noteAmount := o'.noteAmount)
    && o'.amount <= o.amount
    && (o'.orderType == o.orderType || (o.orderType == TYPE_FOK && o'.orderType == TYPE_KILLED && o'.amount == 0))
    && (o.orderType == TYPE_FOK ==> o'.amount == o.amount || o'.amount == 0)
  }

  lemma {:induction false} RunEvolves(t: Terms, s: Pass, side: Side, k: nat)
    requires |s.ring| == BATCH_RESULTS_CAPACITY && Run(t, s).Ok? && k < |BookOf(s, side)|
    ensures |BookOf(Run(t, s).value, side)| == |BookOf(s, side)|
    ensures Evolved(BookOf(s, side)[k], BookOf(Run(t, s).value, side)[k])
    decreases |s.bids| + |s.asks| - s.bi - s.ai
  {
    if s.Live() {
      var s' := Step(t, s).value;
      StepShape(t, s);
      StepEvolves(t, s, side, k);
      RunEvolves(t, s', side, k);
    }
  }

  lemma StepEvolves(t: Terms, s: Pass, side: Side, k: nat)
    requires CanStep(t, s) && k < |BookOf(s, side)|
    ensures |BookOf(Step(t, s).value, side)| == |BookOf(s, side)|
    ensures Evolved(BookOf(s, side)[k], BookOf(Step(t, s).value, side)[k])
  {
    StepSide(t, s, side, k);
  }

  // ---------- volume ----------

  function Traded(fills: seq<Fill>): nat {
    if fills == [] then 0 else Traded(fills[..|fills| - 1]) + fills[|fills| - 1].result.base
  }

  lemma {:induction false} VolumeUpdate(side: Side, s: seq<Order>, p: uint64, i: nat, o: Order)
    requires i < |s| && o.limit == s[i].limit
    ensures Volume(side, s[i := o], p) ==
            Volume(side, s, p) + if Crosses(side, o.limit, p) then o.amount - s[i].amount else 0
  {
    var n := |s| - 1;
    if i < n {
      assert s[i := o][..n] == s[..n][i := o];
      VolumeUpdate(side, s[..n], p, i, o);
    } else {
      assert s[i := o][..n] == s[..n];
    }
  }

  /** A step moves volume from each book to the fills; only a kill makes any disappear. */
  lemma StepVolume(t: Terms, s: Pass, side: Side)
    requires CanStep(t, s)
    ensures
      var s' := Step(t, s).value;
      var lost := Traded(s'.fills) + Volume(side, BookOf(s', side), t.price) - (Traded(s.fills) + Volume(side, BookOf(s, side), t.price));
      lost <= 0 && (!NextMove(t, s).KillBid? && !NextMove(t, s).KillAsk? ==> lost == 0)
  {
    var s' := Step(t, s).value;
    StepShape(t, s);
    var k := CursorOf(s, side);
    var o' := BookOf(s', side)[k];
    StepSide(t, s, side, k);
    StepCursor(t, s, side);
    assert BookOf(s', side) == BookOf(s, side)[k := o'];
    VolumeUpdate(side, BookOf(s, side), t.price, k, o');
  }

  ghost predicate NoFok(s: seq<Order>) {
    forall i :: 0 <= i < |s| ==> s[i].orderType != TYPE_FOK
  }

  ghost predicate NoMinFill(s: seq<Order>) {
    forall i :: 0 <= i < |s| ==> s[i].minFill == 0
  }

  ghost predicate PlainBooks(s: Pass) {
    NoFok(s.bids) && NoFok(s.asks) && NoMinFill(s.bids) && NoMinFill(s.asks)
  }

  lemma StepKeepsPlain(t: Terms, s: Pass)
    requires CanStep(t, s) && PlainBooks(s)
    ensures PlainBooks(Step(t, s).value)
    ensures !NextMove(t, s).KillBid? && !NextMove(t, s).KillAsk? && !NextMove(t, s).SkipBid? && !NextMove(t, s).SkipAsk?
  {
  }

  /** What has been matched plus what each book still offers at the price never grows over a pass,
      and is conserved when nothing is fill-or-kill. */
  lemma {:induction false} RunVolume(t: Terms, s: Pass, side: Side)
    requires |s.ring| == BATCH_RESULTS_CAPACITY && Run(t, s).Ok?
    ensures
      var f := Run(t, s).value;
      var before := Traded(s.fills) + Volume(side, BookOf(s, side), t.price);
      var after := Traded(f.fills) + Volume(side, BookOf(f, side), t.price);
      after <= before && (PlainBooks(s) ==> after == before)
    decreases |s.bids| + |s.asks| - s.bi - s.ai
  {
    if s.Live() {
      StepShape(t, s);
      StepVolume(t, s, side);
      if PlainBooks(s) {
        StepKeepsPlain(t, s);
      }
      RunVolume(t, Step(t, s).value, side);
    }
  }

  // ---------- the front of a book is used up, the tail is untouched ----------

  ghost predicate SameTerms(o: Order, o': Order) {
    o'.limit == o.limit && o'.arrival == o.arrival && o'.amount <= o.amount
  }

  /** Behind the cursor nothing that crosses is left; past it nothing has changed. */
  ghost predicate FrontDone(side: Side, start: seq<Order>, now: seq<Order>, cursor: nat, p: uint64) {
    && |now| == |start|
    && (forall i :: 0 <= i < |now| && i < cursor && Crosses(side, now[i].limit, p) ==> now[i].amount == 0)
    && (forall i :: cursor < i < |now| ==> now[i] == start[i])
    && (forall i :: 0 <= i < |now| ==> SameTerms(start[i], now[i]))
    && (forall i :: 0 <= i < |now| && now[i].amount != start[i].amount ==> Crosses(side, now[i].limit, p))
  }

  lemma StepFrontDone(t: Terms, s: Pass, side: Side, start: seq<Order>)
    requires CanStep(t, s) && PlainBooks(s)
    requires FrontDone(side, start, BookOf(s, side), CursorOf(s, side), t.price)
    ensures FrontDone(side, start, BookOf(Step(t, s).value, side), CursorOf(Step(t, s).value, side), t.price)
  {
    StepCursor(t, s, side);
    StepKeepsPlain(t, s);
    forall k | 0 <= k < |BookOf(s, side)|
      ensures |BookOf(Step(t, s).value, side)| == |BookOf(s, side)|
      ensures k != CursorOf(s, side) ==> BookOf(Step(t, s).value, side)[k] == BookOf(s, side)[k]
      ensures Evolved(BookOf(s, side)[k], BookOf(Step(t, s).value, side)[k])
    {
      StepSide(t, s, side, k);
      StepEvolves(t, s, side, k);
    }
    StepSide(t, s, side, CursorOf(s, side));
  }

  lemma {:induction false} RunFrontDone(t: Terms, s: Pass, side: Side, start: seq<Order>)
    requires |s.ring| == BATCH_RESULTS_CAPACITY && Run(t, s).Ok? && PlainBooks(s)
    requires FrontDone(side, start, BookOf(s, side), CursorOf(s, side), t.price)
    ensures !Run(t, s).value.Live()
    ensures FrontDone(side, start, BookOf(Run(t, s).value, side), CursorOf(Run(t, s).value, side), t.price)
    decreases |s.bids| + |s.asks| - s.bi - s.ai
  {
    if s.Live() {
      StepShape(t, s);
      StepKeepsPlain(t, s);
      StepFrontDone(t, s, side, start);
      RunFrontDone(t, Step(t, s).value, side, start);
    }
  }

  lemma {:induction false} ZeroVolume(side: Side, s: seq<Order>, p: uint64)
    requires forall i :: 0 <= i < |s| && Crosses(side, s[i].limit, p) ==> s[i].amount == 0
    ensures Volume(side, s, p) == 0
  {
    if s != [] {
      ZeroVolume(side, s[..|s| - 1], p);
    }
  }

  /** The state a pass starts in. */
  ghost predicate Start(s: Pass) {
    s.bi == s.ai == 0 && s.fills == [] && |s.ring| == BATCH_RESULTS_CAPACITY
  }

  /** The pass never matches more than either side offers at the price, whatever the order types. */
  lemma NeverExceedsVolume(t: Terms, s: Pass)
    requires Start(s) && Run(t, s).Ok?
    ensures Traded(Run(t, s).value.fills) <= Min(Volume(Bid, s.bids, t.price), Volume(Ask, s.asks, t.price))
  {
    RunVolume(t, s, Bid);
    RunVolume(t, s, Ask);
  }

  lemma OneSideUsedUp(t: Terms, s: Pass)
    requires Start(s) && PlainBooks(s) && Run(t, s).Ok?
    ensures Volume(Bid, Run(t, s).value.bids, t.price) == 0 || Volume(Ask, Run(t, s).value.asks, t.price) == 0
  {
    var f := Run(t, s).value;
    RunFrontDone(t, s, Bid, s.bids);
    RunFrontDone(t, s, Ask, s.asks);
    if f.bi >= |f.bids| {
      ZeroVolume(Bid, f.bids, t.price);
    } else {
      ZeroVolume(Ask, f.asks, t.price);
    }
  }

  /** Without fill-or-kill orders and fill floors the greedy pass matches all there is to match. */
  lemma GreedyReachesVolume(t: Terms, s: Pass)
    requires Start(s) && PlainBooks(s) && Run(t, s).Ok?
    ensures Traded(Run(t, s).value.fills) == Min(Volume(Bid, s.bids, t.price), Volume(Ask, s.asks, t.price))
  {
    OneSideUsedUp(t, s);
    RunVolume(t, s, Bid);
    RunVolume(t, s, Ask);
  }

  // ---------- price-time priority ----------

  /** If an order traded, every order ahead of it in its book ends the pass wholly filled. */
  lemma PriceTimePriority(t: Terms, s: Pass, side: Side, first: nat, second: nat)
    requires Start(s) && PlainBooks(s) && Run(t, s).Ok?
    requires Sorted(side, BookOf(s, side))
    requires first < |BookOf(s, side)| && second < |BookOf(s, side)|
    requires Ahead(side, BookOf(s, side)[first], BookOf(s, side)[second])
    ensures
      var f := Run(t, s).value;
      && |BookOf(f, side)| == |BookOf(s, side)|
      && (BookOf(f, side)[second].amount != BookOf(s, side)[second].amount ==> BookOf(f, side)[first].amount == 0)
  {
    RunFrontDone(t, s, side, BookOf(s, side));
  }

  // ---------- nothing that still crosses is left ----------

  /** Two prices at which every changed order crosses saw the same volume go. */
  lemma {:induction false} SameLoss(side: Side, start: seq<Order>, now: seq<Order>, p: uint64, q: uint64)
    requires |now| == |start|
    requires forall i :: 0 <= i < |now| ==> now[i].limit == start[i].limit
    requires forall i :: 0 <= i < |now| && now[i].amount != start[i].amount ==>
      Crosses(side, now[i].limit, p) && Crosses(side, now[i].limit, q)
    ensures Volume(side, start, p) - Volume(side, now, p) == Volume(side, start, q) - Volume(side, now, q)
  {
    if start != [] {
      SameLoss(side, start[..|start| - 1], now[..|now| - 1], p, q);
    }
  }

  lemma {:induction false} VolumeHolds(side: Side, s: seq<Order>, p: uint64, i: nat)
    requires i < |s| && Crosses(side, s[i].limit, p)
    ensures Volume(side, s, p) >= s[i].amount
  {
    if i < |s| - 1 {
      VolumeHolds(side, s[..|s| - 1], p, i);
    }
  }

  lemma {:induction false} VolumeGrows(side: Side, s: seq<Order>, p: uint64, q: uint64)
    requires Crosses(side, p, q)
    ensures Volume(side, s, p) <= Volume(side, s, q)
  {
    if s != [] {
      VolumeGrows(side, s[..|s| - 1], p, q);
    }
  }

  lemma {:induction false} VolumeGap(side: Side, s: seq<Order>, p: uint64, q: uint64, i: nat)
    requires Crosses(side, p, q) && i < |s| && Crosses(side, s[i].limit, q) && !Crosses(side, s[i].limit, p)
    ensures Volume(side, s, p) + s[i].amount <= Volume(side, s, q)
  {
    if i < |s| - 1 {
      VolumeGap(side, s[..|s| - 1], p, q, i);
    } else {
      VolumeGrows(side, s[..|s| - 1], p, q);
    }
  }

  /** Side `x` is used up at `p`, yet order `i` is left: its own limit draws out more. */
  lemma LeftoverOnUsedSide(x: Side, mine: seq<Order>, mine': seq<Order>, p: uint64, i: nat)
    requires |mine'| == |mine| && i < |mine| && SameTerms(mine[i], mine'[i])
    requires Volume(x, mine', p) == 0 && mine'[i].amount > 0
    ensures !Crosses(x, mine[i].limit, p)
    ensures Volume(x, mine, mine[i].limit) > Volume(x, mine, p)
  {
    if Crosses(x, mine[i].limit, p) {
      VolumeHolds(x, mine', p, i);
    }
    VolumeGap(x, mine, p, mine[i].limit, i);
  }

  /** Order `j` is left and only orders that cross its limit `r` traded: at `r` there was more than traded. */
  lemma LeftoverOnOtherSide(y: Side, theirs: seq<Order>, theirs': seq<Order>, p: uint64, r: uint64, v: nat, j: nat)
    requires |theirs'| == |theirs| && j < |theirs| && r == theirs'[j].limit
    requires forall k :: 0 <= k < |theirs| ==> theirs'[k].limit == theirs[k].limit
    requires v + Volume(y, theirs', p) == Volume(y, theirs, p) && theirs'[j].amount > 0
    requires forall k :: 0 <= k < |theirs| && theirs'[k].amount != theirs[k].amount ==>
      Crosses(y, theirs'[k].limit, p) && Crosses(y, theirs'[k].limit, r)
    ensures Volume(y, theirs, r) > v
  {
    SameLoss(y, theirs, theirs', p, r);
    VolumeHolds(y, theirs', r, j);
  }

  /** Whoever traded crosses the limit of an order that is left: otherwise that one was ahead. */
  lemma TradedAheadOf(t: Terms, s: Pass, y: Side, j: nat, k: nat)
    requires Start(s) && PlainBooks(s) && Run(t, s).Ok? && Sorted(y, BookOf(s, y))
    requires j < |BookOf(s, y)| && k < |BookOf(s, y)| && |BookOf(Run(t, s).value, y)| == |BookOf(s, y)|
    requires BookOf(Run(t, s).value, y)[j].amount > 0
    requires BookOf(Run(t, s).value, y)[k].amount != BookOf(s, y)[k].amount
    ensures Crosses(y, BookOf(s, y)[k].limit, BookOf(s, y)[j].limit)
  {
    if !Crosses(y, BookOf(s, y)[k].limit, BookOf(s, y)[j].limit) {
      PriceTimePriority(t, s, y, j, k);
    }
  }

  /** Were side `x` used up with order `i` left on it, its limit would draw out more than was matched. */
  lemma UsedSideBeatsPrice(t: Terms, s: Pass, x: Side, i: nat)
    requires Start(s) && PlainBooks(s) && Run(t, s).Ok?
    requires i < |BookOf(s, x)| && |BookOf(Run(t, s).value, x)| == |BookOf(s, x)|
    requires Volume(x, BookOf(Run(t, s).value, x), t.price) == 0
    requires BookOf(Run(t, s).value, x)[i].amount > 0
    ensures Volume(x, BookOf(s, x), BookOf(s, x)[i].limit) > Traded(Run(t, s).value.fills)
  {
    var f := Run(t, s).value;
    RunVolume(t, s, x);
    RunFrontDone(t, s, x, BookOf(s, x));
    LeftoverOnUsedSide(x, BookOf(s, x), BookOf(f, x), t.price, i);
  }

  /** With order `j` left on side `y`, there was more than was matched at its limit. */
  lemma LeftoverBeatsPrice(t: Terms, s: Pass, y: Side, j: nat)
    requires Start(s) && PlainBooks(s) && Run(t, s).Ok? && Sorted(y, BookOf(s, y))
    requires j < |BookOf(s, y)| && |BookOf(Run(t, s).value, y)| == |BookOf(s, y)|
    requires BookOf(Run(t, s).value, y)[j].amount > 0
    ensures Volume(y, BookOf(s, y), BookOf(s, y)[j].limit) > Traded(Run(t, s).value.fills)
  {
    var f := Run(t, s).value;
    var theirs, theirs' := BookOf(s, y), BookOf(f, y);
    RunVolume(t, s, y);
    RunFrontDone(t, s, y, theirs);
    forall k | 0 <= k < |theirs| && theirs'[k].amount != theirs[k].amount
      ensures Crosses(y, theirs[k].limit, theirs[j].limit)
    {
      TradedAheadOf(t, s, y, j, k);
    }
    LeftoverOnOtherSide(y, theirs, theirs', t.price, theirs[j].limit, Traded(f.fills), j);
  }

  /** After a pass at the clearing price every bid left is strictly below every ask left. */
  lemma ResidualUncrossed(t: Terms, s: Pass, i: nat, j: nat)
    requires Start(s) && PlainBooks(s) && Run(t, s).Ok?
    requires Sorted(Bid, s.bids) && Sorted(Ask, s.asks)
    requires forall q: uint64 :: Volume(Bid, s.bids, q) <= U64_MAX && Volume(Ask, s.asks, q) <= U64_MAX
    requires ClearingPrice(s.bids, s.asks).Some? && t.price == ClearingPrice(s.bids, s.asks).value.0
    requires i < |s.bids| && j < |s.asks|
    requires |Run(t, s).value.bids| == |s.bids| && |Run(t, s).value.asks| == |s.asks|
    requires Run(t, s).value.bids[i].amount > 0 && Run(t, s).value.asks[j].amount > 0
    ensures s.bids[i].limit < s.asks[j].limit
  {
    var f := Run(t, s).value;
    GreedyReachesVolume(t, s);
    OneSideUsedUp(t, s);
    ClearingPriceOptimal(s.bids, s.asks);
    SatVolumeClamps(Bid, s.bids, t.price);
    SatVolumeClamps(Ask, s.asks, t.price);
    if s.bids[i].limit >= s.asks[j].limit {
      if Volume(Bid, f.bids, t.price) == 0 {
        var q := s.bids[i].limit;
        UsedSideBeatsPrice(t, s, Bid, i);
        LeftoverBeatsPrice(t, s, Ask, j);
        VolumeGrows(Ask, s.asks, s.asks[j].limit, q);
        SatVolumeClamps(Bid, s.bids, q);
        SatVolumeClamps(Ask, s.asks, q);
        var better := Matched(s.bids, s.asks, q);
      } else {
        var q := s.asks[j].limit;
        UsedSideBeatsPrice(t, s, Ask, j);
        LeftoverBeatsPrice(t, s, Bid, i);
        VolumeGrows(Bid, s.bids, s.bids[i].limit, q);
        SatVolumeClamps(Bid, s.bids, q);
        SatVolumeClamps(Ask, s.asks, q);
        var better := Matched(s.bids, s.asks, q);
      }
    }
  }
}
