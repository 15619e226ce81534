// The uniform clearing price of a batch.
module Auction {
  import opened Prelude
  import opened Orders

  /** Total amount of the orders of one side that cross at `p`. */
  function Volume(side: Side, s: seq<Order>, p: uint64): nat {
    if s == [] then 0
    else
      var o := s[|s| - 1];
      Volume(side, s[..|s| - 1], p) + if Crosses(side, o.limit, p) then o.amount else 0
  }

  /** The same sum as the program folds it, saturating at `u64::MAX`. */
  function SatVolume(side: Side, s: seq<Order>, p: uint64): uint64 {
    if s == [] then 0
    else
      var o := s[|s| - 1];
      var v := SatVolume(side, s[..|s| - 1], p);
      if Crosses(side, o.limit, p) then SatAdd(v, o.amount) else v
  }

  lemma {:induction false} SatVolumeClamps(side: Side, s: seq<Order>, p: uint64)
    ensures SatVolume(side, s, p) == Min(U64_MAX, Volume(side, s, p))
  {
    if s != [] {
      SatVolumeClamps(side, s[..|s| - 1], p);
    }
  }

  /** What trades at `p`: the smaller of demand and supply. */
  function Matched(bids: seq<Order>, asks: seq<Order>, p: uint64): uint64 {
    Min(SatVolume(Bid, bids, p), SatVolume(Ask, asks, p))
  }

  // ---------- candidate prices ----------

  function InsertPrice(s: seq<uint64>, p: uint64): (r: seq<uint64>)
  {
    if s == [] || s[|s| - 1] < p then s + [p]
    else if s[|s| - 1] == p then s
    else InsertPrice(s[..|s| - 1], p) + [s[|s| - 1]]
  }

  /** `sort` followed by `dedup`. */
  function SortDedup(s: seq<uint64>): (r: seq<uint64>)
  {
    if s == [] then [] else InsertPrice(SortDedup(s[..|s| - 1]), s[|s| - 1])
  }

  ghost predicate Ascending(s: seq<uint64>) {
    forall i, j :: 0 <= i < j < |s| ==> s[i] < s[j]
  }

  lemma {:induction false} InsertPriceAscending(s: seq<uint64>, p: uint64)
    requires Ascending(s)
    ensures Ascending(InsertPrice(s, p))
    ensures forall x :: x in InsertPrice(s, p) <==> x in s || x == p
  {
    if s != [] && s[|s| - 1] > p {
      InsertPriceAscending(s[..|s| - 1], p);
      var t := InsertPrice(s[..|s| - 1], p);
      forall i | 0 <= i < |t| ensures t[i] < s[|s| - 1] {
        assert t[i] in t;
      }
      assert s == s[..|s| - 1] + [s[|s| - 1]];
    }
  }

  lemma {:induction false} SortDedupAscending(s: seq<uint64>)
    ensures Ascending(SortDedup(s))
    ensures forall x :: x in SortDedup(s) <==> x in s
  {
    if s != [] {
      SortDedupAscending(s[..|s| - 1]);
      InsertPriceAscending(SortDedup(s[..|s| - 1]), s[|s| - 1]);
      assert s == s[..|s| - 1] + [s[|s| - 1]];
    }
  }

  function Limits(s: seq<Order>): (r: seq<uint64>)
    ensures |r| == |s|
    ensures forall i :: 0 <= i < |s| ==> r[i] == s[i].limit
  {
    seq(|s|, i requires 0 <= i < |s| => s[i].limit)
  }

  function Candidates(bids: seq<Order>, asks: seq<Order>): seq<uint64> {
    SortDedup(Limits(bids) + Limits(asks))
  }

  // ---------- the price scan ----------

  datatype Best = Best(price: Option<uint64>, matched: uint64)

  /** The scan over the first `k` candidates: a later price must beat the best so far. */
  function Scan(bids: seq<Order>, asks: seq<Order>, cands: seq<uint64>, k: nat): Best
    requires k <= |cands|
  {
    if k == 0 then Best(None, 0)
    else
      var best := Scan(bids, asks, cands, k - 1);
      var m := Matched(bids, asks, cands[k - 1]);
      if m > best.matched then Best(Some(cands[k - 1]), m) else best
  }

  /** `compute_clearing_price`. */
  function ClearingPrice(bids: seq<Order>, asks: seq<Order>): Option<(uint64, uint64)> {
    if bids == [] || asks == [] then None
    else
      var cands := Candidates(bids, asks);
      var best := Scan(bids, asks, cands, |cands|);
      if best.price.Some? then Some((best.price.value, best.matched)) else None
  }

  method SideVolume(side: Side, s: seq<Order>, p: uint64) returns (v: uint64)
    ensures v == SatVolume(side, s, p)
  {
    v := 0;
    for i := 0 to |s|
      invariant v == SatVolume(side, s[..i], p)
    {
      assert s[..i + 1][..i] == s[..i];
      if Crosses(side, s[i].limit, p) {
        v := SatAdd(v, s[i].amount);
      }
    }
    assert s[..|s|] == s;
  }

  method ComputeClearingPrice(bids: seq<Order>, asks: seq<Order>) returns (r: Option<(uint64, uint64)>)
    ensures r == ClearingPrice(bids, asks)
  {
    if bids == [] || asks == [] {
      return None;
    }
    var pushed: seq<uint64> := [];
    for i := 0 to |bids|
      invariant pushed == Limits(bids)[..i]
    {
      pushed := pushed + [bids[i].limit];
    }
    for i := 0 to |asks|
      invariant pushed == Limits(bids) + Limits(asks)[..i]
    {
      pushed := pushed + [asks[i].limit];
    }
    assert pushed == Limits(bids) + Limits(asks);
    var candidates := SortDedup(pushed);
    var bestP: Option<uint64> := None;
    var bestMatched: uint64 := 0;
    for i := 0 to |candidates|
      invariant Best(bestP, bestMatched) == Scan(bids, asks, candidates, i)
    {
      var demand := SideVolume(Bid, bids, candidates[i]);
      var supply := SideVolume(Ask, asks, candidates[i]);
      var matched: uint64 := Min(demand, supply);
      if matched > bestMatched {
        bestMatched := matched;
        bestP := Some(candidates[i]);
      }
    }
    return if bestP.Some? then Some((bestP.value, bestMatched)) else None;
  }

  // ---------- optimality over every price ----------

  /** Prices that the same orders cross at have the same volume. */
  lemma {:induction false} VolumeCongruent(side: Side, s: seq<Order>, p: uint64, q: uint64)
    requires forall i :: 0 <= i < |s| ==> Crosses(side, s[i].limit, p) == Crosses(side, s[i].limit, q)
    ensures SatVolume(side, s, p) == SatVolume(side, s, q)
  {
    if s != [] {
      VolumeCongruent(side, s[..|s| - 1], p, q);
    }
  }

  /** Moving the price in a side's favour never lowers its volume. */
  lemma {:induction false} VolumeMonotone(side: Side, s: seq<Order>, p: uint64, q: uint64)
    requires Crosses(side, p, q)
    ensures SatVolume(side, s, p) <= SatVolume(side, s, q)
  {
    if s != [] {
      VolumeMonotone(side, s[..|s| - 1], p, q);
    }
  }

  lemma {:induction false} PositiveVolumeCrosses(side: Side, s: seq<Order>, p: uint64)
    requires SatVolume(side, s, p) > 0
    ensures exists i :: 0 <= i < |s| && Crosses(side, s[i].limit, p)
  {
    if s != [] && !Crosses(side, s[|s| - 1].limit, p) {
      PositiveVolumeCrosses(side, s[..|s| - 1], p);
    }
  }

  /** The limit nearest to `p` among the orders that cross there. */
  lemma NearestLimit(side: Side, s: seq<Order>, p: uint64) returns (c: uint64)
    requires SatVolume(side, s, p) > 0
    ensures exists i :: 0 <= i < |s| && s[i].limit == c
    ensures Crosses(side, c, p)
    ensures SatVolume(side, s, c) == SatVolume(side, s, p)
  {
    PositiveVolumeCrosses(side, s, p);
    var w :| 0 <= w < |s| && Crosses(side, s[w].limit, p);
    for k := 0 to |s|
      invariant 0 <= w < |s| && Crosses(side, s[w].limit, p)
      invariant forall i :: 0 <= i < k && Crosses(side, s[i].limit, p) ==> Crosses(side, s[i].limit, s[w].limit)
    {
      if Crosses(side, s[k].limit, p) && !Crosses(side, s[k].limit, s[w].limit) {
        w := k;
      }
    }
    c := s[w].limit;
    VolumeCongruent(side, s, p, c);
  }

  /** Every price is dominated by a candidate on either side of it. */
  lemma CandidateDominates(bids: seq<Order>, asks: seq<Order>, p: uint64) returns (up: uint64, down: uint64)
    requires Matched(bids, asks, p) > 0
    ensures up in Candidates(bids, asks) && up >= p && Matched(bids, asks, up) >= Matched(bids, asks, p)
    ensures down in Candidates(bids, asks) && down <= p && Matched(bids, asks, down) >= Matched(bids, asks, p)
  {
    SortDedupAscending(Limits(bids) + Limits(asks));
    up := NearestLimit(Bid, bids, p);
    down := NearestLimit(Ask, asks, p);
    VolumeMonotone(Ask, asks, p, up);
    VolumeMonotone(Bid, bids, p, down);
    var i :| 0 <= i < |bids| && bids[i].limit == up;
    var j :| 0 <= j < |asks| && asks[j].limit == down;
    assert (Limits(bids) + Limits(asks))[i] == up;
    assert (Limits(bids) + Limits(asks))[|bids| + j] == down;
  }

  ghost predicate IsFirstBest(bids: seq<Order>, asks: seq<Order>, cands: seq<uint64>, k: nat, best: Best)
    requires k <= |cands| && best.price.Some?
  {
    exists i ::
      && 0 <= i < k && cands[i] == best.price.value
      && Matched(bids, asks, cands[i]) == best.matched
      && (forall j :: 0 <= j < i ==> Matched(bids, asks, cands[j]) < best.matched)
  }

  /** The scan keeps the first of the best candidates. */
  lemma {:induction false} ScanBest(bids: seq<Order>, asks: seq<Order>, cands: seq<uint64>, k: nat)
    requires k <= |cands|
    ensures
      var best := Scan(bids, asks, cands, k);
      && (forall i :: 0 <= i < k ==> Matched(bids, asks, cands[i]) <= best.matched)
      && (best.price.None? ==> best.matched == 0)
      && (best.price.Some? ==> best.matched > 0 && IsFirstBest(bids, asks, cands, k, best))
  {
    if k > 0 {
      ScanBest(bids, asks, cands, k - 1);
    }
  }

  /** The clearing price maximises the matched volume over every u64 price and is the least price
      that does; there is none exactly when no price matches anything. */
  lemma ClearingPriceOptimal(bids: seq<Order>, asks: seq<Order>)
    ensures ClearingPrice(bids, asks).None? <==> forall q: uint64 :: Matched(bids, asks, q) == 0
    ensures ClearingPrice(bids, asks).Some? ==>
      var (p, v) := ClearingPrice(bids, asks).value;
      && v == Matched(bids, asks, p) > 0
      && (forall q: uint64 :: Matched(bids, asks, q) <= v)
      && (forall q: uint64 :: q < p ==> Matched(bids, asks, q) < v)
  {
    var cands := Candidates(bids, asks);
    ScanBest(bids, asks, cands, |cands|);
    SortDedupAscending(Limits(bids) + Limits(asks));
    var best := Scan(bids, asks, cands, |cands|);
    forall q: uint64 | Matched(bids, asks, q) > 0
      ensures Matched(bids, asks, q) <= best.matched
      ensures best.price.Some? && q < best.price.value ==> Matched(bids, asks, q) < best.matched
    {
      var up, down := CandidateDominates(bids, asks, q);
      var i :| 0 <= i < |cands| && cands[i] == down;
      if best.price.Some? {
        var w :| 0 <= w < |cands| && cands[w] == best.price.value
          && Matched(bids, asks, cands[w]) == best.matched
          && (forall j :: 0 <= j < w ==> Matched(bids, asks, cands[j]) < best.matched);
        if q < best.price.value {
          assert i < w;
        }
      }
    }
  }
}
