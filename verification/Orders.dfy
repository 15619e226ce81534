// Order slots, the matcher's working copies of them, and the order of the two books.
module Orders {
  import opened Prelude
  import opened Crypto

  const SIDE_BID: uint8 := 0
  const SIDE_ASK: uint8 := 1

  const TYPE_LIMIT: uint8 := 0
  const TYPE_IOC: uint8 := 1
  const TYPE_FOK: uint8 := 2
  /** `u8::MAX` in a working copy: a fill-or-kill order that was killed. */
  const TYPE_KILLED: uint8 := 255

  const STATUS_EMPTY: uint8 := 0
  const STATUS_PENDING: uint8 := 1
  const STATUS_MATCHED: uint8 := 2
  const STATUS_EXPIRED: uint8 := 3
  const STATUS_CANCELLED: uint8 := 4

  /** The `PendingOrder` account. */
  datatype PendingOrder = PendingOrder(
    tradingKey: Digest,
    market: Digest,
    status: uint8,
    side: uint8,
    orderType: uint8,
    slotIdx: uint8,
    arrival: uint64,
    expiry: uint64,
    limit: uint64,
    amount: uint64,
    total: uint64,
    filled: uint64,
    minFill: uint64,
    noteAmount: uint64,
    note: Digest,
    owner: Digest,
    orderId: OrderId,
    inclusion: Digest)
  {
    predicate Pending() {
      status == STATUS_PENDING
    }
  }

  /** `OrderSnapshot`: the working copy of a slot during a batch; `slot` is the account it came from. */
  datatype Order = Order(
    slot: nat,
    side: uint8,
    orderType: uint8,
    arrival: uint64,
    expiry: uint64,
    limit: uint64,
    amount: uint64,
    minFill: uint64,
    noteAmount: uint64,
    note: Digest,
    owner: Digest,
    tradingKey: Digest,
    orderId: OrderId,
    inclusion: Digest)

  /** `snapshot_from_slot`. */
  function Snapshot(p: PendingOrder, slot: nat): Order {
    Order(slot, p.side, p.orderType, p.arrival, p.expiry, p.limit, p.amount, p.minFill,
          p.noteAmount, p.note, p.owner, p.tradingKey, p.orderId, p.inclusion)
  }

  /** The two sides of the book. */
  datatype Side = Bid | Ask

  /** Whether an order with this limit trades at price `p`. */
  predicate Crosses(side: Side, limit: uint64, p: uint64) {
    match side
    case Bid => limit >= p
    case Ask => limit <= p
  }

  /** A strictly better limit for the book: higher for bids, lower for asks. */
  predicate Better(side: Side, limit: uint64, other: uint64) {
    match side
    case Bid => limit > other
    case Ask => limit < other
  }

  /** The comparison of the sort: price first, then arrival. */
  predicate Ahead(side: Side, a: Order, b: Order) {
    Better(side, a.limit, b.limit) || (a.limit == b.limit && a.arrival < b.arrival)
  }

  ghost predicate Sorted(side: Side, s: seq<Order>) {
    forall i, j :: 0 <= i < j < |s| ==> !Ahead(side, s[j], s[i])
  }

  /** All orders of one limit and arrival, in the order they are listed. */
  ghost function SameKey(s: seq<Order>, limit: uint64, arrival: uint64): seq<Order> {
    if s == [] then []
    else
      var rest := SameKey(s[..|s| - 1], limit, arrival);
      var o := s[|s| - 1];
      if o.limit == limit && o.arrival == arrival then rest + [o] else rest
  }

  /** Insertion behind everything the new order is not ahead of. */
  function Insert(side: Side, s: seq<Order>, o: Order): (r: seq<Order>)
    ensures |r| == |s| + 1
    ensures multiset(r) == multiset(s) + multiset{o}
  {
    if s == [] || !Ahead(side, o, s[|s| - 1]) then s + [o]
    else
      assert s == s[..|s| - 1] + [s[|s| - 1]];
      Insert(side, s[..|s| - 1], o) + [s[|s| - 1]]
  }

  /** The stable library sort, `sort_by`. */
  function Sort(side: Side, s: seq<Order>): (r: seq<Order>)
    ensures |r| == |s|
    ensures multiset(r) == multiset(s)
  {
    if s == [] then []
    else
      assert s == s[..|s| - 1] + [s[|s| - 1]];
      Insert(side, Sort(side, s[..|s| - 1]), s[|s| - 1])
  }

  lemma {:induction false} InsertMembers(side: Side, s: seq<Order>, o: Order)
    ensures forall x :: x in Insert(side, s, o) <==> x in s || x == o
  {
    if s != [] && Ahead(side, o, s[|s| - 1]) {
      InsertMembers(side, s[..|s| - 1], o);
      assert s == s[..|s| - 1] + [s[|s| - 1]];
    }
  }

  lemma {:induction false} SortMembers(side: Side, s: seq<Order>)
    ensures forall x :: x in Sort(side, s) <==> x in s
  {
    if s != [] {
      SortMembers(side, s[..|s| - 1]);
      InsertMembers(side, Sort(side, s[..|s| - 1]), s[|s| - 1]);
      assert s == s[..|s| - 1] + [s[|s| - 1]];
    }
  }

  lemma {:induction false} InsertSorted(side: Side, s: seq<Order>, o: Order)
    requires Sorted(side, s)
    ensures Sorted(side, Insert(side, s, o))
  {
    if s != [] && Ahead(side, o, s[|s| - 1]) {
      InsertSorted(side, s[..|s| - 1], o);
      InsertMembers(side, s[..|s| - 1], o);
      var t := Insert(side, s[..|s| - 1], o);
      forall i | 0 <= i < |t| ensures !Ahead(side, s[|s| - 1], t[i]) {
        assert t[i] in t;
      }
    }
  }

  /** The result of the sort is in book order. */
  lemma {:induction false} SortSorts(side: Side, s: seq<Order>)
    ensures Sorted(side, Sort(side, s))
  {
    if s != [] {
      SortSorts(side, s[..|s| - 1]);
      InsertSorted(side, Sort(side, s[..|s| - 1]), s[|s| - 1]);
    }
  }

  lemma {:induction false} InsertStable(side: Side, s: seq<Order>, o: Order, limit: uint64, arrival: uint64)
    ensures SameKey(Insert(side, s, o), limit, arrival) == SameKey(s + [o], limit, arrival)
  {
    assert (s + [o])[..|s|] == s;
    if s != [] && Ahead(side, o, s[|s| - 1]) {
      var t, last := s[..|s| - 1], s[|s| - 1];
      InsertStable(side, t, o, limit, arrival);
      assert (Insert(side, t, o) + [last])[..|s|] == Insert(side, t, o);
      assert (t + [o])[..|t|] == t;
    }
  }

  /** Orders with the same limit and arrival keep the order the accounts were listed in. */
  lemma {:induction false} SortStable(side: Side, s: seq<Order>, limit: uint64, arrival: uint64)
    ensures SameKey(Sort(side, s), limit, arrival) == SameKey(s, limit, arrival)
  {
    if s != [] {
      var t, last := s[..|s| - 1], s[|s| - 1];
      SortStable(side, t, limit, arrival);
      InsertStable(side, Sort(side, t), last, limit, arrival);
      assert (Sort(side, t) + [last])[..|t|] == Sort(side, t);
    }
  }
}
