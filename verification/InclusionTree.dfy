// The SHA-256 tree over the order-inclusion commitments of a batch: the root the matcher
// publishes, and the SDK's root, path generator and path verifier.
module InclusionTree {
  import opened Prelude
  import opened Crypto
  import opened MerkleTree

  /** Least height whose perfect tree holds `n` leaves. */
  function Height(n: nat): (k: nat)
    ensures n <= Pow2(k)
    ensures k > 0 ==> Pow2(k - 1) < n
  {
    HeightFrom(n, 0)
  }

  function HeightFrom(n: nat, k: nat): (r: nat)
    requires k > 0 ==> Pow2(k - 1) < n
    ensures n <= Pow2(r)
    ensures r > 0 ==> Pow2(r - 1) < n
    decreases n - Pow2(k)
  {
    if n <= Pow2(k) then k else HeightFrom(n, k + 1)
  }

  lemma Pow2Less(a: nat, b: nat)
    requires a < b
    ensures 2 * Pow2(a) <= Pow2(b)
  {
    if a + 1 < b {
      Pow2Less(a, b - 1);
    }
  }

  /** The height is determined by its two bounds. */
  lemma HeightUnique(n: nat, k: nat)
    requires n <= Pow2(k) && (k > 0 ==> Pow2(k - 1) < n)
    ensures k == Height(n)
  {
    var r := Height(n);
    if r < k {
      if r < k - 1 { Pow2Less(r, k - 1); }
    } else if k < r {
      if k < r - 1 { Pow2Less(k, r - 1); }
    }
  }

  /** The row of a batch: short rows are padded with their last leaf. */
  function BatchRow(leaves: seq<Digest>): Row<Digest>
    requires leaves != []
  {
    Row(leaves, leaves[|leaves| - 1])
  }

  /** The reference root: zero for no leaves, otherwise the perfect tree of least height. */
  ghost function InclusionRoot(h: (Digest, Digest) -> Digest, leaves: seq<Digest>): Digest {
    if leaves == [] then 0 else Root(h, BatchRow(leaves), Height(|leaves|))
  }

  /** The roots of the smallest batches, written out: a third leaf is paired with itself. */
  lemma SmallRoots(h: (Digest, Digest) -> Digest, a: Digest, b: Digest, c: Digest, d: Digest)
    ensures InclusionRoot(h, []) == 0
    ensures InclusionRoot(h, [a]) == a
    ensures InclusionRoot(h, [a, b]) == h(a, b)
    ensures InclusionRoot(h, [a, b, c]) == h(h(a, b), h(c, c))
    ensures InclusionRoot(h, [a, b, c, d]) == h(h(a, b), h(c, d))
  {
    HeightUnique(1, 0);
    HeightUnique(2, 1);
    HeightUnique(3, 2);
    HeightUnique(4, 2);
    RootOfFour(h, BatchRow([a, b, c]));
    RootOfFour(h, BatchRow([a, b, c, d]));
    assert Node(h, BatchRow([a, b]), 1, 0) == h(BatchRow([a, b]).At(0), BatchRow([a, b]).At(1));
  }

  lemma RootOfFour(h: (Digest, Digest) -> Digest, row: Row<Digest>)
    ensures Root(h, row, 2) == h(h(row.At(0), row.At(1)), h(row.At(2), row.At(3)))
  {
    assert Node(h, row, 1, 0) == h(row.At(0), row.At(1));
    assert Node(h, row, 1, 1) == h(row.At(2), row.At(3));
  }

  /** `level` is the full list of nodes at height `d` under the root at height `height`. */
  ghost predicate FullLevel(h: (Digest, Digest) -> Digest, row: Row<Digest>, d: nat, height: nat, level: seq<Digest>) {
    && d <= height
    && |level| == Pow2(height - d)
    && forall i :: 0 <= i < |level| ==> level[i] == Node(h, row, d, i)
  }

  /** Doubles `target` past the length, then repeats the last leaf. */
  method PadLast(h: (Digest, Digest) -> Digest, leaves: seq<Digest>) returns (level: seq<Digest>)
    requires leaves != []
    ensures FullLevel(h, BatchRow(leaves), 0, Height(|leaves|), level)
  {
    level := leaves;
    var target := 1;
    ghost var k := 0;
    while target < |level|
      invariant target == Pow2(k) && (k > 0 ==> Pow2(k - 1) < |leaves|)
      decreases |level| - target
    {
      target := target * 2;
      k := k + 1;
    }
    HeightUnique(|leaves|, k);
    while |level| < target
      invariant |leaves| <= |level| <= target
      invariant forall i :: 0 <= i < |level| ==> level[i] == BatchRow(leaves).At(i)
      decreases target - |level|
    {
      level := level + [level[|level| - 1]];
    }
  }

  /** Hashes the level pair by pair. */
  method HashPairs(h: (Digest, Digest) -> Digest, level: seq<Digest>, ghost row: Row<Digest>, ghost d: nat, ghost height: nat)
    returns (next: seq<Digest>)
    requires FullLevel(h, row, d, height, level) && d < height
    ensures FullLevel(h, row, d + 1, height, next)
  {
    next := [];
    var i := 0;
    while i < |level|
      invariant i == 2 * |next| && i <= |level|
      invariant forall j :: 0 <= j < |next| ==> next[j] == Node(h, row, d + 1, j)
    {
      assert level[i] == Node(h, row, d, 2 * |next|) && level[i + 1] == Node(h, row, d, 2 * |next| + 1);
      next := next + [h(level[i], level[i + 1])];
      i := i + 2;
    }
  }

  /** A level of one node is the root's. */
  lemma TopLevel(h: (Digest, Digest) -> Digest, row: Row<Digest>, d: nat, height: nat, level: seq<Digest>)
    requires FullLevel(h, row, d, height, level)
    ensures |level| <= 1 <==> d == height
  {
  }

  /** `merkle_root_sha256` and `computeInclusionRoot`. */
  method ComputeInclusionRoot(h: (Digest, Digest) -> Digest, leaves: seq<Digest>) returns (root: Digest)
    ensures root == InclusionRoot(h, leaves)
  {
    if leaves == [] {
      return 0;
    }
    var level := PadLast(h, leaves);
    ghost var height, d, row := Height(|leaves|), 0, BatchRow(leaves);
    TopLevel(h, row, d, height, level);
    while |level| > 1
      invariant FullLevel(h, row, d, height, level) && (|level| <= 1 <==> d == height)
      decreases height - d
    {
      level := HashPairs(h, level, row, d, height);
      d := d + 1;
      TopLevel(h, row, d, height, level);
    }
    return level[0];
  }

  /** `computeInclusionPath`: fails out of range; otherwise the siblings and directions, bottom-up. */
  method ComputeInclusionPath(h: (Digest, Digest) -> Digest, leaves: seq<Digest>, index: int)
    returns (r: Option<(seq<Digest>, seq<nat>)>)
    ensures r.None? <==> leaves == [] || index < 0 || index >= |leaves|
    ensures r.Some? ==> |r.value.0| == Height(|leaves|)
    ensures r.Some? ==> IsPath(h, BatchRow(leaves), index, r.value.0, r.value.1)
  {
    if leaves == [] || index < 0 || index >= |leaves| {
      return None;
    }
    var level := PadLast(h, leaves);
    var siblings: seq<Digest>, pathIndices: seq<nat> := [], [];
    var idx: nat := index;
    ghost var height, d, row := Height(|leaves|), 0, BatchRow(leaves);
    TopLevel(h, row, d, height, level);
    while |level| > 1
      invariant FullLevel(h, row, d, height, level) && (|level| <= 1 <==> d == height)
      invariant idx == Up(index, d) < |level|
      invariant |siblings| == d && IsPath(h, row, index, siblings, pathIndices)
      decreases height - d
    {
      assert |level| == 2 * Pow2(height - d - 1);
      var sib := if idx % 2 == 0 then level[idx + 1] else level[idx - 1];
      PathExtends(h, row, index, siblings, pathIndices, idx, sib);
      siblings := siblings + [sib];
      pathIndices := pathIndices + [idx % 2];
      level := HashPairs(h, level, row, d, height);
      idx := idx / 2;
      d := d + 1;
      TopLevel(h, row, d, height, level);
    }
    return Some((siblings, pathIndices));
  }

  /** `verifyInclusionPath`. */
  method VerifyInclusionPath(h: (Digest, Digest) -> Digest, leaf: Digest, index: nat, siblings: seq<Digest>, root: Digest)
    returns (ok: bool)
    ensures ok <==> Fold(h, leaf, index, siblings) == root
  {
    var cur: Digest, idx: nat := leaf, index;
    for k := 0 to |siblings|
      invariant Fold(h, cur, idx, siblings[k..]) == Fold(h, leaf, index, siblings)
    {
      assert siblings[k..][1..] == siblings[k + 1..];
      cur := if idx % 2 == 0 then h(cur, siblings[k]) else h(siblings[k], cur);
      idx := idx / 2;
    }
    return cur == root;
  }

  /** Completeness: every generated path verifies. */
  lemma GeneratedPathVerifies(h: (Digest, Digest) -> Digest, leaves: seq<Digest>, index: nat, siblings: seq<Digest>, indices: seq<nat>)
    requires index < |leaves|
    requires |siblings| == Height(|leaves|) && IsPath(h, BatchRow(leaves), index, siblings, indices)
    ensures Fold(h, leaves[index], index, siblings) == InclusionRoot(h, leaves)
  {
    PathFolds(h, BatchRow(leaves), index, 0, siblings);
    assert siblings[0..] == siblings;
    UpZero(index, Height(|leaves|));
  }

  /** Soundness: a path of the tree's height that verifies another leaf at `index` exhibits a collision. */
  lemma ForgedPathCollides(h: (Digest, Digest) -> Digest, leaves: seq<Digest>, index: nat, other: Digest, siblings: seq<Digest>)
    requires index < |leaves| && |siblings| == Height(|leaves|)
    requires other != leaves[index]
    requires Fold(h, other, index, siblings) == InclusionRoot(h, leaves)
    ensures |siblings| > 0
    ensures IsCollision(h, ExtractCollision(h, BatchRow(leaves), 0, index, other, siblings))
  {
    UpZero(index, Height(|leaves|));
    PathBinding(h, BatchRow(leaves), 0, index, other, siblings);
  }

  // ---------- paths of other lengths ----------

  /** The low `k` bits of an index: the index modulo 2^k. */
  function LowBits(index: nat, k: nat): (r: nat)
    ensures r < Pow2(k)
  {
    if k == 0 then 0 else index % 2 + 2 * LowBits(index / 2, k - 1)
  }

  /** The verifier looks at as many bits of the index as there are siblings. */
  lemma {:induction false} FoldIgnoresHighBits(h: (Digest, Digest) -> Digest, cur: Digest, index: nat, siblings: seq<Digest>)
    ensures Fold(h, cur, index, siblings) == Fold(h, cur, LowBits(index, |siblings|), siblings)
    decreases |siblings|
  {
    if siblings != [] {
      var next := if index % 2 == 0 then h(cur, siblings[0]) else h(siblings[0], cur);
      FoldIgnoresHighBits(h, next, index / 2, siblings[1..]);
    }
  }

  /** Without a length check the verifier also accepts inner nodes: node `d` levels up, with the rest
      of the path, verifies at the index shifted by `d`; the root itself with no path at all. */
  lemma InnerNodeVerifies(h: (Digest, Digest) -> Digest, leaves: seq<Digest>, index: nat, siblings: seq<Digest>, indices: seq<nat>, d: nat)
    requires index < |leaves| && d <= |siblings| == Height(|leaves|) && IsPath(h, BatchRow(leaves), index, siblings, indices)
    ensures Fold(h, Node(h, BatchRow(leaves), d, Up(index, d)), Up(index, d), siblings[d..]) == InclusionRoot(h, leaves)
  {
    PathFolds(h, BatchRow(leaves), index, d, siblings);
    UpZero(index, Height(|leaves|));
  }

  /** What acceptance of a path no longer than the tree is high means: the value is the node that many
      levels below the root, at the index's low bits, or a collision is exhibited. */
  lemma AcceptedPathMeans(h: (Digest, Digest) -> Digest, leaves: seq<Digest>, value: Digest, index: nat, siblings: seq<Digest>)
    requires leaves != [] && |siblings| <= Height(|leaves|)
    requires Fold(h, value, index, siblings) == InclusionRoot(h, leaves)
    ensures
      var level := Height(|leaves|) - |siblings|;
      var i := LowBits(index, |siblings|);
      value == Node(h, BatchRow(leaves), level, i)
      || (siblings != [] && IsCollision(h, ExtractCollision(h, BatchRow(leaves), level, i, value, siblings)))
  {
    var level := Height(|leaves|) - |siblings|;
    var i := LowBits(index, |siblings|);
    FoldIgnoresHighBits(h, value, index, siblings);
    UpZero(i, |siblings|);
    if value != Node(h, BatchRow(leaves), level, i) {
      PathBinding(h, BatchRow(leaves), level, i, value, siblings);
    }
  }

  lemma {:induction false} FoldSplits(h: (Digest, Digest) -> Digest, cur: Digest, index: nat, a: seq<Digest>, b: seq<Digest>)
    ensures Fold(h, cur, index, a + b) == Fold(h, Fold(h, cur, index, a), Up(index, |a|), b)
    decreases |a|
  {
    if a == [] {
      assert a + b == b;
    } else {
      assert (a + b)[1..] == a[1..] + b;
      UpHalf(index, |a| - 1);
      FoldSplits(h, if index % 2 == 0 then h(cur, a[0]) else h(a[0], cur), index / 2, a[1..], b);
    }
  }

  /** A path longer than the tree is high hashes the value up to a leaf first, or exhibits a collision. */
  lemma LongPathMeans(h: (Digest, Digest) -> Digest, leaves: seq<Digest>, value: Digest, index: nat, siblings: seq<Digest>)
    requires leaves != [] && |siblings| >= Height(|leaves|)
    requires Fold(h, value, index, siblings) == InclusionRoot(h, leaves)
    ensures
      var extra := |siblings| - Height(|leaves|);
      var below := Fold(h, value, index, siblings[..extra]);
      var i := LowBits(Up(index, extra), Height(|leaves|));
      below == Node(h, BatchRow(leaves), 0, i)
      || (siblings[extra..] != [] && IsCollision(h, ExtractCollision(h, BatchRow(leaves), 0, i, below, siblings[extra..])))
  {
    var extra := |siblings| - Height(|leaves|);
    assert siblings == siblings[..extra] + siblings[extra..];
    FoldSplits(h, value, index, siblings[..extra], siblings[extra..]);
    AcceptedPathMeans(h, leaves, Fold(h, value, index, siblings[..extra]), Up(index, extra), siblings[extra..]);
  }
}
