// One reference tree for every Merkle algorithm of the repository: a perfect binary tree
// over an endless row of leaves, given by a finite prefix and a padding value.
module MerkleTree {

  datatype Row<D> = Row(items: seq<D>, pad: D) {
    function At(i: nat): D {
      if i < |items| then items[i] else pad
    }
  }

  function Pow2(n: nat): (r: nat)
    ensures r >= 1
  {
    if n == 0 then 1 else 2 * Pow2(n - 1)
  }

  /** Index of the ancestor of leaf `i` at `level`. */
  function Up(i: nat, level: nat): nat {
    if level == 0 then i else Up(i, level - 1) / 2
  }

  /** Value of node `i` at `level`; level 0 is the row of leaves. */
  ghost function Node<D>(h: (D, D) -> D, row: Row<D>, level: nat, i: nat): D {
    if level == 0 then row.At(i)
    else h(Node(h, row, level - 1, 2 * i), Node(h, row, level - 1, 2 * i + 1))
  }

  /** Root of the tree of the given depth. */
  ghost function Root<D>(h: (D, D) -> D, row: Row<D>, depth: nat): D {
    Node(h, row, depth, 0)
  }

  /** Root of a subtree that holds nothing but padding. */
  ghost function PadRoot<D>(h: (D, D) -> D, pad: D, level: nat): D {
    if level == 0 then pad else h(PadRoot(h, pad, level - 1), PadRoot(h, pad, level - 1))
  }

  /** What a verifier recomputes from a leaf, its index and the siblings bottom-up. */
  function Fold<D>(h: (D, D) -> D, cur: D, index: nat, siblings: seq<D>): D {
    if siblings == [] then cur
    else Fold(h, if index % 2 == 0 then h(cur, siblings[0]) else h(siblings[0], cur), index / 2, siblings[1..])
  }

  function SiblingIndex(i: nat): nat {
    if i % 2 == 0 then i + 1 else i - 1
  }

  // ---------- arithmetic of ancestors ----------

  lemma {:induction false} UpZero(i: nat, level: nat)
    ensures Up(i, level) == 0 <==> i < Pow2(level)
    decreases level
  {
    if level > 0 {
      UpHalf(i, level - 1);
      UpZero(i / 2, level - 1);
    }
  }

  lemma {:induction false} UpHalf(i: nat, level: nat)
    ensures Up(i, level + 1) == Up(i / 2, level)
  {
    if level > 0 {
      UpHalf(i, level - 1);
    }
  }

  /** The ancestor moves by at most one when the leaf index does. */
  lemma {:induction false} UpSucc(i: nat, level: nat)
    ensures Up(i + 1, level) == Up(i, level) || Up(i + 1, level) == Up(i, level) + 1
    ensures level > 0 && Up(i + 1, level - 1) == Up(i, level - 1) ==> Up(i + 1, level) == Up(i, level)
  {
    if level > 0 {
      UpSucc(i, level - 1);
    }
  }

  // ---------- locality of nodes ----------

  /** A node only depends on the leaves under it. */
  lemma {:induction false} NodeLocal<D>(h: (D, D) -> D, row: Row<D>, row': Row<D>, level: nat, i: nat)
    requires forall j: nat :: Up(j, level) == i ==> row.At(j) == row'.At(j)
    ensures Node(h, row, level, i) == Node(h, row', level, i)
    decreases level
  {
    if level == 0 {
      assert Up(i, 0) == i;
    } else {
      forall j: nat | Up(j, level - 1) == 2 * i || Up(j, level - 1) == 2 * i + 1
        ensures row.At(j) == row'.At(j)
      {
        assert Up(j, level) == i;
      }
      NodeLocal(h, row, row', level - 1, 2 * i);
      NodeLocal(h, row, row', level - 1, 2 * i + 1);
    }
  }

  /** A node past the last leaf is the padding subtree of its level. */
  lemma {:induction false} NodePastEnd<D>(h: (D, D) -> D, row: Row<D>, level: nat, i: nat)
    requires |row.items| == 0 || Up(|row.items| - 1, level) < i
    ensures Node(h, row, level, i) == PadRoot(h, row.pad, level)
    decreases level
  {
    if level > 0 {
      NodePastEnd(h, row, level - 1, 2 * i);
      NodePastEnd(h, row, level - 1, 2 * i + 1);
    }
  }

  // ---------- authentication paths ----------

  /** Siblings and direction bits of the first `|siblings|` levels above leaf `target`. */
  ghost predicate IsPath<D>(h: (D, D) -> D, row: Row<D>, target: nat, siblings: seq<D>, indices: seq<nat>) {
    && |siblings| == |indices|
    && forall l :: 0 <= l < |siblings| ==>
         && indices[l] == Up(target, l) % 2
         && siblings[l] == Node(h, row, l, SiblingIndex(Up(target, l)))
  }

  lemma PathExtends<D>(h: (D, D) -> D, row: Row<D>, target: nat, siblings: seq<D>, indices: seq<nat>, idx: nat, sib: D)
    requires IsPath(h, row, target, siblings, indices) && idx == Up(target, |siblings|)
    requires sib == Node(h, row, |siblings|, SiblingIndex(idx))
    ensures IsPath(h, row, target, siblings + [sib], indices + [idx % 2])
  {
  }

  /** Siblings taken level by level along the ancestors fold every ancestor to the top one. */
  lemma {:induction false} PathFolds<D>(h: (D, D) -> D, row: Row<D>, target: nat, d: nat, siblings: seq<D>)
    requires d <= |siblings|
    requires forall l :: d <= l < |siblings| ==> siblings[l] == Node(h, row, l, SiblingIndex(Up(target, l)))
    ensures Fold(h, Node(h, row, d, Up(target, d)), Up(target, d), siblings[d..])
         == Node(h, row, |siblings|, Up(target, |siblings|))
    decreases |siblings| - d
  {
    if d < |siblings| {
      assert siblings[d..][1..] == siblings[d + 1..];
      PathFolds(h, row, target, d + 1, siblings);
    }
  }

  /** From a leaf all the way up: the fold of its path is the root. */
  lemma PathFoldsToRoot<D>(h: (D, D) -> D, row: Row<D>, target: nat, siblings: seq<D>)
    requires Up(target, |siblings|) == 0
    requires forall l :: 0 <= l < |siblings| ==> siblings[l] == Node(h, row, l, SiblingIndex(Up(target, l)))
    ensures Fold(h, Node(h, row, 0, target), target, siblings) == Root(h, row, |siblings|)
  {
    PathFolds(h, row, target, 0, siblings);
    assert siblings[0..] == siblings;
  }

  /** Two different inputs of the hash with one output. */
  datatype Collision<D> = Collision(a: (D, D), b: (D, D))

  ghost predicate IsCollision<D>(h: (D, D) -> D, c: Collision<D>) {
    c.a != c.b && h(c.a.0, c.a.1) == h(c.b.0, c.b.1)
  }

  /** Where a path for another leaf first agrees with the tree: the pair of inputs found there. */
  ghost function ExtractCollision<D>(h: (D, D) -> D, row: Row<D>, level: nat, i: nat, cur: D, siblings: seq<D>): Collision<D>
    requires |siblings| > 0
    decreases |siblings|
  {
    var mine := if i % 2 == 0 then (cur, siblings[0]) else (siblings[0], cur);
    var sib := Node(h, row, level, SiblingIndex(i));
    var tree := if i % 2 == 0 then (Node(h, row, level, i), sib) else (sib, Node(h, row, level, i));
    if |siblings| == 1 || h(mine.0, mine.1) == h(tree.0, tree.1) then Collision(mine, tree)
    else ExtractCollision(h, row, level + 1, i / 2, h(mine.0, mine.1), siblings[1..])
  }

  /** A path that folds a different value at the same index to the same ancestor holds a collision. */
  lemma {:induction false} PathBinding<D>(h: (D, D) -> D, row: Row<D>, level: nat, i: nat, cur: D, siblings: seq<D>)
    requires cur != Node(h, row, level, i)
    requires Fold(h, cur, i, siblings) == Node(h, row, level + |siblings|, Up(i, |siblings|))
    ensures |siblings| > 0
    ensures IsCollision(h, ExtractCollision(h, row, level, i, cur, siblings))
    decreases |siblings|
  {
    if |siblings| > 0 {
      var mine := if i % 2 == 0 then (cur, siblings[0]) else (siblings[0], cur);
      assert Node(h, row, level + 1, i / 2) ==
             h(Node(h, row, level, 2 * (i / 2)), Node(h, row, level, 2 * (i / 2) + 1));
      if h(mine.0, mine.1) != Node(h, row, level + 1, i / 2) {
        UpHalf(i, |siblings| - 1);
        PathBinding(h, row, level + 1, i / 2, h(mine.0, mine.1), siblings[1..]);
      }
    }
  }
}
