// The TypeScript mirrors of the vault tree: the shadow tree that rebuilds the root from all
// leaves, its witness generator, and the witness read off the right path before an append.
module MerkleMirrors {
  import opened Prelude
  import opened Crypto
  import opened MerkleTree
  import opened VaultTree

  datatype Witness = Witness(root: Fr, siblings: seq<Fr>, indices: seq<nat>)

  /** What the VALID_SPEND circuit checks of a witness: the path folds the leaf to the root, and
      `indices` are the direction bits of `index`. */
  ghost predicate WitnessOk(hs: Hashes, depth: nat, leaf: Fr, index: nat, w: Witness) {
    && |w.siblings| == |w.indices| == depth
    && (forall d :: 0 <= d < depth ==> w.indices[d] == Up(index, d) % 2)
    && Fold(hs.poseidon2, leaf, index, w.siblings) == w.root
  }

  // ---------- the levels a dense rebuild goes through ----------

  /** `level` lists the nodes at height `d` up to the last one above a leaf. */
  ghost predicate IsLevel(hs: Hashes, leaves: seq<Fr>, d: nat, level: seq<Fr>) {
    && |level| == (if leaves == [] then 0 else Up(|leaves| - 1, d) + 1)
    && forall i :: 0 <= i < |level| ==> level[i] == Node(hs.poseidon2, VaultRow(leaves), d, i)
  }

  /** The first `k` parents, with the empty subtree standing in for a missing right child. */
  ghost predicate ParentsUpTo(hs: Hashes, leaves: seq<Fr>, d: nat, k: nat, next: seq<Fr>) {
    |next| == k && forall i :: 0 <= i < k ==> next[i] == Node(hs.poseidon2, VaultRow(leaves), d + 1, i)
  }

  lemma ParentOf(hs: Hashes, leaves: seq<Fr>, d: nat, level: seq<Fr>, i: nat)
    requires IsLevel(hs, leaves, d, level) && 2 * i < |level|
    ensures Node(hs.poseidon2, VaultRow(leaves), d + 1, i) ==
            hs.poseidon2(level[2 * i], if 2 * i + 1 < |level| then level[2 * i + 1] else PadRoot(hs.poseidon2, 0, d))
  {
    if 2 * i + 1 >= |level| {
      NodePastEnd(hs.poseidon2, VaultRow(leaves), d, 2 * i + 1);
    }
  }

  class MerkleShadow {
    const hs: Hashes
    const depth: nat
    var leafCount: nat
    var leaves: seq<Fr>
    var zeroSubtreeRoots: seq<Fr>

    ghost predicate Valid()
      reads this
    {
      && depth >= 1
      && leafCount == |leaves|
      && |zeroSubtreeRoots| == depth
      && forall l :: 0 <= l < depth ==> zeroSubtreeRoots[l] == PadRoot(hs.poseidon2, 0, l)
    }

    constructor (hs: Hashes, depth: nat)
      requires depth >= 1
      ensures Valid() && this.hs == hs && this.depth == depth && leaves == []
    {
      this.hs := hs;
      this.depth := depth;
      leafCount, leaves := 0, [];
      var z: seq<Fr> := [];
      var cur: Fr := 0;
      for i := 0 to depth
        invariant |z| == i && cur == PadRoot(hs.poseidon2, 0, i)
        invariant forall l :: 0 <= l < i ==> z[l] == PadRoot(hs.poseidon2, 0, l)
      {
        z := z + [cur];
        cur := hs.poseidon2(cur, cur);
      }
      zeroSubtreeRoots := z;
    }

    method Append(leaf: Fr) returns (root: Fr)
      requires Valid()
      modifies this
      ensures Valid() && leaves == old(leaves) + [leaf]
      ensures root == RootOf(hs, depth, leaves)
    {
      leaves := leaves + [leaf];
      leafCount := leafCount + 1;
      root := ComputeRoot();
    }

    /** One level of `computeRoot`. */
    method NextLevel(level: seq<Fr>, d: nat) returns (next: seq<Fr>)
      requires Valid() && d < depth && IsLevel(hs, leaves, d, level)
      ensures IsLevel(hs, leaves, d + 1, next)
    {
      next := [];
      var i := 0;
      while i < |level|
        invariant i == 2 * |next| && i <= |level| + 1
        invariant ParentsUpTo(hs, leaves, d, |next|, next)
      {
        ParentOf(hs, leaves, d, level, i / 2);
        var r := if i + 1 < |level| then level[i + 1] else zeroSubtreeRoots[d];
        next := next + [hs.poseidon2(level[i], r)];
        i := i + 2;
      }
    }

    /** The root of the empty tree, hashed up from level `d`. */
    method PadUp(d: nat) returns (z: Fr)
      requires Valid() && d < depth
      ensures z == PadRoot(hs.poseidon2, 0, depth)
    {
      z := zeroSubtreeRoots[d];
      for e := d to depth
        invariant z == PadRoot(hs.poseidon2, 0, e)
      {
        z := hs.poseidon2(z, z);
      }
    }

    method ComputeRoot() returns (root: Fr)
      requires Valid()
      ensures root == RootOf(hs, depth, leaves)
    {
      var level := leaves;
      for d := 0 to depth
        invariant IsLevel(hs, leaves, d, level) && (d > 0 ==> leaves != [])
      {
        var next := NextLevel(level, d);
        if next == [] {
          NodePastEnd(hs.poseidon2, VaultRow(leaves), depth, 0);
          root := PadUp(d);
          return;
        }
        level := next;
      }
      return level[0];
    }

    /** One level of `witness`, where the list has been padded to a power of two. */
    method PairUp(level: seq<Fr>, d: nat, height: nat) returns (next: seq<Fr>)
      requires d < height && |level| == Pow2(height - d)
      requires forall i :: 0 <= i < |level| ==> level[i] == Node(hs.poseidon2, VaultRow(leaves), d, i)
      ensures |next| == Pow2(height - d - 1)
      ensures forall i :: 0 <= i < |next| ==> next[i] == Node(hs.poseidon2, VaultRow(leaves), d + 1, i)
    {
      next := [];
      var i := 0;
      while i < |level|
        invariant i == 2 * |next| && i <= |level|
        invariant ParentsUpTo(hs, leaves, d, |next|, next)
      {
        assert level[i] == Node(hs.poseidon2, VaultRow(leaves), d, 2 * (i / 2));
        assert level[i + 1] == Node(hs.poseidon2, VaultRow(leaves), d, 2 * (i / 2) + 1);
        next := next + [hs.poseidon2(level[i], level[i + 1])];
        i := i + 2;
      }
    }

    /** Smallest power of two that holds all leaves, but at least two. */
    method PaddedHeight() returns (height: nat)
      requires Valid() && 0 < |leaves| <= Pow2(depth)
      ensures 1 <= height <= depth && |leaves| <= Pow2(height)
    {
      var small: nat := 1;
      height := 0;
      while small < |leaves|
        invariant small == Pow2(height) && height <= depth
        decreases depth - height
      {
        if height >= depth {
          assert false;
        }
        small := small * 2;
        height := height + 1;
      }
      if height == 0 {
        height := 1;
      }
    }

    /** The lower part of `witness`, inside the padded block of 2^height leaves. */
    method LowPath(target: nat, height: nat) returns (root: Fr, siblings: seq<Fr>, indices: seq<nat>)
      requires target < |leaves| <= Pow2(height)
      ensures |siblings| == height && IsPath(hs.poseidon2, VaultRow(leaves), target, siblings, indices)
      ensures root == Node(hs.poseidon2, VaultRow(leaves), height, 0)
    {
      var level := leaves + seq(Pow2(height) - |leaves|, _ => 0);
      siblings, indices := [], [];
      var idx: nat := target;
      for d := 0 to height
        invariant idx == Up(target, d) < |level| == Pow2(height - d)
        invariant |siblings| == d && IsPath(hs.poseidon2, VaultRow(leaves), target, siblings, indices)
        invariant forall i :: 0 <= i < |level| ==> level[i] == Node(hs.poseidon2, VaultRow(leaves), d, i)
      {
        PathExtends(hs.poseidon2, VaultRow(leaves), target, siblings, indices, idx, level[SiblingIndex(idx)]);
        siblings, indices := siblings + [level[SiblingIndex(idx)]], indices + [idx % 2];
        idx := idx / 2;
        level := PairUp(level, d, height);
      }
      root := level[0];
    }

    /** `witness`: fails out of range, otherwise opens leaf `target` under the dense root. */
    method MakeWitness(target: int) returns (r: Option<Witness>)
      requires Valid() && |leaves| <= Pow2(depth)
      ensures r.None? <==> target < 0 || target >= |leaves|
      ensures r.Some? ==> r.value.root == RootOf(hs, depth, leaves)
      ensures r.Some? ==> WitnessOk(hs, depth, leaves[target], target, r.value)
    {
      if target < 0 || target >= |leaves| {
        return None;
      }
      var height := PaddedHeight();
      var current, siblings, indices := LowPath(target, height);
      UpZero(|leaves| - 1, height);
      UpZero(target, height);
      for d := height to depth
        invariant current == Node(hs.poseidon2, VaultRow(leaves), d, 0)
        invariant |siblings| == d && IsPath(hs.poseidon2, VaultRow(leaves), target, siblings, indices)
        invariant Up(|leaves| - 1, d) == 0 && Up(target, d) == 0
      {
        NodePastEnd(hs.poseidon2, VaultRow(leaves), d, 1);
        PathExtends(hs.poseidon2, VaultRow(leaves), target, siblings, indices, 0, zeroSubtreeRoots[d]);
        siblings, indices := siblings + [zeroSubtreeRoots[d]], indices + [0];
        current := hs.poseidon2(current, zeroSubtreeRoots[d]);
      }
      PathFolds(hs.poseidon2, VaultRow(leaves), target, 0, siblings);
      assert siblings[0..] == siblings;
      return Some(Witness(current, siblings, indices));
    }
  }

  /** `witnessFromPriorRightPath`: the direction bit picks the stored right path or the empty subtree. */
  method WitnessFromPriorRightPath(hs: Hashes, depth: nat, leaf: Fr, leafIndex: nat, priorRightPath: seq<Fr>)
    returns (r: Option<Witness>)
    ensures r.None? <==> |priorRightPath| != depth
    ensures forall prior: seq<Fr> :: r.Some? && |prior| == leafIndex < Pow2(depth) && RightPathOk(hs, prior, priorRightPath) ==>
      && r.value.root == RootOf(hs, depth, prior + [leaf])
      && WitnessOk(hs, depth, leaf, leafIndex, r.value)
  {
    if |priorRightPath| != depth {
      return None;
    }
    var roots := ComputeZeroSubtreeRoots(hs, depth);
    var zeros := roots[..];
    var siblings: seq<Fr>, indices: seq<nat> := [], [];
    var cur := leaf;
    var idx := leafIndex;
    for d := 0 to depth
      invariant idx == Up(leafIndex, d)
      invariant |siblings| == d && IsPriorPath(hs, priorRightPath, leafIndex, siblings, indices)
      invariant cur == Climb(hs, leaf, leafIndex, priorRightPath, d)
    {
      if idx % 2 == 0 {
        siblings, indices := siblings + [zeros[d]], indices + [0];
        cur := hs.poseidon2(cur, zeros[d]);
      } else {
        siblings, indices := siblings + [priorRightPath[d]], indices + [1];
        cur := hs.poseidon2(priorRightPath[d], cur);
      }
      idx := idx / 2;
    }
    var w := Witness(cur, siblings, indices);
    PriorWitnessForAll(hs, leaf, leafIndex, priorRightPath, w);
    return Some(w);
  }

  ghost function PriorSibling(hs: Hashes, rightPath: seq<Fr>, index: nat, l: nat): Fr
    requires l < |rightPath|
  {
    if Up(index, l) % 2 == 0 then PadRoot(hs.poseidon2, 0, l) else rightPath[l]
  }

  ghost predicate IsPriorPath(hs: Hashes, rightPath: seq<Fr>, index: nat, siblings: seq<Fr>, indices: seq<nat>) {
    && |siblings| == |indices| <= |rightPath|
    && forall l :: 0 <= l < |siblings| ==>
         indices[l] == Up(index, l) % 2 && siblings[l] == PriorSibling(hs, rightPath, index, l)
  }

  /** The running hash of the walk over the prior right path. */
  ghost function Climb(hs: Hashes, leaf: Fr, index: nat, rightPath: seq<Fr>, d: nat): Fr
    requires d <= |rightPath|
  {
    if d == 0 then leaf
    else
      var cur := Climb(hs, leaf, index, rightPath, d - 1);
      var sib := PriorSibling(hs, rightPath, index, d - 1);
      if Up(index, d - 1) % 2 == 0 then hs.poseidon2(cur, sib) else hs.poseidon2(sib, cur)
  }

  /** On the right path before the append the walk visits the nodes of the tree after it. */
  lemma {:induction false} ClimbIsNode(hs: Hashes, leaf: Fr, prior: seq<Fr>, rightPath: seq<Fr>, d: nat)
    requires RightPathOk(hs, prior, rightPath) && d <= |rightPath|
    ensures Climb(hs, leaf, |prior|, rightPath, d) == Node(hs.poseidon2, VaultRow(prior + [leaf]), d, Up(|prior|, d))
  {
    if d > 0 {
      ClimbIsNode(hs, leaf, prior, rightPath, d - 1);
      AppendLevel(hs, prior, leaf, rightPath, d - 1);
    }
  }

  lemma PriorSiblingIsNode(hs: Hashes, leaf: Fr, prior: seq<Fr>, rightPath: seq<Fr>, l: nat)
    requires RightPathOk(hs, prior, rightPath) && l < |rightPath|
    ensures PriorSibling(hs, rightPath, |prior|, l) ==
            Node(hs.poseidon2, VaultRow(prior + [leaf]), l, SiblingIndex(Up(|prior|, l)))
  {
    var i := Up(|prior|, l);
    if i % 2 == 1 {
      AppendOffPath(hs, prior, leaf, l, i - 1);
    } else {
      NodePastEnd(hs.poseidon2, VaultRow(prior + [leaf]), l, i + 1);
    }
  }

  lemma PriorClimb(hs: Hashes, leaf: Fr, prior: seq<Fr>, rightPath: seq<Fr>)
    requires RightPathOk(hs, prior, rightPath) && |prior| < Pow2(|rightPath|)
    ensures Climb(hs, leaf, |prior|, rightPath, |rightPath|) == RootOf(hs, |rightPath|, prior + [leaf])
  {
    UpZero(|prior|, |rightPath|);
    ClimbIsNode(hs, leaf, prior, rightPath, |rightPath|);
  }

  lemma PriorFold(hs: Hashes, leaf: Fr, prior: seq<Fr>, rightPath: seq<Fr>, siblings: seq<Fr>)
    requires RightPathOk(hs, prior, rightPath) && |siblings| == |rightPath| && |prior| < Pow2(|rightPath|)
    requires forall l :: 0 <= l < |siblings| ==> siblings[l] == PriorSibling(hs, rightPath, |prior|, l)
    ensures Fold(hs.poseidon2, leaf, |prior|, siblings) == RootOf(hs, |rightPath|, prior + [leaf])
  {
    var row := VaultRow(prior + [leaf]);
    forall l | 0 <= l < |siblings|
      ensures siblings[l] == Node(hs.poseidon2, row, l, SiblingIndex(Up(|prior|, l)))
    {
      PriorSiblingIsNode(hs, leaf, prior, rightPath, l);
    }
    UpZero(|prior|, |rightPath|);
    PathFoldsToRoot(hs.poseidon2, row, |prior|, siblings);
  }

  lemma PriorWitnessCorrect(hs: Hashes, leaf: Fr, prior: seq<Fr>, rightPath: seq<Fr>, siblings: seq<Fr>)
    requires RightPathOk(hs, prior, rightPath) && |siblings| == |rightPath| && |prior| < Pow2(|rightPath|)
    requires forall l :: 0 <= l < |siblings| ==> siblings[l] == PriorSibling(hs, rightPath, |prior|, l)
    ensures Climb(hs, leaf, |prior|, rightPath, |rightPath|) == RootOf(hs, |rightPath|, prior + [leaf])
    ensures Fold(hs.poseidon2, leaf, |prior|, siblings) == RootOf(hs, |rightPath|, prior + [leaf])
  {
    PriorClimb(hs, leaf, prior, rightPath);
    PriorFold(hs, leaf, prior, rightPath, siblings);
  }

  lemma PriorWitnessForAll(hs: Hashes, leaf: Fr, index: nat, rightPath: seq<Fr>, w: Witness)
    requires |w.siblings| == |rightPath| && IsPriorPath(hs, rightPath, index, w.siblings, w.indices)
    requires w.root == Climb(hs, leaf, index, rightPath, |rightPath|)
    ensures forall prior: seq<Fr> :: |prior| == index < Pow2(|rightPath|) && RightPathOk(hs, prior, rightPath) ==>
      w.root == RootOf(hs, |rightPath|, prior + [leaf]) && WitnessOk(hs, |rightPath|, leaf, index, w)
  {
    forall prior: seq<Fr> | |prior| == index < Pow2(|rightPath|) && RightPathOk(hs, prior, rightPath)
      ensures w.root == RootOf(hs, |rightPath|, prior + [leaf]) && WitnessOk(hs, |rightPath|, leaf, index, w)
    {
      PriorWitnessCorrect(hs, leaf, prior, rightPath, w.siblings);
    }
  }
}
