// The vault's on-chain incremental Merkle tree and its ring of recent roots.
module VaultTree {
  import opened Prelude
  import opened Crypto
  import opened MerkleTree
  import opened VaultErrors

  const ROOT_HISTORY_SIZE: nat := 32

  /** The zero-padded row the vault's tree is built over. */
  function VaultRow(leaves: seq<Fr>): Row<Fr> {
    Row(leaves, 0)
  }

  /** The root of the dense tree over `leaves`. */
  ghost function RootOf(hs: Hashes, depth: nat, leaves: seq<Fr>): Fr {
    Root(hs.poseidon2, VaultRow(leaves), depth)
  }

  /** The roots the ring accepts: the current one, those before the last 32 appends, and the
      all-zero digest the ring starts with until it has been overwritten everywhere. */
  ghost predicate AcceptedRoot(hs: Hashes, depth: nat, leaves: seq<Fr>, root: Digest) {
    || root == RootOf(hs, depth, leaves)
    || (exists k: nat :: |leaves| - ROOT_HISTORY_SIZE <= k < |leaves| && root == RootOf(hs, depth, leaves[..k]))
    || (|leaves| < ROOT_HISTORY_SIZE && root == 0)
  }

  /** Small trees, written out: missing leaves are zero. */
  lemma SmallTrees(hs: Hashes, a: Fr, b: Fr, c: Fr)
    ensures RootOf(hs, 1, []) == hs.poseidon2(0, 0)
    ensures RootOf(hs, 1, [a]) == hs.poseidon2(a, 0)
    ensures RootOf(hs, 2, [a, b, c]) == hs.poseidon2(hs.poseidon2(a, b), hs.poseidon2(c, 0))
  {
    assert Node(hs.poseidon2, VaultRow([a]), 1, 0) == hs.poseidon2(VaultRow([a]).At(0), VaultRow([a]).At(1));
    assert Node(hs.poseidon2, VaultRow([a, b, c]), 1, 0) == hs.poseidon2(a, b);
    assert Node(hs.poseidon2, VaultRow([a, b, c]), 1, 1) == hs.poseidon2(c, 0);
  }

  /** `right_path[l]` holds the last complete block of 2^l leaves wherever bit l of the count is set. */
  ghost predicate RightPathOk(hs: Hashes, leaves: seq<Fr>, rightPath: seq<Fr>) {
    forall l :: 0 <= l < |rightPath| && Up(|leaves|, l) % 2 == 1 ==>
      rightPath[l] == Node(hs.poseidon2, VaultRow(leaves), l, Up(|leaves|, l) - 1)
  }

  /** Entry `k % 32` of the ring is the root that was current before append `k`. */
  ghost predicate RingOk(hs: Hashes, depth: nat, leaves: seq<Fr>, roots: seq<Fr>, head: nat)
    requires |roots| == ROOT_HISTORY_SIZE
  {
    && head == |leaves| % ROOT_HISTORY_SIZE
    && (forall k: nat :: |leaves| - ROOT_HISTORY_SIZE <= k < |leaves| ==>
          roots[k % ROOT_HISTORY_SIZE] == RootOf(hs, depth, leaves[..k]))
    && (forall s :: |leaves| <= s < ROOT_HISTORY_SIZE ==> roots[s] == 0)
  }

  // ---------- the append step, one level at a time ----------

  /** Appending leaf `n` changes no node that does not lie above it. */
  lemma AppendOffPath(hs: Hashes, leaves: seq<Fr>, leaf: Fr, l: nat, i: nat)
    requires Up(|leaves|, l) != i
    ensures Node(hs.poseidon2, VaultRow(leaves + [leaf]), l, i) == Node(hs.poseidon2, VaultRow(leaves), l, i)
  {
    NodeLocal(hs.poseidon2, VaultRow(leaves + [leaf]), VaultRow(leaves), l, i);
  }

  /** The node above the new leaf at level `l + 1`, from the one at level `l`: the sibling is the
      stored right path when the node is a right child and the empty subtree otherwise. */
  lemma AppendLevel(hs: Hashes, leaves: seq<Fr>, leaf: Fr, rightPath: seq<Fr>, l: nat)
    requires RightPathOk(hs, leaves, rightPath) && l < |rightPath|
    ensures
      var idx := Up(|leaves|, l);
      var row := VaultRow(leaves + [leaf]);
      var cur := Node(hs.poseidon2, row, l, idx);
      Node(hs.poseidon2, row, l + 1, Up(|leaves|, l + 1)) ==
        if idx % 2 == 1 then hs.poseidon2(rightPath[l], cur)
        else hs.poseidon2(cur, PadRoot(hs.poseidon2, 0, l))
  {
    var idx := Up(|leaves|, l);
    var row := VaultRow(leaves + [leaf]);
    if idx % 2 == 1 {
      AppendOffPath(hs, leaves, leaf, l, idx - 1);
    } else {
      NodePastEnd(hs.poseidon2, row, l, idx + 1);
    }
  }

  ghost function NewRightPath(hs: Hashes, leaves: seq<Fr>, leaf: Fr, rightPath: seq<Fr>, l: nat): Fr
    requires l < |rightPath|
  {
    if Up(|leaves|, l) % 2 == 1 then rightPath[l]
    else Node(hs.poseidon2, VaultRow(leaves + [leaf]), l, Up(|leaves|, l))
  }

  /** The right path of the grown tree: levels where the new leaf is a left child were rewritten. */
  lemma RightPathGrows(hs: Hashes, leaves: seq<Fr>, leaf: Fr, rightPath: seq<Fr>, rightPath': seq<Fr>)
    requires RightPathOk(hs, leaves, rightPath) && |rightPath'| == |rightPath|
    requires forall l :: 0 <= l < |rightPath| ==>
      rightPath'[l] == NewRightPath(hs, leaves, leaf, rightPath, l)
    ensures RightPathOk(hs, leaves + [leaf], rightPath')
  {
    forall l | 0 <= l < |rightPath| && Up(|leaves| + 1, l) % 2 == 1
      ensures rightPath'[l] == Node(hs.poseidon2, VaultRow(leaves + [leaf]), l, Up(|leaves| + 1, l) - 1)
    {
      UpSucc(|leaves|, l);
      if Up(|leaves|, l) % 2 == 1 {
        AppendOffPath(hs, leaves, leaf, l, Up(|leaves|, l) - 1);
      }
    }
    assert |leaves + [leaf]| == |leaves| + 1;
  }

  lemma RingIndexDistinct(k: nat, n: nat)
    requires n - ROOT_HISTORY_SIZE < k < n
    ensures k % ROOT_HISTORY_SIZE != n % ROOT_HISTORY_SIZE
  {
  }

  lemma RingGrows(hs: Hashes, depth: nat, leaves: seq<Fr>, leaf: Fr, roots: seq<Fr>, head: nat)
    requires |roots| == ROOT_HISTORY_SIZE && RingOk(hs, depth, leaves, roots, head)
    ensures RingOk(hs, depth, leaves + [leaf], roots[head := RootOf(hs, depth, leaves)], (head + 1) % ROOT_HISTORY_SIZE)
  {
    var leaves' := leaves + [leaf];
    var roots' := roots[head := RootOf(hs, depth, leaves)];
    forall k: nat | |leaves'| - ROOT_HISTORY_SIZE <= k < |leaves'|
      ensures roots'[k % ROOT_HISTORY_SIZE] == RootOf(hs, depth, leaves'[..k])
    {
      if k == |leaves| {
        assert leaves'[..k] == leaves;
      } else {
        assert leaves'[..k] == leaves[..k];
        RingIndexDistinct(k, |leaves|);
      }
    }
  }

  /** The state `initialize` writes is the empty tree's. */
  lemma EmptyTree(hs: Hashes, depth: nat, rightPath: seq<Fr>, roots: seq<Fr>)
    requires depth >= 1 && |roots| == ROOT_HISTORY_SIZE
    requires forall i :: 0 <= i < |roots| ==> roots[i] == 0
    ensures RootOf(hs, depth, []) == PadRoot(hs.poseidon2, 0, depth)
    ensures RightPathOk(hs, [], rightPath)
    ensures RingOk(hs, depth, [], roots, 0)
  {
    NodePastEnd(hs.poseidon2, VaultRow([]), depth, 0);
    forall l: nat ensures Up(0, l) == 0 {
      UpZero(0, l);
    }
  }

  /** The ring search of `contains_root` decides exactly `AcceptedRoot`. */
  lemma RingMembership(hs: Hashes, depth: nat, leaves: seq<Fr>, roots: seq<Fr>, head: nat, root: Digest)
    requires |roots| == ROOT_HISTORY_SIZE && RingOk(hs, depth, leaves, roots, head)
    ensures (root == RootOf(hs, depth, leaves) || root in roots) <==> AcceptedRoot(hs, depth, leaves, root)
  {
    if root in roots {
      var s :| 0 <= s < |roots| && roots[s] == root;
      if s < |leaves| {
        var k := s + (|leaves| - 1 - s) / ROOT_HISTORY_SIZE * ROOT_HISTORY_SIZE;
        assert |leaves| - ROOT_HISTORY_SIZE <= k < |leaves| && k % ROOT_HISTORY_SIZE == s;
        assert root == RootOf(hs, depth, leaves[..k]);
      }
    }
    if exists k: nat :: |leaves| - ROOT_HISTORY_SIZE <= k < |leaves| && root == RootOf(hs, depth, leaves[..k]) {
      var k: nat :| |leaves| - ROOT_HISTORY_SIZE <= k < |leaves| && root == RootOf(hs, depth, leaves[..k]);
      assert roots[k % ROOT_HISTORY_SIZE] == root;
    }
    if |leaves| < ROOT_HISTORY_SIZE && root == 0 {
      assert roots[|leaves|] == 0;
    }
  }

  /** A root stays accepted through 32 further appends, whatever they are. */
  lemma RootSurvives(hs: Hashes, depth: nat, leaves: seq<Fr>, more: seq<Fr>)
    requires |more| <= ROOT_HISTORY_SIZE
    ensures AcceptedRoot(hs, depth, leaves + more, RootOf(hs, depth, leaves))
  {
    if more == [] {
      assert leaves + more == leaves;
    } else {
      var all := leaves + more;
      assert all[..|leaves|] == leaves;
      assert |all| - ROOT_HISTORY_SIZE <= |leaves| < |all|;
    }
  }

  /** If no later root equals it, the 33rd append evicts a root. */
  lemma RootEvicted(hs: Hashes, depth: nat, leaves: seq<Fr>, more: seq<Fr>)
    requires |more| > ROOT_HISTORY_SIZE
    requires forall k :: |leaves| < k <= |leaves| + |more| ==>
      RootOf(hs, depth, (leaves + more)[..k]) != RootOf(hs, depth, leaves)
    ensures !AcceptedRoot(hs, depth, leaves + more, RootOf(hs, depth, leaves))
  {
    var all := leaves + more;
    assert all[..|all|] == all;
  }

  lemma PadRootAbove(h: (Fr, Fr) -> Fr, level: nat)
    ensures PadRoot(h, 0, level + 1) == h(PadRoot(h, 0, level), PadRoot(h, 0, level))
  {
  }

  method ComputeZeroSubtreeRoots(hs: Hashes, depth: nat) returns (roots: array<Fr>)
    ensures fresh(roots) && roots.Length == depth
    ensures forall l :: 0 <= l < depth ==> roots[l] == PadRoot(hs.poseidon2, 0, l)
  {
    roots := new Fr[depth](_ => 0);
    var cur: Fr := 0;
    for i := 0 to depth
      invariant cur == PadRoot(hs.poseidon2, 0, i)
      invariant forall l :: 0 <= l < i ==> roots[l] == PadRoot(hs.poseidon2, 0, l)
    {
      roots[i] := cur;
      PadRootAbove(hs.poseidon2, i);
      cur := hs.poseidon2(cur, cur);
    }
  }

  /** The mutable part of the tree account. */
  datatype TreeState = TreeState(leafCount: uint64, currentRoot: Fr, roots: seq<Fr>, rightPath: seq<Fr>, rootsHead: nat)

  /** The account holds the tree over `leaves`. */
  ghost predicate TreeOk(hs: Hashes, depth: nat, leaves: seq<Fr>, t: TreeState) {
    && |t.roots| == ROOT_HISTORY_SIZE && |t.rightPath| == depth
    && t.leafCount == |leaves| <= Pow2(depth)
    && t.currentRoot == RootOf(hs, depth, leaves)
    && RightPathOk(hs, leaves, t.rightPath)
    && RingOk(hs, depth, leaves, t.roots, t.rootsHead)
  }

  /** `empty_root`, from the last stored level. */
  function EmptyRoot(hs: Hashes, last: Fr): Fr {
    hs.poseidon2(last, last)
  }

  class VaultConfig {
    const hs: Hashes
    const depth: nat
    var leafCount: uint64
    var currentRoot: Fr
    const roots: array<Fr>
    const zeroSubtreeRoots: array<Fr>
    const rightPath: array<Fr>
    var rootsHead: nat
    ghost var leaves: seq<Fr>

    ghost predicate Valid()
      reads this, roots, zeroSubtreeRoots, rightPath
    {
      && 1 <= depth <= 63
      && roots.Length == ROOT_HISTORY_SIZE && zeroSubtreeRoots.Length == depth && rightPath.Length == depth
      && roots != zeroSubtreeRoots && roots != rightPath && zeroSubtreeRoots != rightPath
      && (forall l :: 0 <= l < depth ==> zeroSubtreeRoots[l] == PadRoot(hs.poseidon2, 0, l))
      && TreeOk(hs, depth, leaves, Tree())
    }

    function Tree(): TreeState
      reads this, roots, rightPath
    {
      TreeState(leafCount, currentRoot, roots[..], rightPath[..], rootsHead)
    }

    constructor (hs: Hashes, depth: nat)
      requires 1 <= depth <= 63
      ensures Valid() && this.hs == hs && this.depth == depth && leaves == []
      ensures fresh(roots) && fresh(zeroSubtreeRoots) && fresh(rightPath)
    {
      this.hs := hs;
      this.depth := depth;
      leafCount := 0;
      var zeros := ComputeZeroSubtreeRoots(hs, depth);
      zeroSubtreeRoots := zeros;
      rightPath := new Fr[depth](_ => 0);
      currentRoot := EmptyRoot(hs, zeros[depth - 1]);
      roots := new Fr[ROOT_HISTORY_SIZE](_ => 0);
      rootsHead := 0;
      leaves := [];
      new;
      EmptyTree(hs, depth, rightPath[..], roots[..]);
    }

    /** `push_root`. */
    method PushRoot(root: Fr)
      requires roots.Length == ROOT_HISTORY_SIZE && rootsHead < ROOT_HISTORY_SIZE
      modifies this`currentRoot, this`rootsHead, roots
      ensures roots[..] == old(roots[..])[old(rootsHead) := old(currentRoot)]
      ensures rootsHead == (old(rootsHead) + 1) % ROOT_HISTORY_SIZE
      ensures currentRoot == root
    {
      roots[rootsHead] := currentRoot;
      rootsHead := (rootsHead + 1) % ROOT_HISTORY_SIZE;
      currentRoot := root;
    }

    /** `contains_root`. */
    method ContainsRoot(root: Digest) returns (found: bool)
      requires Valid()
      ensures found <==> AcceptedRoot(hs, depth, leaves, root)
    {
      RingMembership(hs, depth, leaves, roots[..], rootsHead, root);
      if currentRoot == root {
        return true;
      }
      for i := 0 to roots.Length
        invariant forall j :: 0 <= j < i ==> roots[j] != root
      {
        if roots[i] == root {
          assert roots[..][i] == root;
          return true;
        }
      }
      return false;
    }

    /** Puts back an earlier state of the tree, as the runtime does when an instruction fails. */
    method Restore(saved: TreeState, ghost savedLeaves: seq<Fr>)
      requires Valid() && TreeOk(hs, depth, savedLeaves, saved)
      modifies this, roots, rightPath
      ensures Valid() && leaves == savedLeaves && Tree() == saved
    {
      leafCount, currentRoot, rootsHead := saved.leafCount, saved.currentRoot, saved.rootsHead;
      forall i | 0 <= i < roots.Length { roots[i] := saved.roots[i]; }
      forall i | 0 <= i < rightPath.Length { rightPath[i] := saved.rightPath[i]; }
      assert roots[..] == saved.roots && rightPath[..] == saved.rightPath;
      leaves := savedLeaves;
    }

    /** The level loop of `append_leaf`: it fills the right path and returns the new root. */
    method WalkUp(leaf: Fr) returns (root: Fr)
      requires rightPath.Length == zeroSubtreeRoots.Length == depth && rightPath != zeroSubtreeRoots
      requires leafCount == |leaves| < Pow2(depth)
      requires RightPathOk(hs, leaves, rightPath[..])
      requires forall l :: 0 <= l < depth ==> zeroSubtreeRoots[l] == PadRoot(hs.poseidon2, 0, l)
      modifies rightPath
      ensures root == RootOf(hs, depth, leaves + [leaf])
      ensures RightPathOk(hs, leaves + [leaf], rightPath[..])
    {
      ghost var row := VaultRow(leaves + [leaf]);
      ghost var before := rightPath[..];
      var current: Fr := leaf;
      var idx: nat := leafCount;
      for level := 0 to depth
        invariant idx == Up(|leaves|, level)
        invariant current == Node(hs.poseidon2, row, level, idx)
        invariant forall l :: 0 <= l < level ==> rightPath[l] == NewRightPath(hs, leaves, leaf, before, l)
        invariant forall l :: level <= l < depth ==> rightPath[l] == before[l]
      {
        AppendLevel(hs, leaves, leaf, before, level);
        if idx % 2 == 1 {
          current := hs.poseidon2(rightPath[level], current);
        } else {
          rightPath[level] := current;
          current := hs.poseidon2(current, zeroSubtreeRoots[level]);
        }
        idx := idx / 2;
      }
      UpZero(|leaves|, depth);
      RightPathGrows(hs, leaves, leaf, before, rightPath[..]);
      return current;
    }

    /** `append_leaf`. A full tree is refused; so is, by the first hash, a leaf outside the field. */
    method AppendLeaf(leaf: Digest) returns (r: Result<Fr, VaultError>)
      requires Valid()
      modifies this, roots, rightPath
      ensures Valid()
      ensures r.Ok? <==> old(|leaves|) < Pow2(depth) && leaf < BN254_R
      ensures r.Ok? ==> leaves == old(leaves) + [leaf] && r.value == RootOf(hs, depth, leaves)
      ensures r.Err? ==> r.error == if old(|leaves|) >= Pow2(depth) then MerkleTreeFull else InvalidProof
      ensures r.Err? ==> unchanged(this) && unchanged(roots) && unchanged(rightPath)
    {
      var leafIndex := leafCount;
      if leafIndex >= Pow2(depth) {
        return Err(MerkleTreeFull);
      }
      if leaf >= BN254_R {
        return Err(InvalidProof);
      }
      var current := WalkUp(leaf);
      Pow2Small(depth);
      leafCount := leafIndex + 1;
      RingGrows(hs, depth, leaves, leaf, roots[..], rootsHead);
      PushRoot(current);
      leaves := leaves + [leaf];
      return Ok(current);
    }
  }

  lemma {:induction false} Pow2Monotone(a: nat, b: nat)
    requires a <= b
    ensures Pow2(a) <= Pow2(b)
  {
    if a < b {
      Pow2Monotone(a, b - 1);
    }
  }

  lemma {:induction false} Pow2Add(a: nat, b: nat)
    ensures Pow2(a + b) == Pow2(a) * Pow2(b)
  {
    if b > 0 {
      Pow2Add(a, b - 1);
    }
  }

  lemma Pow2At15()
    ensures Pow2(15) == 0x8000
  {
    assert Pow2(1) == 2 && Pow2(2) == 4 && Pow2(3) == 8 && Pow2(4) == 16 && Pow2(5) == 32;
    Pow2Add(5, 5);
    Pow2Add(10, 5);
  }

  lemma Pow2At63()
    ensures Pow2(63) == 0x8000_0000_0000_0000
  {
    Pow2At15();
    Pow2Add(15, 15);
    Pow2Add(30, 30);
    Pow2Add(60, 3);
    assert Pow2(3) == 2 * Pow2(2) && Pow2(2) == 2 * Pow2(1);
  }

  /** The leaf counter never overflows a u64. */
  lemma Pow2Small(depth: nat)
    requires depth <= 63
    ensures Pow2(depth) < U64_MAX
  {
    Pow2Monotone(depth, 63);
    Pow2At63();
  }
}
