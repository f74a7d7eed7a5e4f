/** The Merkle program, crates/soul-cairo/src/merkle_proof.cairo. `poseidon` is any function on felt lists. */
module Merkle {
  import opened Felt
  import opened Types

  type Poseidon = seq<Felt> -> Felt

  datatype Pair = Pair(left: Felt, right: Felt) {
    function Hash(poseidon: Poseidon): Felt {
      poseidon([left, right])
    }
  }

  /** The node over `current` and `sibling`, `current` on the right when the index bit is set. */
  function Ordered(current: Felt, sibling: Felt, onRight: bool): Pair {
    if onRight then Pair(sibling, current) else Pair(current, sibling)
  }

  /** The root reached from a leaf: one hash a level, lowest index bit first. */
  function FoldPath(poseidon: Poseidon, current: Felt, path: seq<Felt>, index: nat): Felt
    decreases |path|
  {
    if path == [] then current
    else FoldPath(poseidon, Ordered(current, path[0], index % 2 == 1).Hash(poseidon), path[1..], index / 2)
  }

  method ComputeRoot(poseidon: Poseidon, leaf: Felt, proof: seq<Felt>, index: U64) returns (root: Felt)
    ensures root == FoldPath(poseidon, leaf, proof, index)
  {
    var current, idx, i := leaf, index, 0;
    while true
      invariant 0 <= i <= |proof|
      invariant FoldPath(poseidon, leaf, proof, index) == FoldPath(poseidon, current, proof[i..], idx)
      decreases |proof| - i
    {
      if i >= |proof| {
        break;
      }
      var sibling := proof[i];
      var data: seq<Felt> := [];
      if idx % 2 == 0 {
        data := data + [current];
        data := data + [sibling];
      } else {
        data := data + [sibling];
        data := data + [current];
      }
      assert proof[i..][1..] == proof[i + 1..];
      assert data == [Ordered(current, sibling, idx % 2 == 1).left, Ordered(current, sibling, idx % 2 == 1).right];
      current := poseidon(data);
      idx := idx / 2;
      i := i + 1;
    }
    root := current;
  }

  method VerifyMerkleProof(poseidon: Poseidon, root: Felt, leaf: Felt, proof: seq<Felt>, index: U64)
    returns (valid: bool)
    ensures valid <==> FoldPath(poseidon, leaf, proof, index) == root
  {
    var computed := ComputeRoot(poseidon, leaf, proof, index);
    valid := computed == root;
  }

  // ---- the trees such paths open -----------------------------------------

  datatype Tree = Leaf(value: Felt) | Node(left: Tree, right: Tree) {
    predicate Complete(depth: nat) {
      match this
      case Leaf(_) => depth == 0
      case Node(l, r) => depth > 0 && l.Complete(depth - 1) && r.Complete(depth - 1)
    }

    function Root(poseidon: Poseidon): Felt {
      match this
      case Leaf(v) => v
      case Node(l, r) => Pair(l.Root(poseidon), r.Root(poseidon)).Hash(poseidon)
    }

    function LeafAt(depth: nat, index: nat): Felt
      requires Complete(depth) && index < Pow2(depth)
    {
      match this
      case Leaf(v) => v
      case Node(l, r) =>
        var half := Pow2(depth - 1);
        if index < half then l.LeafAt(depth - 1, index) else r.LeafAt(depth - 1, index - half)
    }

    /** The authentication path of a leaf, lowest sibling first. */
    function PathOf(poseidon: Poseidon, depth: nat, index: nat): (path: seq<Felt>)
      requires Complete(depth) && index < Pow2(depth)
      ensures |path| == depth
    {
      match this
      case Leaf(_) => []
      case Node(l, r) =>
        var half := Pow2(depth - 1);
        if index < half then l.PathOf(poseidon, depth - 1, index) + [r.Root(poseidon)]
        else r.PathOf(poseidon, depth - 1, index - half) + [l.Root(poseidon)]
    }

    /** The pairs hashed to build the tree. */
    function Pairs(poseidon: Poseidon): set<Pair> {
      match this
      case Leaf(_) => {}
      case Node(l, r) => l.Pairs(poseidon) + r.Pairs(poseidon) + {Pair(l.Root(poseidon), r.Root(poseidon))}
    }
  }

  /** The pairs hashed while a path is folded. */
  function PathPairs(poseidon: Poseidon, current: Felt, path: seq<Felt>, index: nat): set<Pair>
    decreases |path|
  {
    if path == [] then {}
    else
      var node := Ordered(current, path[0], index % 2 == 1);
      {node} + PathPairs(poseidon, node.Hash(poseidon), path[1..], index / 2)
  }

  /** The last sibling of a path is combined at the top, on the side the highest index bit names. */
  lemma {:induction false} FoldTop(
    poseidon: Poseidon, current: Felt, path: seq<Felt>, top: Felt, low: nat, onRight: bool)
    requires low < Pow2(|path|)
    ensures
      var index := if onRight then low + Pow2(|path|) else low;
      var node := Ordered(FoldPath(poseidon, current, path, low), top, onRight);
      && FoldPath(poseidon, current, path + [top], index) == node.Hash(poseidon)
      && PathPairs(poseidon, current, path + [top], index) == PathPairs(poseidon, current, path, low) + {node}
    decreases |path|
  {
    var index := if onRight then low + Pow2(|path|) else low;
    var node := Ordered(current, (path + [top])[0], index % 2 == 1);
    var rest := (path + [top])[1..];
    if path == [] {
      assert rest == [];
    } else {
      assert rest == path[1..] + [top];
      assert index % 2 == low % 2;
      FoldTop(poseidon, node.Hash(poseidon), path[1..], top, low / 2, onRight);
    }
  }

  /** Completeness: the honest path of every leaf of a complete tree reaches the root. */
  lemma {:induction false} HonestPathVerifies(poseidon: Poseidon, t: Tree, depth: nat, index: nat)
    requires t.Complete(depth) && index < Pow2(depth)
    ensures FoldPath(poseidon, t.LeafAt(depth, index), t.PathOf(poseidon, depth, index), index) == t.Root(poseidon)
    decreases depth
  {
    if t.Node? {
      var half := Pow2(depth - 1);
      var onRight := index >= half;
      var child, sibling := if onRight then t.right else t.left, if onRight then t.left else t.right;
      var low := if onRight then index - half else index;
      HonestPathVerifies(poseidon, child, depth - 1, low);
      FoldTop(poseidon, child.LeafAt(depth - 1, low), child.PathOf(poseidon, depth - 1, low),
              sibling.Root(poseidon), low, onRight);
    }
  }

  ghost predicate Collide(poseidon: Poseidon, x: Pair, y: Pair) {
    x != y && x.Hash(poseidon) == y.Hash(poseidon)
  }

  /** Two different pairs, one hashed along the path and one inside the tree, with equal hashes. */
  ghost predicate PathCollides(poseidon: Poseidon, t: Tree, leaf: Felt, path: seq<Felt>, index: nat) {
    exists x, y ::
      x in PathPairs(poseidon, leaf, path, index) && y in t.Pairs(poseidon) && Collide(poseidon, x, y)
  }

  /** Soundness up to collision: a path that reaches the root opens the tree's own leaf with the tree's own
      siblings, unless two different pairs hashed on the way have one hash. */
  lemma {:induction false} AcceptedPathOpensTree(
    poseidon: Poseidon, t: Tree, depth: nat, leaf: Felt, path: seq<Felt>, index: nat)
    requires t.Complete(depth) && index < Pow2(depth) && |path| == depth
    requires FoldPath(poseidon, leaf, path, index) == t.Root(poseidon)
    ensures
      || (leaf == t.LeafAt(depth, index) && path == t.PathOf(poseidon, depth, index))
      || PathCollides(poseidon, t, leaf, path, index)
    decreases depth
  {
    if t.Node? {
      var half := Pow2(depth - 1);
      var onRight := index >= half;
      var child := if onRight then t.right else t.left;
      var low := if onRight then index - half else index;
      var lower, top := path[..depth - 1], path[depth - 1];
      assert path == lower + [top];
      FoldTop(poseidon, leaf, lower, top, low, onRight);
      var x := Ordered(FoldPath(poseidon, leaf, lower, low), top, onRight);
      var y := Pair(t.left.Root(poseidon), t.right.Root(poseidon));
      assert x in PathPairs(poseidon, leaf, path, index) && y in t.Pairs(poseidon);
      if x == y {
        AcceptedPathOpensTree(poseidon, child, depth - 1, leaf, lower, low);
        if PathCollides(poseidon, child, leaf, lower, low) {
          var x', y' :|
            x' in PathPairs(poseidon, leaf, lower, low) && y' in child.Pairs(poseidon) && Collide(poseidon, x', y');
          assert x' in PathPairs(poseidon, leaf, path, index) && y' in t.Pairs(poseidon);
        }
      } else {
        assert Collide(poseidon, x, y);
      }
    }
  }
}
