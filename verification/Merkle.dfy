/** Evidence proofs: the loop that folds a list of siblings into a root, against the tree of which
    the root commits to the leaves. The hash function is a parameter. */
module Merkle {
  import opened Common

  /** A hash value of 32 bytes. */
  type Digest = d: seq<bv8> | |d| == 32 witness seq(32, _ => 0)

  type Keccak = seq<bv8> -> Digest

  function Pow2(k: nat): (p: nat)
    ensures p > 0
  {
    if k == 0 then 1 else 2 * Pow2(k - 1)
  }

  function HashPair(keccak: Keccak, left: Digest, right: Digest): Digest {
    keccak(left + right)
  }

  lemma Doubling(k: nat)
    requires k > 0
    ensures Pow2(k) == 2 * Pow2(k - 1)
  {}

  /** The siblings hashed in, one after the other: bit `n` of the index says on which side. */
  function Fold(keccak: Keccak, leaf: Digest, proof: seq<Digest>, index: nat): Digest {
    if proof == [] then leaf
    else
      var n := |proof| - 1;
      var below := Fold(keccak, leaf, proof[..n], index);
      if (index / Pow2(n)) % 2 == 0 then HashPair(keccak, below, proof[n]) else HashPair(keccak, proof[n], below)
  }

  // ----- Verification -----

  /** Two hash values copied into one buffer of 64 bytes and hashed. */
  method HashKeccakPair(keccak: Keccak, left: Digest, right: Digest) returns (hash: Digest)
    ensures hash == HashPair(keccak, left, right)
  {
    var raw := new bv8[64];
    for i := 0 to 32
      invariant raw[..i] == left[..i]
    {
      raw[i] := left[i];
    }
    for i := 0 to 32
      invariant raw[..32 + i] == left + right[..i]
    {
      raw[32 + i] := right[i];
    }
    assert raw[..] == left + right;
    hash := keccak(raw[..]);
  }

  lemma HalveAgain(a: nat, b: nat)
    requires b > 0
    ensures a / b / 2 == a / (2 * b)
  {
    var q, r := a / b, a % b;
    assert a == q * b + r;
    assert q == 2 * (q / 2) + q % 2;
    var rest := (q % 2) * b + r;
    assert a == (q / 2) * (2 * b) + rest;
    assert 0 <= rest < 2 * b;
    DivideUnique(a, 2 * b, q / 2, rest);
  }

  /** The verifier accepts exactly when the fold of the proof gives the root. */
  method VerifyKeccakMerkleProof(keccak: Keccak, leaf: Digest, proof: seq<Digest>, leafIndex: nat, root: Digest)
    returns (accepted: bool)
    ensures accepted <==> Fold(keccak, leaf, proof, leafIndex) == root
  {
    var computed := leaf;
    var idx := leafIndex;
    var i := 0;
    while i < |proof|
      invariant 0 <= i <= |proof|
      invariant computed == Fold(keccak, leaf, proof[..i], leafIndex)
      invariant idx == leafIndex / Pow2(i)
    {
      var sibling := proof[i];
      assert proof[..i + 1][..i] == proof[..i];
      if idx % 2 == 0 {
        computed := HashKeccakPair(keccak, computed, sibling);
      } else {
        computed := HashKeccakPair(keccak, sibling, computed);
      }
      HalveAgain(leafIndex, Pow2(i));
      idx := idx / 2;
      i := i + 1;
    }
    assert proof[..|proof|] == proof;
    accepted := computed == root;
  }

  // ----- The tree -----

  /** The root of a complete tree over `Pow2(k)` leaves. */
  function Root(keccak: Keccak, leaves: seq<Digest>, k: nat): Digest
    requires |leaves| == Pow2(k)
    decreases k
  {
    if k == 0 then leaves[0]
    else
      var half := Pow2(k - 1);
      HashPair(keccak, Root(keccak, leaves[..half], k - 1), Root(keccak, leaves[half..], k - 1))
  }

  /** The siblings on the way from leaf `i` up to the root. */
  function Path(keccak: Keccak, leaves: seq<Digest>, k: nat, i: nat): (path: seq<Digest>)
    requires |leaves| == Pow2(k) && i < Pow2(k)
    ensures |path| == k
    decreases k
  {
    if k == 0 then []
    else
      var half := Pow2(k - 1);
      if i < half then Path(keccak, leaves[..half], k - 1, i) + [Root(keccak, leaves[half..], k - 1)]
      else Path(keccak, leaves[half..], k - 1, i - half) + [Root(keccak, leaves[..half], k - 1)]
  }

  /** An index within twice the half: its top bit says which half, the rest is the place there. */
  lemma SplitIndex(i: nat, half: nat)
    requires half > 0
    ensures (i / half) % 2 == 0 ==> i % (2 * half) == i % half
    ensures (i / half) % 2 == 1 ==> i % (2 * half) == half + i % half
  {
    var q, r := i / half, i % half;
    assert i == q * half + r;
    var rest := (q % 2) * half + r;
    assert q == 2 * (q / 2) + q % 2;
    assert i == (q / 2) * (2 * half) + rest;
    assert rest < 2 * half;
    DivideUnique(i, 2 * half, q / 2, rest);
  }

  lemma RootSplit(keccak: Keccak, leaves: seq<Digest>, k: nat)
    requires k > 0 && |leaves| == Pow2(k)
    ensures var half := Pow2(k - 1);
            |leaves| == 2 * half &&
            Root(keccak, leaves, k) == HashPair(keccak, Root(keccak, leaves[..half], k - 1), Root(keccak, leaves[half..], k - 1))
  {}

  lemma PathSplit(keccak: Keccak, leaves: seq<Digest>, k: nat, i: nat)
    requires k > 0 && |leaves| == Pow2(k) && i < Pow2(k)
    ensures var half := Pow2(k - 1);
            |leaves| == 2 * half && Path(keccak, leaves, k, i) ==
            if i < half then Path(keccak, leaves[..half], k - 1, i) + [Root(keccak, leaves[half..], k - 1)]
            else Path(keccak, leaves[half..], k - 1, i - half) + [Root(keccak, leaves[..half], k - 1)]
  {}

  lemma FoldLast(keccak: Keccak, leaf: Digest, proof: seq<Digest>, sibling: Digest, index: nat)
    ensures var below := Fold(keccak, leaf, proof, index);
            Fold(keccak, leaf, proof + [sibling], index) ==
            if (index / Pow2(|proof|)) % 2 == 0 then HashPair(keccak, below, sibling) else HashPair(keccak, sibling, below)
  {
    assert (proof + [sibling])[..|proof|] == proof;
  }

  /** Completeness: in a tree of `Pow2(k)` leaves the sibling path of a leaf is accepted for it, at
      every index that names the leaf in its lowest `k` bits. */
  lemma {:induction false} SiblingPathVerifies(keccak: Keccak, leaves: seq<Digest>, k: nat, index: nat)
    requires |leaves| == Pow2(k)
    ensures var i := index % Pow2(k);
            Fold(keccak, leaves[i], Path(keccak, leaves, k, i), index) == Root(keccak, leaves, k)
    decreases k
  {
    if k > 0 {
      hide Fold, Path, Root, HashPair, Pow2;
      Doubling(k);
      RootSplit(keccak, leaves, k);
      var half, i := Pow2(k - 1), index % Pow2(k);
      SplitIndex(index, half);
      if (index / half) % 2 == 0 {
        SiblingPathVerifies(keccak, leaves[..half], k - 1, index);
        PathOnTheLeft(keccak, leaves, k, index, i);
      } else {
        SiblingPathVerifies(keccak, leaves[half..], k - 1, index);
        PathOnTheRight(keccak, leaves, k, index, i - half);
      }
    }
  }

  lemma PathOnTheLeft(keccak: Keccak, leaves: seq<Digest>, k: nat, index: nat, i: nat)
    requires k > 0 && |leaves| == Pow2(k) && i < Pow2(k - 1) && (index / Pow2(k - 1)) % 2 == 0
    ensures var half := Pow2(k - 1);
            |leaves| == 2 * half &&
            Fold(keccak, leaves[i], Path(keccak, leaves, k, i), index) ==
            HashPair(keccak, Fold(keccak, leaves[..half][i], Path(keccak, leaves[..half], k - 1, i), index), Root(keccak, leaves[half..], k - 1))
  {
    Doubling(k);
    hide Fold, Path, Root, HashPair, Pow2;
    PathSplit(keccak, leaves, k, i);
    var half := Pow2(k - 1);
    FoldLast(keccak, leaves[i], Path(keccak, leaves[..half], k - 1, i), Root(keccak, leaves[half..], k - 1), index);
  }

  lemma PathOnTheRight(keccak: Keccak, leaves: seq<Digest>, k: nat, index: nat, j: nat)
    requires k > 0 && |leaves| == Pow2(k) && j < Pow2(k - 1) && (index / Pow2(k - 1)) % 2 == 1
    ensures var half := Pow2(k - 1);
            |leaves| == 2 * half &&
            Fold(keccak, leaves[half + j], Path(keccak, leaves, k, half + j), index) ==
            HashPair(keccak, Root(keccak, leaves[..half], k - 1), Fold(keccak, leaves[half..][j], Path(keccak, leaves[half..], k - 1, j), index))
  {
    Doubling(k);
    hide Fold, Path, Root, HashPair, Pow2;
    var half := Pow2(k - 1);
    PathSplit(keccak, leaves, k, half + j);
    FoldLast(keccak, leaves[half + j], Path(keccak, leaves[half..], k - 1, j), Root(keccak, leaves[..half], k - 1), index);
  }

  // ----- Soundness -----

  datatype Inputs = Inputs(left: Digest, right: Digest)

  /** Two different pairs of hash inputs, met on the way down from the root where an accepted proof
      leaves the tree. */
  function Collision(keccak: Keccak, leaves: seq<Digest>, k: nat, leaf: Digest, proof: seq<Digest>, index: nat)
    : Option<(Inputs, Inputs)>
    requires |leaves| == Pow2(k) && |proof| == k
    decreases k
  {
    if k == 0 then None
    else
      var half := Pow2(k - 1);
      var tree := Inputs(Root(keccak, leaves[..half], k - 1), Root(keccak, leaves[half..], k - 1));
      var below := Fold(keccak, leaf, proof[..k - 1], index);
      var onTheLeft := (index / half) % 2 == 0;
      var given := if onTheLeft then Inputs(below, proof[k - 1]) else Inputs(proof[k - 1], below);
      if given != tree then Some((given, tree))
      else Collision(keccak, if onTheLeft then leaves[..half] else leaves[half..], k - 1, leaf, proof[..k - 1], index)
  }

  lemma CollisionSplit(keccak: Keccak, leaves: seq<Digest>, k: nat, leaf: Digest, rest: seq<Digest>, sibling: Digest, index: nat)
    requires k > 0 && |leaves| == Pow2(k) && |rest| == k - 1
    ensures var half := Pow2(k - 1);
            && |leaves| == 2 * half
            && var tree := Inputs(Root(keccak, leaves[..half], k - 1), Root(keccak, leaves[half..], k - 1));
            var below := Fold(keccak, leaf, rest, index);
            Collision(keccak, leaves, k, leaf, rest + [sibling], index) ==
            if (index / half) % 2 == 0 then
              if Inputs(below, sibling) != tree then Some((Inputs(below, sibling), tree))
              else Collision(keccak, leaves[..half], k - 1, leaf, rest, index)
            else
              if Inputs(sibling, below) != tree then Some((Inputs(sibling, below), tree))
              else Collision(keccak, leaves[half..], k - 1, leaf, rest, index)
  {
    hide Fold, Root, HashPair;
    assert (rest + [sibling])[..k - 1] == rest;
  }

  /** The pairs collide: they differ and hash alike. */
  predicate Collides(keccak: Keccak, found: (Inputs, Inputs)) {
    found.0 != found.1 && HashPair(keccak, found.0.left, found.0.right) == HashPair(keccak, found.1.left, found.1.right)
  }

  /** A colliding pair is a collision of the hash function: two different inputs of 64 bytes with
      the same hash. */
  lemma CollisionOfBytes(keccak: Keccak, found: (Inputs, Inputs))
    requires Collides(keccak, found)
    ensures var a, b := found.0.left + found.0.right, found.1.left + found.1.right;
            a != b && |a| == |b| == 64 && keccak(a) == keccak(b)
  {
    var x, y := found.0, found.1;
    assert (x.left + x.right)[..32] == x.left && (x.left + x.right)[32..] == x.right;
    assert (y.left + y.right)[..32] == y.left && (y.left + y.right)[32..] == y.right;
  }

  /** Soundness without an assumption on the hash: when a proof of the tree's height is accepted,
      either it carries the leaf at its index together with that leaf's sibling path, or two
      different inputs with the same hash have been found. */
  lemma {:induction false} AcceptedIsTheLeafOrCollision(keccak: Keccak, leaves: seq<Digest>, k: nat, leaf: Digest, proof: seq<Digest>, index: nat)
    requires |leaves| == Pow2(k) && |proof| == k
    requires Fold(keccak, leaf, proof, index) == Root(keccak, leaves, k)
    ensures var found := Collision(keccak, leaves, k, leaf, proof, index);
            if found.Some? then Collides(keccak, found.value)
            else leaf == leaves[index % Pow2(k)] && proof == Path(keccak, leaves, k, index % Pow2(k))
    decreases k
  {
    if k == 0 {
      assert Pow2(0) == 1 && index % 1 == 0;
    } else {
      hide Fold, Path, Root, Collision, HashPair, Collides;
      var half := Pow2(k - 1);
      var rest, sibling := proof[..k - 1], proof[k - 1];
      assert proof == rest + [sibling];
      var left, right := Root(keccak, leaves[..half], k - 1), Root(keccak, leaves[half..], k - 1);
      var below := Fold(keccak, leaf, rest, index);
      RootSplit(keccak, leaves, k);
      FoldLast(keccak, leaf, rest, sibling, index);
      CollisionSplit(keccak, leaves, k, leaf, rest, sibling, index);
      if (index / half) % 2 == 0 {
        AcceptedBelow(keccak, leaves, k, leaf, rest, sibling, index, Inputs(below, sibling), Inputs(left, right));
      } else {
        AcceptedBelow(keccak, leaves, k, leaf, rest, sibling, index, Inputs(sibling, below), Inputs(left, right));
      }
    }
  }

  /** The step from a tree to the half in which the index lies. */
  lemma {:induction false} AcceptedBelow(keccak: Keccak, leaves: seq<Digest>, k: nat, leaf: Digest, rest: seq<Digest>, sibling: Digest,
                                         index: nat, given: Inputs, tree: Inputs)
    requires k > 0 && |leaves| == Pow2(k) == 2 * Pow2(k - 1) && |rest| == k - 1
    requires var half := Pow2(k - 1);
             && tree == Inputs(Root(keccak, leaves[..half], k - 1), Root(keccak, leaves[half..], k - 1))
             && given == if (index / half) % 2 == 0 then Inputs(Fold(keccak, leaf, rest, index), sibling)
                         else Inputs(sibling, Fold(keccak, leaf, rest, index))
    requires HashPair(keccak, given.left, given.right) == HashPair(keccak, tree.left, tree.right)
    ensures var half := Pow2(k - 1);
            var found := if given != tree then Some((given, tree))
                         else Collision(keccak, if (index / half) % 2 == 0 then leaves[..half] else leaves[half..], k - 1, leaf, rest, index);
            if found.Some? then Collides(keccak, found.value)
            else leaf == leaves[index % Pow2(k)] && rest + [sibling] == Path(keccak, leaves, k, index % Pow2(k))
    decreases k, 0
  {
    hide Fold, Path, Root, Collision, HashPair, Pow2;
    var half := Pow2(k - 1);
    if given == tree {
      SplitIndex(index, half);
      PathSplit(keccak, leaves, k, index % Pow2(k));
      if (index / half) % 2 == 0 {
        AcceptedIsTheLeafOrCollision(keccak, leaves[..half], k - 1, leaf, rest, index);
      } else {
        AcceptedIsTheLeafOrCollision(keccak, leaves[half..], k - 1, leaf, rest, index);
      }
    }
  }

  // ----- Acceptance, exactly -----

  /** The pairs that the verifier hashes for a proof. */
  function FoldInputs(keccak: Keccak, leaf: Digest, proof: seq<Digest>, index: nat): set<Inputs> {
    if proof == [] then {}
    else
      var n := |proof| - 1;
      var below := Fold(keccak, leaf, proof[..n], index);
      FoldInputs(keccak, leaf, proof[..n], index)
      + {if (index / Pow2(n)) % 2 == 0 then Inputs(below, proof[n]) else Inputs(proof[n], below)}
  }

  /** The pairs that are hashed to build the tree. */
  function TreeInputs(keccak: Keccak, leaves: seq<Digest>, k: nat): set<Inputs>
    requires |leaves| == Pow2(k)
    decreases k
  {
    if k == 0 then {}
    else
      var half := Pow2(k - 1);
      {Inputs(Root(keccak, leaves[..half], k - 1), Root(keccak, leaves[half..], k - 1))}
      + TreeInputs(keccak, leaves[..half], k - 1) + TreeInputs(keccak, leaves[half..], k - 1)
  }

  /** No two of these pairs have the same hash. */
  ghost predicate CollisionFree(keccak: Keccak, pairs: set<Inputs>) {
    forall a, b :: a in pairs && b in pairs ==> !Collides(keccak, (a, b))
  }

  lemma InputsOfHalves(keccak: Keccak, left: seq<Digest>, right: seq<Digest>, k: nat, pair: Inputs)
    requires |left| == |right| == Pow2(k)
    ensures |left + right| == Pow2(k + 1)
    ensures pair in TreeInputs(keccak, left + right, k + 1) <==>
            || pair == Inputs(Root(keccak, left, k), Root(keccak, right, k))
            || pair in TreeInputs(keccak, left, k) || pair in TreeInputs(keccak, right, k)
  {
    Doubling(k + 1);
    assert (left + right)[..Pow2(k)] == left && (left + right)[Pow2(k)..] == right;
  }

  lemma FoldInputsLast(keccak: Keccak, leaf: Digest, rest: seq<Digest>, sibling: Digest, index: nat)
    ensures var below := Fold(keccak, leaf, rest, index);
            FoldInputs(keccak, leaf, rest + [sibling], index) ==
            FoldInputs(keccak, leaf, rest, index)
            + {if (index / Pow2(|rest|)) % 2 == 0 then Inputs(below, sibling) else Inputs(sibling, below)}
  {
    hide Fold;
    assert (rest + [sibling])[..|rest|] == rest;
  }

  /** The two pairs that are found were really hashed, one for the proof and one for the tree. */
  lemma {:induction false} CollisionIsMet(keccak: Keccak, leaves: seq<Digest>, k: nat, leaf: Digest, proof: seq<Digest>, index: nat)
    requires |leaves| == Pow2(k) && |proof| == k
    ensures var found := Collision(keccak, leaves, k, leaf, proof, index);
            found.Some? ==> found.value.0 in FoldInputs(keccak, leaf, proof, index) && found.value.1 in TreeInputs(keccak, leaves, k)
    decreases k
  {
    if k > 0 {
      hide Fold, Root, FoldInputs, TreeInputs, Collision, Pow2;
      Doubling(k);
      var half := Pow2(k - 1);
      var rest, sibling := proof[..k - 1], proof[k - 1];
      assert proof == rest + [sibling];
      var tree := Inputs(Root(keccak, leaves[..half], k - 1), Root(keccak, leaves[half..], k - 1));
      var below := Fold(keccak, leaf, rest, index);
      TreeParts(keccak, leaves, k);
      FoldInputsLast(keccak, leaf, rest, sibling, index);
      CollisionSplit(keccak, leaves, k, leaf, rest, sibling, index);
      if (index / half) % 2 == 0 {
        CollisionIsMet(keccak, leaves[..half], k - 1, leaf, rest, index);
      } else {
        CollisionIsMet(keccak, leaves[half..], k - 1, leaf, rest, index);
      }
    }
  }

  lemma TreeParts(keccak: Keccak, leaves: seq<Digest>, k: nat)
    requires k > 0 && |leaves| == Pow2(k)
    ensures var half := Pow2(k - 1);
            && |leaves| == 2 * half
            && Inputs(Root(keccak, leaves[..half], k - 1), Root(keccak, leaves[half..], k - 1)) in TreeInputs(keccak, leaves, k)
            && TreeInputs(keccak, leaves[..half], k - 1) <= TreeInputs(keccak, leaves, k)
            && TreeInputs(keccak, leaves[half..], k - 1) <= TreeInputs(keccak, leaves, k)
  {}

  /** Unless two of the pairs hashed for the proof and for the tree collide, a proof of the tree's
      height is accepted if and only if it is the leaf at its index with that leaf's sibling path. */
  lemma AcceptedIff(keccak: Keccak, leaves: seq<Digest>, k: nat, leaf: Digest, proof: seq<Digest>, index: nat)
    requires |leaves| == Pow2(k) && |proof| == k
    requires CollisionFree(keccak, FoldInputs(keccak, leaf, proof, index) + TreeInputs(keccak, leaves, k))
    ensures Fold(keccak, leaf, proof, index) == Root(keccak, leaves, k) <==>
            leaf == leaves[index % Pow2(k)] && proof == Path(keccak, leaves, k, index % Pow2(k))
  {
    hide Fold, Root, Path, FoldInputs, TreeInputs, Collision, Collides;
    SiblingPathVerifies(keccak, leaves, k, index);
    if Fold(keccak, leaf, proof, index) == Root(keccak, leaves, k) {
      AcceptedIsTheLeafOrCollision(keccak, leaves, k, leaf, proof, index);
      CollisionIsMet(keccak, leaves, k, leaf, proof, index);
      var found := Collision(keccak, leaves, k, leaf, proof, index);
      assert found.Some? ==> Collides(keccak, (found.value.0, found.value.1));
    }
  }

  // ----- Proofs of another length -----

  /** The nodes `h` levels above the leaves, from left to right. */
  function Level(keccak: Keccak, leaves: seq<Digest>, k: nat, h: nat): (nodes: seq<Digest>)
    requires |leaves| == Pow2(k) && h <= k
    ensures |nodes| == Pow2(k - h)
    decreases k
  {
    if h == k then [Root(keccak, leaves, k)]
    else
      var half := Pow2(k - 1);
      Level(keccak, leaves[..half], k - 1, h) + Level(keccak, leaves[half..], k - 1, h)
  }

  lemma LevelSplit(keccak: Keccak, leaves: seq<Digest>, k: nat, h: nat)
    requires |leaves| == Pow2(k) && h < k
    ensures var half, mid := Pow2(k - 1), Pow2(k - 1 - h);
            var nodes := Level(keccak, leaves, k, h);
            && |leaves| == 2 * half && |nodes| == 2 * mid && Pow2(k - h) == 2 * mid
            && nodes[..mid] == Level(keccak, leaves[..half], k - 1, h) && nodes[mid..] == Level(keccak, leaves[half..], k - 1, h)
  {
    hide Root;
    Doubling(k - h);
  }

  /** A level is the list of leaves of a tree with the same root. */
  lemma {:induction false} LevelRoot(keccak: Keccak, leaves: seq<Digest>, k: nat, h: nat)
    requires |leaves| == Pow2(k) && h <= k
    ensures Root(keccak, Level(keccak, leaves, k, h), k - h) == Root(keccak, leaves, k)
    decreases k
  {
    if h < k {
      hide Root, Level, HashPair, Pow2;
      Doubling(k);
      LevelSplit(keccak, leaves, k, h);
      var half := Pow2(k - 1);
      RootSplit(keccak, leaves, k);
      RootSplit(keccak, Level(keccak, leaves, k, h), k - h);
      LevelRoot(keccak, leaves[..half], k - 1, h);
      LevelRoot(keccak, leaves[half..], k - 1, h);
    }
  }

  lemma LevelOfHalves(keccak: Keccak, left: seq<Digest>, right: seq<Digest>, k: nat, h: nat)
    requires |left| == |right| == Pow2(k) && h <= k
    ensures |left + right| == Pow2(k + 1)
    ensures Level(keccak, left + right, k + 1, h) == Level(keccak, left, k, h) + Level(keccak, right, k, h)
  {
    Doubling(k + 1);
    assert (left + right)[..Pow2(k)] == left && (left + right)[Pow2(k)..] == right;
  }

  lemma {:induction false} LevelInputs(keccak: Keccak, leaves: seq<Digest>, k: nat, h: nat, pair: Inputs)
    requires |leaves| == Pow2(k) && h <= k
    requires pair in TreeInputs(keccak, Level(keccak, leaves, k, h), k - h)
    ensures pair in TreeInputs(keccak, leaves, k)
    decreases k, 1
  {
    if h < k {
      hide Root, Pow2, TreeInputs, Level;
      Doubling(k);
      var half := Pow2(k - 1);
      assert leaves == leaves[..half] + leaves[half..];
      LevelOfHalves(keccak, leaves[..half], leaves[half..], k - 1, h);
      LevelInputsBelow(keccak, leaves[..half], leaves[half..], k - 1, h, pair);
    }
  }

  lemma {:induction false} LevelInputsBelow(keccak: Keccak, a: seq<Digest>, b: seq<Digest>, k: nat, h: nat, pair: Inputs)
    requires |a| == |b| == Pow2(k) && |a + b| == Pow2(k + 1) && h <= k
    requires |Level(keccak, a, k, h) + Level(keccak, b, k, h)| == Pow2(k + 1 - h)
    requires pair in TreeInputs(keccak, Level(keccak, a, k, h) + Level(keccak, b, k, h), k + 1 - h)
    ensures pair in TreeInputs(keccak, a + b, k + 1)
    decreases k, 2
  {
    hide Root, Pow2, TreeInputs, Level;
    var left, right := Level(keccak, a, k, h), Level(keccak, b, k, h);
    InputsOfHalves(keccak, a, b, k, pair);
    InputsOfHalves(keccak, left, right, k - h, pair);
    LevelRoot(keccak, a, k, h);
    LevelRoot(keccak, b, k, h);
    assert k + 1 - h == (k - h) + 1;
    if pair in TreeInputs(keccak, left, k - h) {
      LevelInputs(keccak, a, k, h, pair);
    } else if pair in TreeInputs(keccak, right, k - h) {
      LevelInputs(keccak, b, k, h, pair);
    }
  }

  /** The verifier does not check the length of a proof: every node of every level is accepted in
      the place of a leaf, with its sibling path from there. */
  lemma NodesAccepted(keccak: Keccak, leaves: seq<Digest>, k: nat, h: nat, index: nat)
    requires |leaves| == Pow2(k) && h <= k
    ensures var nodes, i := Level(keccak, leaves, k, h), index % Pow2(k - h);
            Fold(keccak, nodes[i], Path(keccak, nodes, k - h, i), index) == Root(keccak, leaves, k)
  {
    hide Fold, Root, Path, Level;
    LevelRoot(keccak, leaves, k, h);
    SiblingPathVerifies(keccak, Level(keccak, leaves, k, h), k - h, index);
  }

  /** And nothing else is: unless two of the pairs hashed collide, a proof no longer than the tree is
      high is accepted if and only if it is the node at its index in the level of its length, with
      that node's sibling path. */
  lemma ShortAcceptedIff(keccak: Keccak, leaves: seq<Digest>, k: nat, node: Digest, proof: seq<Digest>, index: nat)
    requires |leaves| == Pow2(k) && |proof| <= k
    requires CollisionFree(keccak, FoldInputs(keccak, node, proof, index) + TreeInputs(keccak, leaves, k))
    ensures var j := |proof|;
            var nodes, i := Level(keccak, leaves, k, k - j), index % Pow2(j);
            Fold(keccak, node, proof, index) == Root(keccak, leaves, k) <==> node == nodes[i] && proof == Path(keccak, nodes, j, i)
  {
    hide Fold, Root, Path, Level, FoldInputs, TreeInputs, Collides;
    var j := |proof|;
    var nodes := Level(keccak, leaves, k, k - j);
    LevelRoot(keccak, leaves, k, k - j);
    forall pair | pair in TreeInputs(keccak, nodes, j) ensures pair in TreeInputs(keccak, leaves, k) {
      LevelInputs(keccak, leaves, k, k - j, pair);
    }
    AcceptedIff(keccak, nodes, j, node, proof, index);
  }

  /** The index with its lowest `m` bits dropped. */
  function Shifted(index: nat, m: nat): nat {
    if m == 0 then index else Shifted(index, m - 1) / 2
  }

  lemma {:induction false} ShiftedIs(index: nat, m: nat)
    ensures Shifted(index, m) == index / Pow2(m)
    decreases m
  {
    if m > 0 {
      ShiftedIs(index, m - 1);
      HalveAgain(index, Pow2(m - 1));
    }
  }

  lemma {:induction false} ShiftedTwice(index: nat, m: nat, n: nat)
    ensures Shifted(Shifted(index, m), n) == Shifted(index, m + n)
    decreases n
  {
    if n > 0 {
      ShiftedTwice(index, m, n - 1);
    }
  }

  lemma {:induction false} FoldTwice(keccak: Keccak, leaf: Digest, lower: seq<Digest>, upper: seq<Digest>, index: nat)
    ensures Fold(keccak, leaf, lower + upper, index) == Fold(keccak, Fold(keccak, leaf, lower, index), upper, Shifted(index, |lower|))
    decreases |upper|
  {
    if upper == [] {
      assert lower + upper == lower;
    } else {
      hide HashPair, Fold, Shifted, Pow2;
      var n := |upper| - 1;
      FoldTwice(keccak, leaf, lower, upper[..n], index);
      assert lower + upper == lower + upper[..n] + [upper[n]];
      FoldLast(keccak, leaf, lower + upper[..n], upper[n], index);
      FoldLast(keccak, Fold(keccak, leaf, lower, index), upper[..n], upper[n], Shifted(index, |lower|));
      assert upper[..n] + [upper[n]] == upper;
      ShiftedTwice(index, |lower|, n);
      ShiftedIs(index, |lower| + n);
      ShiftedIs(Shifted(index, |lower|), n);
    }
  }

  /** A longer proof is accepted exactly when, short of a collision, its lower part folds to a leaf
      and its upper part is the sibling path of that leaf: whoever knows two values that hash to a leaf
      can prove them as if they lay below it. */
  lemma LongAcceptedIff(keccak: Keccak, leaves: seq<Digest>, k: nat, value: Digest, proof: seq<Digest>, index: nat)
    requires |leaves| == Pow2(k) && |proof| > k
    requires var m := |proof| - k;
             CollisionFree(keccak, FoldInputs(keccak, Fold(keccak, value, proof[..m], index), proof[m..], Shifted(index, m))
                                   + TreeInputs(keccak, leaves, k))
    ensures var m := |proof| - k;
            var i := Shifted(index, m) % Pow2(k);
            Fold(keccak, value, proof, index) == Root(keccak, leaves, k) <==>
            Fold(keccak, value, proof[..m], index) == leaves[i] && proof[m..] == Path(keccak, leaves, k, i)
  {
    hide Fold, Root, Path, FoldInputs, TreeInputs, CollisionFree;
    var m := |proof| - k;
    assert proof == proof[..m] + proof[m..];
    FoldTwice(keccak, value, proof[..m], proof[m..], index);
    AcceptedIff(keccak, leaves, k, Fold(keccak, value, proof[..m], index), proof[m..], Shifted(index, m));
  }
}
