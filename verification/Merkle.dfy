/** Sorted-pair Merkle trees over hashed receipts: prsm/settlement/merkle.py. */
module Merkle {
  import opened Words
  import opened Outcomes

  type Hash = Bytes -> Bytes

  /** Python's `a < b` on byte strings. */
  predicate Less(a: Bytes, b: Bytes) {
    if b == [] then false
    else if a == [] then true
    else a[0] < b[0] || (a[0] == b[0] && Less(a[1..], b[1..]))
  }

  function Sorted(a: Bytes, b: Bytes): Bytes {
    if Less(a, b) then a + b else b + a
  }

  function HashPair(h: Hash, a: Bytes, b: Bytes): Bytes {
    h(Sorted(a, b))
  }

  lemma {:induction false} LessTrichotomy(a: Bytes, b: Bytes)
    ensures Less(a, b) ==> !Less(b, a)
    ensures Less(a, b) || Less(b, a) || a == b
  {
    if a != [] && b != [] {
      LessTrichotomy(a[1..], b[1..]);
      if a[0] == b[0] && a[1..] == b[1..] {
        assert a == [a[0]] + a[1..] && b == [b[0]] + b[1..];
      }
    }
  }

  lemma {:induction false} SortedCommutes(a: Bytes, b: Bytes)
    ensures Sorted(a, b) == Sorted(b, a)
  {
    LessTrichotomy(a, b);
  }

  /** One layer up: neighbours are paired, an odd last node is promoted unchanged. */
  function NextLayer(h: Hash, layer: seq<Bytes>): (next: seq<Bytes>)
    ensures |next| == (|layer| + 1) / 2
  {
    if |layer| < 2 then layer
    else [HashPair(h, layer[0], layer[1])] + NextLayer(h, layer[2..])
  }

  function Root(h: Hash, layer: seq<Bytes>): Bytes
    requires layer != []
    decreases |layer|
  {
    if |layer| == 1 then layer[0] else Root(h, NextLayer(h, layer))
  }

  function Sibling(layer: seq<Bytes>, i: nat): seq<Bytes>
    requires i < |layer|
  {
    if i % 2 == 1 then [layer[i - 1]]
    else if i + 1 < |layer| then [layer[i + 1]]
    else []
  }

  function Proof(h: Hash, layer: seq<Bytes>, i: nat): seq<Bytes>
    requires i < |layer|
    decreases |layer|
  {
    if |layer| == 1 then [] else Sibling(layer, i) + Proof(h, NextLayer(h, layer), i / 2)
  }

  /** What a verifier computes: the siblings folded into the leaf hash. */
  function Fold(h: Hash, x: Bytes, proof: seq<Bytes>): Bytes {
    if proof == [] then x else HashPair(h, Fold(h, x, proof[..|proof| - 1]), proof[|proof| - 1])
  }

  lemma {:induction false} NextLayerAt(h: Hash, layer: seq<Bytes>, j: nat)
    requires j < |NextLayer(h, layer)|
    ensures 2 * j + 1 < |layer| ==> NextLayer(h, layer)[j] == HashPair(h, layer[2 * j], layer[2 * j + 1])
    ensures 2 * j + 1 == |layer| ==> NextLayer(h, layer)[j] == layer[2 * j]
  {
    if |layer| >= 2 && j > 0 {
      NextLayerAt(h, layer[2..], j - 1);
    }
  }

  // ---- The loops of the source ----

  method BuildNextLayer(h: Hash, layer: seq<Bytes>) returns (next: seq<Bytes>)
    ensures next == NextLayer(h, layer)
  {
    next := [];
    var i := 0;
    while i < |layer|
      invariant i == 2 * |next| || (i == |layer| + 1 && i == 2 * |next|)
      invariant i <= |layer| + 1
      invariant |next| <= |NextLayer(h, layer)|
      invariant next == NextLayer(h, layer)[..|next|]
      decreases |layer| + 1 - i
    {
      NextLayerAt(h, layer, |next|);
      if i + 1 < |layer| {
        next := next + [HashPair(h, layer[i], layer[i + 1])];
      } else {
        next := next + [layer[i]];
      }
      i := i + 2;
    }
  }

  method BuildMerkleRoot(h: Hash, leafHashes: seq<Bytes>) returns (r: Result<Bytes>)
    ensures r == if leafHashes == [] then Raised else Ok(Root(h, leafHashes))
  {
    if leafHashes == [] {
      return Raised;
    }
    var layer := leafHashes;
    while |layer| > 1
      invariant layer != [] && Root(h, layer) == Root(h, leafHashes)
      decreases |layer|
    {
      layer := BuildNextLayer(h, layer);
    }
    r := Ok(layer[0]);
  }

  method BuildMerkleProof(h: Hash, leafHashes: seq<Bytes>, leafIndex: int) returns (r: Result<seq<Bytes>>)
    ensures r == if 0 <= leafIndex < |leafHashes| then Ok(Proof(h, leafHashes, leafIndex)) else Raised
  {
    if leafIndex < 0 || leafIndex >= |leafHashes| {
      return Raised;
    }
    var proof, layer, idx := [], leafHashes, leafIndex;
    while |layer| > 1
      invariant 0 <= idx < |layer|
      invariant proof + Proof(h, layer, idx) == Proof(h, leafHashes, leafIndex)
      decreases |layer|
    {
      proof := proof + Sibling(layer, idx);
      layer := BuildNextLayer(h, layer);
      idx := idx / 2;
    }
    assert proof == proof + Proof(h, layer, idx);
    r := Ok(proof);
  }

  method VerifyMerkleProof(h: Hash, proof: seq<Bytes>, root: Bytes, leafHash: Bytes) returns (ok: bool)
    ensures ok <==> Fold(h, leafHash, proof) == root
  {
    var computed := leafHash;
    for k := 0 to |proof|
      invariant computed == Fold(h, leafHash, proof[..k])
    {
      assert proof[..k + 1][..k] == proof[..k];
      computed := HashPair(h, computed, proof[k]);
    }
    assert proof[..|proof|] == proof;
    ok := computed == root;
  }

  // ---- The orientation of a pair, by the numbers the nodes stand for ----

  /** On strings of one length Python's order is the order of the big-endian numbers. */
  lemma {:induction false} LessIsNumeric(a: Bytes, b: Bytes)
    requires |a| == |b|
    ensures Less(a, b) <==> Nat(a) < Nat(b)
  {
    if a != [] {
      LessIsNumeric(a[1..], b[1..]);
      NatConcat([a[0]], a[1..]);
      NatConcat([b[0]], b[1..]);
      assert a == [a[0]] + a[1..] && b == [b[0]] + b[1..];
      assert Nat([a[0]]) == a[0] && Nat([b[0]]) == b[0];
      NatBound(a[1..]);
      NatBound(b[1..]);
      LeadingDigit(a[0], Nat(a[1..]), b[0], Nat(b[1..]), Pow256(|a| - 1));
    }
  }

  lemma {:induction false} LeadingDigit(a: nat, x: nat, b: nat, y: nat, p: nat)
    requires x < p && y < p
    ensures a * p + x < b * p + y <==> a < b || (a == b && x < y)
  {
    if a < b {
      assert (a + 1) * p <= b * p;
    } else if b < a {
      assert (b + 1) * p <= a * p;
    }
  }

  /**
   A pair is hashed with the smaller number in front, whichever node comes first: as the root of two leaves, and as
   the step of a proof from either side.
   */
  lemma {:induction false} SmallerFirst(h: Hash, a: Bytes, b: Bytes)
    requires |a| == |b| && Nat(a) <= Nat(b)
    ensures Root(h, [a, b]) == Root(h, [b, a]) == h(a + b)
    ensures Fold(h, a, [b]) == Fold(h, b, [a]) == h(a + b)
  {
    LessIsNumeric(a, b);
    LessIsNumeric(b, a);
    LessTrichotomy(a, b);
    FoldOne(h, a, b);
    FoldOne(h, b, a);
    assert [a, b][2..] == [] && [b, a][2..] == [];
    assert NextLayer(h, [a, b]) == [HashPair(h, a, b)] && NextLayer(h, [b, a]) == [HashPair(h, b, a)];
  }

  /** The same in every layer of every tree: neighbours smaller first, a lone last node unchanged. */
  lemma {:induction false} LayerSmallerFirst(h: Hash, layer: seq<Bytes>, j: nat)
    requires 2 * j < |layer| && (2 * j + 1 < |layer| ==> |layer[2 * j]| == |layer[2 * j + 1]|)
    ensures
      var next := NextLayer(h, layer);
      && |next| == (|layer| + 1) / 2
      && next[j] == if 2 * j + 1 == |layer| then layer[2 * j]
                    else if Nat(layer[2 * j]) <= Nat(layer[2 * j + 1]) then h(layer[2 * j] + layer[2 * j + 1])
                    else h(layer[2 * j + 1] + layer[2 * j])
  {
    NextLayerAt(h, layer, j);
    if 2 * j + 1 < |layer| {
      LessIsNumeric(layer[2 * j], layer[2 * j + 1]);
      LessIsNumeric(layer[2 * j + 1], layer[2 * j]);
      LessTrichotomy(layer[2 * j], layer[2 * j + 1]);
    }
  }

  /** And in every step of every proof. */
  lemma {:induction false} FoldSmallerFirst(h: Hash, x: Bytes, proof: seq<Bytes>, s: Bytes)
    requires |Fold(h, x, proof)| == |s|
    ensures
      var y := Fold(h, x, proof);
      Fold(h, x, proof + [s]) == if Nat(y) <= Nat(s) then h(y + s) else h(s + y)
  {
    var y := Fold(h, x, proof);
    FoldConcat(h, x, proof, [s]);
    if Nat(y) <= Nat(s) {
      SmallerFirst(h, y, s);
    } else {
      SmallerFirst(h, s, y);
    }
  }

  // ---- Completeness ----

  lemma {:induction false} FoldConcat(h: Hash, x: Bytes, p: seq<Bytes>, q: seq<Bytes>)
    ensures Fold(h, x, p + q) == Fold(h, Fold(h, x, p), q)
  {
    if q == [] {
      assert p + q == p;
    } else {
      FoldConcat(h, x, p, q[..|q| - 1]);
      assert (p + q)[..|p + q| - 1] == p + q[..|q| - 1];
    }
  }

  lemma {:induction false} FoldOne(h: Hash, x: Bytes, s: Bytes)
    ensures Fold(h, x, [s]) == HashPair(h, x, s)
  {
    assert [s][..0] == [];
  }

  lemma {:induction false} SiblingCases(layer: seq<Bytes>, j: nat)
    ensures 2 * j + 1 < |layer|
            ==> Sibling(layer, 2 * j + 1) == [layer[2 * j]] && Sibling(layer, 2 * j) == [layer[2 * j + 1]]
    ensures 2 * j + 1 == |layer| ==> Sibling(layer, 2 * j) == []
  {
  }

  lemma {:induction false} ParentStep(h: Hash, layer: seq<Bytes>, j: nat)
    requires 2 * j < |layer| && |layer| > 1
    ensures j < |NextLayer(h, layer)|
    ensures Fold(h, layer[2 * j], Sibling(layer, 2 * j)) == NextLayer(h, layer)[j]
    ensures 2 * j + 1 < |layer| ==> Fold(h, layer[2 * j + 1], Sibling(layer, 2 * j + 1)) == NextLayer(h, layer)[j]
  {
    SiblingCases(layer, j);
    NextLayerAt(h, layer, j);
    if 2 * j + 1 < |layer| {
      FoldOne(h, layer[2 * j], layer[2 * j + 1]);
      FoldOne(h, layer[2 * j + 1], layer[2 * j]);
      SortedCommutes(layer[2 * j], layer[2 * j + 1]);
    }
  }

  /** Folding in the sibling takes a node to its parent. */
  lemma {:induction false} SiblingStep(h: Hash, layer: seq<Bytes>, i: nat)
    requires i < |layer| && |layer| > 1
    ensures Fold(h, layer[i], Sibling(layer, i)) == NextLayer(h, layer)[i / 2]
  {
    ParentStep(h, layer, i / 2);
    assert i == 2 * (i / 2) || i == 2 * (i / 2) + 1;
  }

  /** Every leaf verifies against the root with the proof built for its position. */
  lemma {:induction false} ProofVerifies(h: Hash, layer: seq<Bytes>, i: nat)
    requires i < |layer|
    ensures Fold(h, layer[i], Proof(h, layer, i)) == Root(h, layer)
    decreases |layer|
  {
    if |layer| > 1 {
      SiblingStep(h, layer, i);
      FoldConcat(h, layer[i], Sibling(layer, i), Proof(h, NextLayer(h, layer), i / 2));
      ProofVerifies(h, NextLayer(h, layer), i / 2);
    }
  }

  // ---- Soundness ----

  /** Every hash that occurs anywhere in the tree over `layer`. */
  ghost function Nodes(h: Hash, layer: seq<Bytes>): set<Bytes>
    decreases |layer|
  {
    (set x | x in layer) + if |layer| <= 1 then {} else Nodes(h, NextLayer(h, layer))
  }

  /** The strings hashed while building the tree over `layer`. */
  ghost function TreeInputs(h: Hash, layer: seq<Bytes>): set<Bytes>
    decreases |layer|
  {
    if |layer| <= 1 then {} else LayerInputs(layer) + TreeInputs(h, NextLayer(h, layer))
  }

  ghost function LayerInputs(layer: seq<Bytes>): set<Bytes> {
    set j | 0 <= j < |layer| / 2 :: PairAt(layer, j)
  }

  ghost function PairAt(layer: seq<Bytes>, j: nat): Bytes
    requires j < |layer| / 2
  {
    Sorted(layer[2 * j], layer[2 * j + 1])
  }

  /** The strings hashed while folding `proof` into `x`. */
  ghost function FoldInputs(h: Hash, x: Bytes, proof: seq<Bytes>): set<Bytes> {
    if proof == [] then {}
    else FoldInputs(h, x, proof[..|proof| - 1])
         + {Sorted(Fold(h, x, proof[..|proof| - 1]), proof[|proof| - 1])}
  }

  lemma {:induction false} RootInNodes(h: Hash, layer: seq<Bytes>)
    requires layer != []
    ensures Root(h, layer) in Nodes(h, layer)
    decreases |layer|
  {
    if |layer| > 1 {
      RootInNodes(h, NextLayer(h, layer));
    }
  }

  /** A node of the tree is a leaf, or the hash of two nodes of the tree. */
  lemma {:induction false} NodeOrigin(h: Hash, layer: seq<Bytes>, x: Bytes) returns (a: Bytes, b: Bytes)
    requires x in Nodes(h, layer)
    ensures x in layer || (a in Nodes(h, layer) && b in Nodes(h, layer)
                           && Sorted(a, b) in TreeInputs(h, layer) && x == HashPair(h, a, b))
    decreases |layer|
  {
    a, b := [], [];
    if x !in layer {
      var next := NextLayer(h, layer);
      if x in next {
        var j :| 0 <= j < |next| && next[j] == x;
        NextLayerAt(h, layer, j);
        assert 2 * j + 1 < |layer|;
        a, b := layer[2 * j], layer[2 * j + 1];
        assert PairAt(layer, j) in LayerInputs(layer);
      } else {
        a, b := NodeOrigin(h, next, x);
      }
    }
  }

  lemma {:induction false} SortedSplit(a: Bytes, b: Bytes, c: Bytes, d: Bytes)
    requires |a| == |b| == |c| == |d|
    requires Sorted(a, b) == Sorted(c, d)
    ensures a == c || a == d
  {
    var n := |a|;
    assert (a + b)[..n] == a && (a + b)[n..] == b && (b + a)[n..] == a && (b + a)[..n] == b;
    assert (c + d)[..n] == c && (c + d)[n..] == d && (d + c)[n..] == c && (d + c)[..n] == d;
  }

  /** The hashes of a tree built on 32-byte leaves are all 32 bytes long. */
  lemma {:induction false} NodesAreWords(h: Hash, d: set<Bytes>, layer: seq<Bytes>, x: Bytes)
    requires GoodHash(h, d) && TreeInputs(h, layer) <= d
    requires forall y :: y in layer ==> |y| == 32
    requires x in Nodes(h, layer)
    ensures |x| == 32
  {
    var a, b := NodeOrigin(h, layer, x);
  }

  /**
   Whatever string of siblings is offered, a 32-byte value that folds into a node of the tree and is
   the hash of a string longer than a pair (a receipt encoding) is one of the leaves: neither an
   inner node nor an outsider can pass for a receipt.
   */
  lemma {:induction false} FoldStaysInTree(
    h: Hash, d: set<Bytes>, leaves: seq<Bytes>, e: Bytes, proof: seq<Bytes>)
    requires GoodHash(h, d) && TreeInputs(h, leaves) <= d && FoldInputs(h, h(e), proof) <= d
    requires e in d && |e| > 64
    requires forall y :: y in leaves ==> exists s :: s in d && |s| > 64 && y == h(s)
    requires forall s :: s in proof ==> |s| == 32
    requires Fold(h, h(e), proof) in Nodes(h, leaves)
    ensures h(e) in leaves
    decreases |proof|
  {
    var x := Fold(h, h(e), proof);
    var a, b := NodeOrigin(h, leaves, x);
    if x in leaves {
      if proof != [] {
        var n := |proof| - 1;
        var y := Fold(h, h(e), proof[..n]);
        FoldIsWord(h, d, e, proof[..n]);
        assert false;
      }
    } else {
      NodesAreWords(h, d, leaves, a);
      NodesAreWords(h, d, leaves, b);
      assert Sorted(a, b) in d;
      if proof == [] {
        assert false;
      } else {
        var n := |proof| - 1;
        var y := Fold(h, h(e), proof[..n]);
        FoldIsWord(h, d, e, proof[..n]);
        assert Sorted(y, proof[n]) in FoldInputs(h, h(e), proof);
        SortedSplit(y, proof[n], a, b);
        FoldStaysInTree(h, d, leaves, e, proof[..n]);
      }
    }
  }

  lemma {:induction false} FoldIsWord(h: Hash, d: set<Bytes>, e: Bytes, proof: seq<Bytes>)
    requires GoodHash(h, d) && e in d && FoldInputs(h, h(e), proof) <= d
    ensures |Fold(h, h(e), proof)| == 32
  {
    if proof != [] {
      assert Sorted(Fold(h, h(e), proof[..|proof| - 1]), proof[|proof| - 1]) in FoldInputs(h, h(e), proof);
    }
  }

  /** All strings hashed when a tree over `encodings` is built and `e` is checked against it with `proof`. */
  ghost function Hashed(h: Hash, encodings: seq<Bytes>, e: Bytes, proof: seq<Bytes>): set<Bytes> {
    (set x | x in encodings) + {e} + TreeInputs(h, Leaves(h, encodings)) + FoldInputs(h, h(e), proof)
  }

  function Leaves(h: Hash, encodings: seq<Bytes>): (hs: seq<Bytes>)
    ensures |hs| == |encodings|
  {
    seq(|encodings|, i requires 0 <= i < |encodings| => h(encodings[i]))
  }

  lemma {:induction false} LeafIndex(h: Hash, encodings: seq<Bytes>, y: Bytes) returns (i: nat)
    requires y in Leaves(h, encodings)
    ensures i < |encodings| && encodings[i] in encodings && h(encodings[i]) == y
  {
    i :| 0 <= i < |encodings| && Leaves(h, encodings)[i] == y;
  }

  /** No proof of 32-byte siblings verifies for an encoding outside the batch. */
  lemma {:induction false} InclusionSound(h: Hash, d: set<Bytes>, encodings: seq<Bytes>, e: Bytes, proof: seq<Bytes>)
    requires encodings != [] && |e| > 64 && (forall x :: x in encodings ==> |x| > 64)
    requires Hashed(h, encodings, e, proof) <= d && GoodHash(h, d)
    requires forall s :: s in proof ==> |s| == 32
    requires Fold(h, h(e), proof) == Root(h, Leaves(h, encodings))
    ensures e in encodings
  {
    var leaves := Leaves(h, encodings);
    RootInNodes(h, leaves);
    forall y | y in leaves ensures exists s :: s in d && |s| > 64 && y == h(s) {
      var i := LeafIndex(h, encodings, y);
    }
    FoldStaysInTree(h, d, leaves, e, proof);
    var i := LeafIndex(h, encodings, h(e));
  }

  /** Whether some proof of 32-byte siblings, hashing only strings of `d`, verifies `e` against the batch. */
  ghost predicate Provable(h: Hash, d: set<Bytes>, encodings: seq<Bytes>, e: Bytes)
    requires encodings != []
  {
    exists proof: seq<Bytes> ::
      && (forall s :: s in proof ==> |s| == 32)
      && FoldInputs(h, h(e), proof) <= d
      && Fold(h, h(e), proof) == Root(h, Leaves(h, encodings))
  }

  lemma {:induction false} ProofInputs(h: Hash, d: set<Bytes>, layer: seq<Bytes>, i: nat)
    requires i < |layer| && GoodHash(h, d) && TreeInputs(h, layer) <= d
    requires forall y :: y in layer ==> |y| == 32
    ensures forall s :: s in Proof(h, layer, i) ==> |s| == 32
    ensures FoldInputs(h, layer[i], Proof(h, layer, i)) <= d
    decreases |layer|
  {
    if |layer| > 1 {
      var next, s := NextLayer(h, layer), Sibling(layer, i);
      SiblingStep(h, layer, i);
      NextLayerWords(h, d, layer);
      ProofInputs(h, d, next, i / 2);
      FoldInputsConcat(h, layer[i], s, Proof(h, next, i / 2));
      SiblingInputs(h, layer, i);
    }
  }

  lemma {:induction false} NextLayerWords(h: Hash, d: set<Bytes>, layer: seq<Bytes>)
    requires |layer| > 1 && GoodHash(h, d) && TreeInputs(h, layer) <= d
    requires forall y :: y in layer ==> |y| == 32
    ensures forall y :: y in NextLayer(h, layer) ==> |y| == 32
  {
    var next := NextLayer(h, layer);
    forall j | 0 <= j < |next| ensures |next[j]| == 32 {
      NextLayerAt(h, layer, j);
      if 2 * j + 1 < |layer| {
        assert PairAt(layer, j) in LayerInputs(layer);
      }
    }
  }

  lemma {:induction false} SiblingInputs(h: Hash, layer: seq<Bytes>, i: nat)
    requires i < |layer| && |layer| > 1
    ensures FoldInputs(h, layer[i], Sibling(layer, i)) <= TreeInputs(h, layer)
  {
    var j := i / 2;
    SiblingCases(layer, j);
    assert i == 2 * j || i == 2 * j + 1;
    if 2 * j + 1 < |layer| {
      assert PairAt(layer, j) in LayerInputs(layer);
      FoldInputsOne(h, layer[2 * j], layer[2 * j + 1]);
      FoldInputsOne(h, layer[2 * j + 1], layer[2 * j]);
      SortedCommutes(layer[2 * j], layer[2 * j + 1]);
    }
  }

  lemma {:induction false} FoldInputsOne(h: Hash, x: Bytes, s: Bytes)
    ensures FoldInputs(h, x, [s]) == {Sorted(x, s)}
  {
    assert [s][..0] == [];
  }

  lemma {:induction false} FoldInputsConcat(h: Hash, x: Bytes, p: seq<Bytes>, q: seq<Bytes>)
    ensures FoldInputs(h, x, p + q) == FoldInputs(h, x, p) + FoldInputs(h, Fold(h, x, p), q)
  {
    if q == [] {
      assert p + q == p;
    } else {
      var q' := q[..|q| - 1];
      FoldInputsConcat(h, x, p, q');
      FoldConcat(h, x, p, q');
      assert (p + q)[..|p + q| - 1] == p + q';
    }
  }

  /**
   Inclusion is exact: an encoding can be proved against the root of a batch if and only if it is one
   of the batch's encodings.
   */
  lemma {:induction false} InclusionExact(h: Hash, d: set<Bytes>, encodings: seq<Bytes>, e: Bytes)
    requires encodings != [] && |e| > 64 && (forall x :: x in encodings ==> |x| > 64)
    requires Hashed(h, encodings, e, []) <= d && GoodHash(h, d)
    ensures Provable(h, d, encodings, e) <==> e in encodings
  {
    var leaves := Leaves(h, encodings);
    if Provable(h, d, encodings, e) {
      var proof: seq<Bytes> :|
        && (forall s :: s in proof ==> |s| == 32)
        && FoldInputs(h, h(e), proof) <= d
        && Fold(h, h(e), proof) == Root(h, Leaves(h, encodings));
      InclusionSound(h, d, encodings, e, proof);
    }
    if e in encodings {
      var i :| 0 <= i < |encodings| && encodings[i] == e;
      ProofVerifies(h, leaves, i);
      forall y | y in leaves ensures |y| == 32 {
        var k := LeafIndex(h, encodings, y);
      }
      ProofInputs(h, d, leaves, i);
      assert leaves[i] == h(e);
    }
  }
}
