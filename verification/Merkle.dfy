/** The Merkle functions of crypto_utils/CryptoUtils.ts.

    SHA-256 is an arbitrary function from byte strings to 64-character digests. Nothing
    assumes it injective: wherever the design relies on collision resistance, a function
    here computes two inputs, and a lemma says that they are different and hash alike.
 */
module Merkle {
  type Digest = s: string | |s| == 64 witness seq(64, _ => '0')
  type Hash = string -> Digest

  /** Two different inputs with one digest. */
  predicate Collision(h: Hash, pair: (string, string)) {
    pair.0 != pair.1 && h(pair.0) == h(pair.1)
  }

  // ---------- Specification ----------

  function LeafLayer(h: Hash, leaves: seq<string>): (layer: seq<Digest>)
  {
    seq(|leaves|, i requires 0 <= i < |leaves| => h(leaves[i]))
  }

  /** The right partner of an even node; the last node of an odd layer is its own partner. */
  function Partner(layer: seq<Digest>, i: nat): Digest
    requires i < |layer|
  {
    if i % 2 == 1 then layer[i - 1] else if i + 1 < |layer| then layer[i + 1] else layer[i]
  }

  function Parent(h: Hash, layer: seq<Digest>, k: nat): Digest
    requires 2 * k < |layer|
  {
    h(layer[2 * k] + Partner(layer, 2 * k))
  }

  function Parents(h: Hash, layer: seq<Digest>): (parents: seq<Digest>)
    ensures |parents| == (|layer| + 1) / 2
    ensures forall k :: 0 <= k < |parents| ==> parents[k] == Parent(h, layer, k)
  {
    seq((|layer| + 1) / 2, k requires 0 <= k < (|layer| + 1) / 2 => Parent(h, layer, k))
  }

  /** Layers that halve down to one node: what a proof can be read from. */
  predicate WellShaped(tree: seq<seq<Digest>>) {
    && tree != []
    && tree[0] != []
    && (|tree| > 1 ==> |tree[1]| == (|tree[0]| + 1) / 2 && WellShaped(tree[1..]))
  }

  function Tree(h: Hash, layer: seq<Digest>): (tree: seq<seq<Digest>>)
    requires layer != []
    ensures tree != [] && tree[0] == layer
    ensures WellShaped(tree)
    decreases |layer|
  {
    if |layer| == 1 then [layer] else [layer] + Tree(h, Parents(h, layer))
  }

  function Root(h: Hash, layer: seq<Digest>): Digest
    requires layer != []
    decreases |layer|
  {
    if |layer| == 1 then layer[0] else Root(h, Parents(h, layer))
  }

  function Siblings(tree: seq<seq<Digest>>, i: nat): (proof: seq<string>)
    requires WellShaped(tree) && i < |tree[0]|
    ensures |proof| == |tree| - 1
  {
    if |tree| == 1 then [] else [Partner(tree[0], i)] + Siblings(tree[1..], i / 2)
  }

  /** The text hashed on one step up from node i with the given sibling. */
  function StepInput(current: Digest, sibling: string, i: nat): string {
    if i % 2 == 0 then current + sibling else sibling + current
  }

  function Climb(h: Hash, current: Digest, proof: seq<string>, i: nat): Digest
    decreases |proof|
  {
    if proof == [] then current else Climb(h, h(StepInput(current, proof[0], i)), proof[1..], i / 2)
  }

  predicate Accepts(h: Hash, leaf: string, proof: seq<string>, root: string, i: nat) {
    root != "" && Climb(h, h(leaf), proof, i) == root
  }

  // ---------- The three loops ----------

  lemma {:induction false} PushMovesLeft<T>(a: seq<T>, x: T, b: seq<T>)
    ensures a + ([x] + b) == (a + [x]) + b
  {
  }

  /** The inner loop of buildMerkleTree: one layer from the one below. */
  method NextLayer(h: Hash, currentLayer: seq<Digest>) returns (nextLayer: seq<Digest>)
    ensures nextLayer == Parents(h, currentLayer)
  {
    nextLayer := [];
    var i := 0;
    while i < |currentLayer|
      invariant 0 <= i <= |currentLayer| + 1 && i % 2 == 0
      invariant |nextLayer| == i / 2
      invariant nextLayer == Parents(h, currentLayer)[..i / 2]
    {
      var left: string := currentLayer[i];
      var right: string := if i + 1 < |currentLayer| then currentLayer[i + 1] else left;
      assert h(left + right) == Parent(h, currentLayer, i / 2);
      nextLayer := nextLayer + [h(left + right)];
      i := i + 2;
    }
  }

  method BuildMerkleTree(h: Hash, leaves: seq<string>) returns (tree: seq<seq<Digest>>, root: string)
    ensures leaves == [] ==> tree == [] && root == ""
    ensures leaves != [] ==> tree == Tree(h, LeafLayer(h, leaves)) && root == Root(h, LeafLayer(h, leaves))
  {
    if |leaves| == 0 {
      return [], "";
    }
    var currentLayer := LeafLayer(h, leaves);
    ghost var built: seq<seq<Digest>> := [];
    tree := [currentLayer];
    while |currentLayer| > 1
      invariant currentLayer != [] && tree == built + [currentLayer]
      invariant built + Tree(h, currentLayer) == Tree(h, LeafLayer(h, leaves))
      invariant Root(h, currentLayer) == Root(h, LeafLayer(h, leaves))
      decreases |currentLayer|
    {
      var nextLayer := NextLayer(h, currentLayer);
      PushMovesLeft(built, currentLayer, Tree(h, nextLayer));
      built := built + [currentLayer];
      tree := tree + [nextLayer];
      currentLayer := nextLayer;
    }
    root := currentLayer[0];
  }

  /** What is left of a tree above one of its layers. */
  lemma {:induction false} UpperTree(tree: seq<seq<Digest>>, level: nat, i: nat)
    requires level + 1 < |tree| && WellShaped(tree[level..]) && i < |tree[level]|
    ensures WellShaped(tree[level + 1..]) && i / 2 < |tree[level + 1]|
    ensures Siblings(tree[level..], i) == [Partner(tree[level], i)] + Siblings(tree[level + 1..], i / 2)
  {
    assert tree[level..][1..] == tree[level + 1..];
    assert tree[level..][1] == tree[level + 1];
  }

  method GetMerkleProof(tree: seq<seq<Digest>>, leafIndex: nat) returns (proof: seq<string>)
    requires WellShaped(tree) && leafIndex < |tree[0]|
    ensures proof == Siblings(tree, leafIndex)
  {
    proof := [];
    var currentIndex: nat := leafIndex;
    var level := 0;
    assert tree[0..] == tree;
    while level < |tree| - 1
      invariant 0 <= level < |tree|
      invariant WellShaped(tree[level..]) && currentIndex < |tree[level]|
      invariant proof + Siblings(tree[level..], currentIndex) == Siblings(tree, leafIndex)
    {
      var layer := tree[level];
      UpperTree(tree, level, currentIndex);
      PushMovesLeft(proof, Partner(layer, currentIndex), Siblings(tree[level + 1..], currentIndex / 2));
      if currentIndex % 2 == 0 {
        var rightSiblingIndex := if currentIndex + 1 < |layer| then currentIndex + 1 else currentIndex;
        proof := proof + [layer[rightSiblingIndex]];
      } else {
        proof := proof + [layer[currentIndex - 1]];
      }
      currentIndex := currentIndex / 2;
      level := level + 1;
    }
  }

  method VerifyMerkleProof(h: Hash, leaf: string, proof: seq<string>, root: string, leafIndex: nat) returns (ok: bool)
    ensures ok == Accepts(h, leaf, proof, root, leafIndex)
  {
    if root == "" {
      return false;
    }
    var currentHash := h(leaf);
    var currentIndex := leafIndex;
    var k := 0;
    while k < |proof|
      invariant 0 <= k <= |proof|
      invariant Climb(h, currentHash, proof[k..], currentIndex) == Climb(h, h(leaf), proof, leafIndex)
    {
      var siblingHash := proof[k];
      assert proof[k..][1..] == proof[k + 1..];
      if currentIndex % 2 == 0 {
        currentHash := h(currentHash + siblingHash);
      } else {
        currentHash := h(siblingHash + currentHash);
      }
      currentIndex := currentIndex / 2;
      k := k + 1;
    }
    ok := currentHash == root;
  }

  // ---------- Completeness ----------

  /** A node and its sibling hash to the parent, also at the unpaired end of an odd layer. */
  lemma {:induction false} StepReachesParent(h: Hash, layer: seq<Digest>, i: nat)
    requires i < |layer|
    ensures h(StepInput(layer[i], Partner(layer, i), i)) == Parents(h, layer)[i / 2]
  {
    if i % 2 == 0 {
      assert 2 * (i / 2) == i;
    } else {
      assert 2 * (i / 2) == i - 1;
    }
  }

  lemma {:induction false} HonestClimb(h: Hash, layer: seq<Digest>, i: nat)
    requires i < |layer|
    ensures Climb(h, layer[i], Siblings(Tree(h, layer), i), i) == Root(h, layer)
    decreases |layer|
  {
    if |layer| > 1 {
      StepReachesParent(h, layer, i);
      HonestClimb(h, Parents(h, layer), i / 2);
      assert Tree(h, layer)[1..] == Tree(h, Parents(h, layer));
    }
  }

  /** Every leaf of every tree verifies with the proof read from the tree. */
  lemma {:induction false} HonestProofAccepted(h: Hash, leaves: seq<string>, i: nat)
    requires i < |leaves|
    ensures Accepts(h, leaves[i], Siblings(Tree(h, LeafLayer(h, leaves)), i), Root(h, LeafLayer(h, leaves)), i)
  {
    HonestClimb(h, LeafLayer(h, leaves), i);
  }

  // ---------- The root of two halves ----------

  function Full(levels: nat): (size: nat)
    ensures size > 0
  {
    if levels == 0 then 1 else 2 * Full(levels - 1)
  }

  lemma {:induction false} LeftParent(h: Hash, a: seq<Digest>, b: seq<Digest>, whole: seq<Digest>, k: nat)
    requires |a| % 2 == 0 && 2 * k < |a| && whole == a + b
    ensures Parent(h, whole, k) == Parent(h, a, k)
  {
    assert whole[2 * k] == a[2 * k] && whole[2 * k + 1] == a[2 * k + 1];
  }

  lemma {:induction false} RightParent(h: Hash, a: seq<Digest>, b: seq<Digest>, whole: seq<Digest>, k: nat)
    requires |a| % 2 == 0 && 2 * k < |b| && whole == a + b
    ensures Parent(h, whole, |a| / 2 + k) == Parent(h, b, k)
  {
    var i := 2 * (|a| / 2 + k);
    assert whole[i] == b[2 * k];
    assert i + 1 < |whole| ==> whole[i + 1] == b[2 * k + 1];
  }

  lemma {:induction false} ParentsOfHalves(h: Hash, a: seq<Digest>, b: seq<Digest>)
    requires |a| % 2 == 0
    ensures Parents(h, a + b) == Parents(h, a) + Parents(h, b)
  {
    var whole: seq<Digest> := a + b;
    var left, right := Parents(h, a), Parents(h, b);
    forall k | 0 <= k < |left| ensures Parents(h, whole)[k] == left[k] {
      LeftParent(h, a, b, whole, k);
    }
    forall k | 0 <= k < |right| ensures Parents(h, whole)[|left| + k] == right[k] {
      RightParent(h, a, b, whole, k);
    }
    assert |Parents(h, whole)| == |left| + |right|;
    assert forall k :: |left| <= k < |left| + |right| ==> Parents(h, whole)[k] == right[k - |left|] by {
      forall k | |left| <= k < |left| + |right| ensures Parents(h, whole)[k] == right[k - |left|] {
        assert Parents(h, whole)[|left| + (k - |left|)] == right[k - |left|];
      }
    }
  }

  /** Over two full trees of one depth stands the hash of the left root followed by the right one; over
      one leaf stands its own hash. */
  lemma {:induction false} RootOfHalves(h: Hash, a: seq<Digest>, b: seq<Digest>, levels: nat)
    requires |a| == |b| == Full(levels)
    ensures Root(h, a + b) == h(Root(h, a) + Root(h, b))
    decreases levels
  {
    if levels == 0 {
      var whole: seq<Digest> := a + b;
      assert Parents(h, whole) == [Parent(h, whole, 0)];
    } else {
      ParentsOfHalves(h, a, b);
      RootOfHalves(h, Parents(h, a), Parents(h, b), levels - 1);
    }
  }

  lemma {:induction false} RootOfOneLeaf(h: Hash, leaf: string)
    ensures Root(h, LeafLayer(h, [leaf])) == h(leaf)
  {
  }

  // ---------- Binding ----------

  function Depth(size: nat): nat {
    if size <= 1 then 0 else 1 + Depth((size + 1) / 2)
  }

  lemma {:induction false} TreeDepth(h: Hash, layer: seq<Digest>)
    requires layer != []
    ensures |Tree(h, layer)| == 1 + Depth(|layer|)
    decreases |layer|
  {
    if |layer| == 1 {
    } else {
      TreeDepth(h, Parents(h, layer));
    }
  }

  /** The node from which the low bits of an index lead to the root. A bit that asks for the missing
      right end of an odd layer is served by the last node, its own partner. */
  function Seat(size: nat, i: nat): (seat: nat)
    requires size > 0
    ensures seat < size && (i < size ==> seat == i)
    decreases size
  {
    if size == 1 then 0
    else
      var left := 2 * Seat((size + 1) / 2, i / 2);
      if left + i % 2 < size then left + i % 2 else left
  }

  function SeatSiblings(h: Hash, layer: seq<Digest>, i: nat): (proof: seq<string>)
    requires layer != []
    ensures |proof| == Depth(|layer|)
    decreases |layer|
  {
    if |layer| == 1 then []
    else [Partner(layer, Seat(|layer|, i))] + SeatSiblings(h, Parents(h, layer), i / 2)
  }

  lemma {:induction false} OwnSiblings(h: Hash, layer: seq<Digest>, i: nat)
    requires i < |layer|
    ensures SeatSiblings(h, layer, i) == Siblings(Tree(h, layer), i)
    decreases |layer|
  {
    if |layer| == 1 {
    } else {
      OwnSiblings(h, Parents(h, layer), i / 2);
      assert Tree(h, layer)[1..] == Tree(h, Parents(h, layer));
    }
  }

  /** A seat and its sibling hash to the seat above. */
  lemma {:induction false} SeatReachesParent(h: Hash, layer: seq<Digest>, i: nat)
    requires |layer| > 1
    ensures var seat := Seat(|layer|, i);
            h(StepInput(layer[seat], Partner(layer, seat), i)) == Parents(h, layer)[Seat((|layer| + 1) / 2, i / 2)]
  {
    var seat, above := Seat(|layer|, i), Seat((|layer| + 1) / 2, i / 2);
    if seat == 2 * above + i % 2 {
      assert seat % 2 == i % 2 && seat / 2 == above;
      StepReachesParent(h, layer, seat);
    } else {
      assert seat == 2 * above && seat + 1 == |layer|;
    }
  }

  lemma {:induction false} SeatClimbs(h: Hash, layer: seq<Digest>, i: nat)
    requires layer != []
    ensures Climb(h, layer[Seat(|layer|, i)], SeatSiblings(h, layer, i), i) == Root(h, layer)
    decreases |layer|
  {
    if |layer| == 1 {
    } else {
      SeatReachesParent(h, layer, i);
      SeatClimbs(h, Parents(h, layer), i / 2);
    }
  }

  /** The collision hidden in a climb that reaches the root another way. */
  function Clash(h: Hash, layer: seq<Digest>, i: nat, current: Digest, proof: seq<string>): (string, string)
    requires layer != []
    decreases |proof|
  {
    if |layer| == 1 || proof == [] then ("", "")
    else
      var seat := Seat(|layer|, i);
      var submitted := StepInput(current, proof[0], i);
      var honest := StepInput(layer[seat], Partner(layer, seat), i);
      if submitted != honest && h(submitted) == h(honest) then (submitted, honest)
      else Clash(h, Parents(h, layer), i / 2, h(submitted), proof[1..])
  }

  lemma {:induction false} StepInputSplits(a: Digest, s: string, b: Digest, t: Digest, i: nat)
    requires StepInput(a, s, i) == StepInput(b, t, i)
    ensures a == b && s == t
  {
    if i % 2 == 0 {
      assert a == (a + s)[..64] && b == (b + t)[..64];
      assert s == (a + s)[64..] && t == (b + t)[64..];
    } else {
      assert |s| == |t|;
      assert s == (s + a)[..|s|] && t == (t + b)[..|s|];
      assert a == (s + a)[|s|..] && b == (t + b)[|s|..];
    }
  }

  lemma {:induction false} ClimbBinds(h: Hash, layer: seq<Digest>, i: nat, current: Digest, proof: seq<string>)
    requires layer != [] && |proof| == Depth(|layer|)
    requires Climb(h, current, proof, i) == Root(h, layer)
    ensures
      || (current == layer[Seat(|layer|, i)] && proof == SeatSiblings(h, layer, i))
      || Collision(h, Clash(h, layer, i, current, proof))
    decreases |proof|
  {
    if |layer| == 1 {
    } else {
      var seat := Seat(|layer|, i);
      SeatReachesParent(h, layer, i);
      var submitted, honest := StepInput(current, proof[0], i), StepInput(layer[seat], Partner(layer, seat), i);
      ClimbBinds(h, Parents(h, layer), i / 2, h(submitted), proof[1..]);
      if submitted == honest {
        StepInputSplits(current, proof[0], layer[seat], Partner(layer, seat), i);
        assert proof == [proof[0]] + proof[1..];
      }
    }
  }

  // ---------- Proofs of any length ----------

  /** The layer some levels up. */
  function Up(h: Hash, layer: seq<Digest>, levels: nat): (up: seq<Digest>)
    requires layer != [] && levels <= Depth(|layer|)
    ensures up != [] && Depth(|up|) == Depth(|layer|) - levels && Root(h, up) == Root(h, layer)
    ensures levels < Depth(|layer|) ==> |up| > 1
    decreases levels
  {
    if levels == 0 then layer else Up(h, Parents(h, layer), levels - 1)
  }

  /** What is hashed into a node: its two children, or its one child twice. */
  function NodeText(layer: seq<Digest>, k: nat): string
    requires 2 * k < |layer|
  {
    layer[2 * k] + Partner(layer, 2 * k)
  }

  function Shift(i: nat, steps: nat): nat {
    if steps == 0 then i else Shift(i / 2, steps - 1)
  }

  lemma {:induction false} ClimbInParts(h: Hash, current: Digest, lower: seq<string>, upper: seq<string>, i: nat)
    ensures Climb(h, current, lower + upper, i) == Climb(h, Climb(h, current, lower, i), upper, Shift(i, |lower|))
    decreases |lower|
  {
    if lower == [] {
      assert lower + upper == upper;
    } else {
      assert (lower + upper)[1..] == lower[1..] + upper;
      ClimbInParts(h, h(StepInput(current, lower[0], i)), lower[1..], upper, i / 2);
    }
  }

  /** The text last hashed by the first n > 0 steps of a climb. */
  function LastInput(h: Hash, current: Digest, proof: seq<string>, i: nat, n: nat): string
    requires 0 < n <= |proof|
  {
    StepInput(Climb(h, current, proof[..n - 1], i), proof[n - 1], Shift(i, n - 1))
  }

  lemma {:induction false} LastInputHashed(h: Hash, current: Digest, proof: seq<string>, i: nat, n: nat)
    requires 0 < n <= |proof|
    ensures Climb(h, current, proof[..n], i) == h(LastInput(h, current, proof, i, n))
  {
    assert proof[..n] == proof[..n - 1] + [proof[n - 1]];
    ClimbInParts(h, current, proof[..n - 1], [proof[n - 1]], i);
    var mid := Climb(h, current, proof[..n - 1], i);
    var last := h(StepInput(mid, proof[n - 1], Shift(i, n - 1)));
    assert [proof[n - 1]][1..] == [];
    assert Climb(h, last, [], Shift(i, n - 1) / 2) == last;
  }

  /** The honest data and siblings. */
  predicate IsHonest(h: Hash, leaves: seq<string>, i: nat, data: string, proof: seq<string>)
    requires leaves != []
  {
    data == leaves[Seat(|leaves|, i)] && proof == SeatSiblings(h, LeafLayer(h, leaves), i)
  }

  /** The text of an inner node passed off as a leaf, with that node's siblings. */
  predicate IsInnerNode(h: Hash, leaves: seq<string>, i: nat, data: string, proof: seq<string>)
    requires leaves != [] && |proof| < Depth(|leaves|)
  {
    var below := Up(h, LeafLayer(h, leaves), Depth(|leaves|) - |proof| - 1);
    var nodes := Parents(h, below);
    data == NodeText(below, Seat(|nodes|, i)) && proof == SeatSiblings(h, nodes, i)
  }

  /** A leaf that is itself the text of a step, and the honest siblings above it. */
  predicate IsLeafInside(h: Hash, leaves: seq<string>, i: nat, data: string, proof: seq<string>)
    requires leaves != [] && |proof| > Depth(|leaves|)
  {
    var extra := |proof| - Depth(|leaves|);
    && leaves[Seat(|leaves|, Shift(i, extra))] == LastInput(h, h(data), proof, i, extra)
    && proof[extra..] == SeatSiblings(h, LeafLayer(h, leaves), Shift(i, extra))
  }

  /** The verifier never looks at the length of a proof, so these are its three kinds of answers. */
  predicate Explained(h: Hash, leaves: seq<string>, i: nat, data: string, proof: seq<string>)
    requires leaves != []
  {
    if |proof| == Depth(|leaves|) then IsHonest(h, leaves, i, data, proof)
    else if |proof| < Depth(|leaves|) then IsInnerNode(h, leaves, i, data, proof)
    else IsLeafInside(h, leaves, i, data, proof)
  }

  /** The two inputs an unexplained answer gives away. */
  function ForgeryEvidence(h: Hash, leaves: seq<string>, i: nat, data: string, proof: seq<string>): (string, string)
    requires leaves != []
  {
    var layer, depth := LeafLayer(h, leaves), Depth(|leaves|);
    if |proof| == depth then
      var leaf := leaves[Seat(|leaves|, i)];
      if data != leaf && h(data) == h(leaf) then (data, leaf) else Clash(h, layer, i, h(data), proof)
    else if |proof| < depth then
      var below := Up(h, layer, depth - |proof| - 1);
      var nodes := Parents(h, below);
      var text := NodeText(below, Seat(|nodes|, i));
      if data != text && h(data) == h(text) then (data, text) else Clash(h, nodes, i, h(data), proof)
    else
      var extra := |proof| - depth;
      var leaf := leaves[Seat(|leaves|, Shift(i, extra))];
      var text := LastInput(h, h(data), proof, i, extra);
      if text != leaf && h(text) == h(leaf) then (text, leaf)
      else Clash(h, layer, Shift(i, extra), h(text), proof[extra..])
  }

  /** One level above a layer, where a node is the hash of its text. */
  lemma {:induction false} NodeProofBinds(h: Hash, below: seq<Digest>, i: nat, data: string, proof: seq<string>)
    requires |below| > 1 && |proof| == Depth(|below|) - 1
    requires Climb(h, h(data), proof, i) == Root(h, below)
    ensures var nodes := Parents(h, below);
            var text := NodeText(below, Seat(|nodes|, i));
            || (data == text && proof == SeatSiblings(h, nodes, i))
            || Collision(h, if data != text && h(data) == h(text) then (data, text) else Clash(h, nodes, i, h(data),
                proof))
  {
    ClimbBinds(h, Parents(h, below), i, h(data), proof);
  }

  lemma {:induction false} ShortProof(h: Hash, leaves: seq<string>, i: nat, data: string, proof: seq<string>)
    requires leaves != [] && |proof| < Depth(|leaves|)
    requires Climb(h, h(data), proof, i) == Root(h, LeafLayer(h, leaves))
    ensures IsInnerNode(h, leaves, i, data, proof) || Collision(h, ForgeryEvidence(h, leaves, i, data, proof))
  {
    var below := Up(h, LeafLayer(h, leaves), Depth(|leaves|) - |proof| - 1);
    NodeProofBinds(h, below, i, data, proof);
  }

  lemma {:induction false} InnerNodeClimbs(h: Hash, leaves: seq<string>, i: nat, data: string, proof: seq<string>)
    requires leaves != [] && |proof| < Depth(|leaves|) && IsInnerNode(h, leaves, i, data, proof)
    ensures Climb(h, h(data), proof, i) == Root(h, LeafLayer(h, leaves))
  {
    SeatClimbs(h, Parents(h, Up(h, LeafLayer(h, leaves), Depth(|leaves|) - |proof| - 1)), i);
  }

  lemma {:induction false} LongProof(h: Hash, leaves: seq<string>, i: nat, data: string, proof: seq<string>)
    requires leaves != [] && |proof| > Depth(|leaves|)
    ensures Climb(h, h(data), proof, i) == Root(h, LeafLayer(h, leaves)) ==>
              IsLeafInside(h, leaves, i, data, proof) || Collision(h, ForgeryEvidence(h, leaves, i, data, proof))
    ensures IsLeafInside(h, leaves, i, data, proof) ==> Climb(h, h(data), proof, i) == Root(h, LeafLayer(h, leaves))
  {
    var layer, extra := LeafLayer(h, leaves), |proof| - Depth(|leaves|);
    var text := LastInput(h, h(data), proof, i, extra);
    assert proof == proof[..extra] + proof[extra..];
    ClimbInParts(h, h(data), proof[..extra], proof[extra..], i);
    LastInputHashed(h, h(data), proof, i, extra);
    if Climb(h, h(text), proof[extra..], Shift(i, extra)) == Root(h, layer) {
      ClimbBinds(h, layer, Shift(i, extra), h(text), proof[extra..]);
    }
    SeatClimbs(h, layer, Shift(i, extra));
  }

  /** An accepted answer, at any index and with a proof of any length, is one of the three kinds, or
      it exhibits two inputs of equal hash. Siblings may be strings of any length. */
  lemma {:induction false} AcceptedProofBinds(h: Hash, leaves: seq<string>, i: nat, data: string, proof: seq<string>)
    requires leaves != []
    requires Accepts(h, data, proof, Root(h, LeafLayer(h, leaves)), i)
    ensures Explained(h, leaves, i, data, proof) || Collision(h, ForgeryEvidence(h, leaves, i, data, proof))
  {
    if |proof| < Depth(|leaves|) {
      ShortProof(h, leaves, i, data, proof);
    } else if |proof| > Depth(|leaves|) {
      LongProof(h, leaves, i, data, proof);
    } else {
      ClimbBinds(h, LeafLayer(h, leaves), i, h(data), proof);
    }
  }

  /** And all answers of the three kinds are accepted. */
  lemma {:induction false} ExplainedProofAccepted(h: Hash, leaves: seq<string>, i: nat, data: string,
      proof: seq<string>)
    requires leaves != [] && Explained(h, leaves, i, data, proof)
    ensures Accepts(h, data, proof, Root(h, LeafLayer(h, leaves)), i)
  {
    if |proof| < Depth(|leaves|) {
      InnerNodeClimbs(h, leaves, i, data, proof);
    } else if |proof| > Depth(|leaves|) {
      LongProof(h, leaves, i, data, proof);
    } else {
      SeatClimbs(h, LeafLayer(h, leaves), i);
    }
  }

  /** At a leaf's own index, a proof of the tree's depth is the one read from the tree. */
  lemma {:induction false} FullProofBinds(h: Hash, leaves: seq<string>, i: nat, data: string, proof: seq<string>)
    requires i < |leaves| && |proof| == |Tree(h, LeafLayer(h, leaves))| - 1
    requires Accepts(h, data, proof, Root(h, LeafLayer(h, leaves)), i)
    ensures
      || (data == leaves[i] && proof == Siblings(Tree(h, LeafLayer(h, leaves)), i))
      || Collision(h, ForgeryEvidence(h, leaves, i, data, proof))
  {
    TreeDepth(h, LeafLayer(h, leaves));
    AcceptedProofBinds(h, leaves, i, data, proof);
    OwnSiblings(h, LeafLayer(h, leaves), i);
  }

  /** The text of the root: two digests, whatever the leaves hold. */
  function RootText(h: Hash, leaves: seq<string>): (text: string)
    requires |leaves| > 1
    ensures |text| == 128
  {
    NodeText(Up(h, LeafLayer(h, leaves), Depth(|leaves|) - 1), 0)
  }

  /** With two leaves or more it is accepted at every index, with no siblings at all. */
  lemma {:induction false} RootTextAccepted(h: Hash, leaves: seq<string>, i: nat)
    requires |leaves| > 1
    ensures Accepts(h, RootText(h, leaves), [], Root(h, LeafLayer(h, leaves)), i)
  {
    var below := Up(h, LeafLayer(h, leaves), Depth(|leaves|) - 1);
    assert Depth(|Parents(h, below)|) == 0;
    ExplainedProofAccepted(h, leaves, i, RootText(h, leaves), []);
  }

  // ---------- Equal roots ----------

  function FirstDifference<T(==)>(a: seq<T>, b: seq<T>): (k: nat)
    requires |a| == |b| && a != b
    ensures k < |a| && a[k] != b[k]
  {
    if a[0] != b[0] then 0
    else
      assert a == [a[0]] + a[1..] && b == [b[0]] + b[1..];
      1 + FirstDifference(a[1..], b[1..])
  }

  function RootClash(h: Hash, a: seq<Digest>, b: seq<Digest>): (string, string)
    requires |a| == |b| && a != []
    decreases |a|
  {
    if |a| == 1 || a == b then ("", "")
    else if Parents(h, a) == Parents(h, b) then
      var k := FirstDifference(a, b);
      (StepInput(a[k], Partner(a, k), k), StepInput(b[k], Partner(b, k), k))
    else RootClash(h, Parents(h, a), Parents(h, b))
  }

  /** Layers of one length under one root are equal, or two inputs of equal hash appear. */
  lemma {:induction false} EqualRootsBind(h: Hash, a: seq<Digest>, b: seq<Digest>)
    requires |a| == |b| && a != []
    requires Root(h, a) == Root(h, b)
    ensures a == b || Collision(h, RootClash(h, a, b))
    decreases |a|
  {
    if |a| == 1 {
      assert a == [a[0]] && b == [b[0]];
    } else if a != b {
      EqualRootsBind(h, Parents(h, a), Parents(h, b));
      if Parents(h, a) == Parents(h, b) {
        var k := FirstDifference(a, b);
        StepReachesParent(h, a, k);
        StepReachesParent(h, b, k);
        if StepInput(a[k], Partner(a, k), k) == StepInput(b[k], Partner(b, k), k) {
          StepInputSplits(a[k], Partner(a, k), b[k], Partner(b, k), k);
        }
      }
    }
  }

  /** The same for the leaves: two leaves collide if their layers are equal, two inner nodes if not. */
  function LeavesClash(h: Hash, a: seq<string>, b: seq<string>): (string, string)
    requires |a| == |b| && a != []
  {
    if a == b then ("", "")
    else if LeafLayer(h, a) == LeafLayer(h, b) then
      var k := FirstDifference(a, b);
      (a[k], b[k])
    else RootClash(h, LeafLayer(h, a), LeafLayer(h, b))
  }

  /** One root commits to one list of leaves of a length, or two inputs of equal hash appear. */
  lemma {:induction false} EqualRootsBindLeaves(h: Hash, a: seq<string>, b: seq<string>)
    requires |a| == |b| && a != []
    requires Root(h, LeafLayer(h, a)) == Root(h, LeafLayer(h, b))
    ensures a == b || Collision(h, LeavesClash(h, a, b))
  {
    EqualRootsBind(h, LeafLayer(h, a), LeafLayer(h, b));
    if a != b && LeafLayer(h, a) == LeafLayer(h, b) {
      var k := FirstDifference(a, b);
      assert LeafLayer(h, a)[k] == LeafLayer(h, b)[k];
    }
  }

  lemma {:induction false} DoubledTailKeepsParents(h: Hash, layer: seq<Digest>, doubled: seq<Digest>, k: nat)
    requires |layer| % 2 == 1 && 2 * k < |layer|
    requires doubled == layer + [layer[|layer| - 1]]
    ensures Parent(h, doubled, k) == Parent(h, layer, k)
  {
    assert doubled[2 * k] == layer[2 * k];
    if 2 * k + 1 < |layer| {
      assert Partner(doubled, 2 * k) == layer[2 * k + 1];
    } else {
      assert Partner(doubled, 2 * k) == layer[2 * k];
    }
  }

  /** Why the lengths must agree: an odd layer of three or more and the same layer with its
      last node written twice have one root. */
  lemma {:induction false} OddTailIsAmbiguous(h: Hash, layer: seq<Digest>)
    requires |layer| >= 3 && |layer| % 2 == 1
    ensures Root(h, layer + [layer[|layer| - 1]]) == Root(h, layer)
  {
    var doubled: seq<Digest> := layer + [layer[|layer| - 1]];
    assert |Parents(h, doubled)| == |Parents(h, layer)|;
    forall k | 0 <= k < |Parents(h, layer)|
      ensures Parents(h, doubled)[k] == Parents(h, layer)[k]
    {
      DoubledTailKeepsParents(h, layer, doubled, k);
    }
    assert Parents(h, doubled) == Parents(h, layer);
  }
}
