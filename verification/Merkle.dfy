/** The two Merkle trees of the merkletools library, over an arbitrary hash.
    The ordinary tree promotes a lone last node; the BTC tree pairs it with itself. */
module Merkle {
  import opened ByteStrings

  type Hash = Bytes -> Bytes

  datatype Shape = Promote | Duplicate

  datatype ProofStep = ProofStep(left: bool, value: Bytes)

  /** The hash tells apart the inputs it is given here. (No hash of fixed width can do so
      on all inputs, so the inputs are always named.) */
  ghost predicate CollisionFreeOn(h: Hash, inputs: set<Bytes>)
  {
    forall x, y :: x in inputs && y in inputs && h(x) == h(y) ==> x == y
  }

  /** SHA-256 applied twice. */
  function Twice(h: Hash): Hash
  {
    x => h(h(x))
  }

  /** One level up: neighbours are hashed together, left to right. */
  function NextLevel(h: Hash, shape: Shape, level: seq<Bytes>): (next: seq<Bytes>)
    ensures |next| == (|level| + 1) / 2
  {
    if level == [] then []
    else if |level| == 1 then [if shape.Promote? then level[0] else h(level[0] + level[0])]
    else [h(level[0] + level[1])] + NextLevel(h, shape, level[2..])
  }

  /** The parent of the nodes 2k and 2k + 1. */
  function Parent(h: Hash, shape: Shape, level: seq<Bytes>, k: nat): Bytes
    requires 2 * k < |level|
  {
    if 2 * k + 1 < |level| then h(level[2 * k] + level[2 * k + 1])
    else if shape.Promote? then level[2 * k]
    else h(level[2 * k] + level[2 * k])
  }

  lemma {:induction false} NextLevelAt(h: Hash, shape: Shape, level: seq<Bytes>, k: nat)
    requires 2 * k < |level|
    ensures NextLevel(h, shape, level)[k] == Parent(h, shape, level, k)
  {
    if k == 0 {
    } else {
      NextLevelAt(h, shape, level[2..], k - 1);
    }
  }

  function Root(h: Hash, shape: Shape, level: seq<Bytes>): Bytes
    requires level != []
    decreases |level|
  {
    if |level| == 1 then level[0] else Root(h, shape, NextLevel(h, shape, level))
  }

  /** GetMerkleRoot: nothing for a tree without leaves. */
  function MerkleRoot(h: Hash, shape: Shape, leaves: seq<Bytes>): Bytes
  {
    if leaves == [] then [] else Root(h, shape, leaves)
  }

  /** The step from node i to its parent: its sibling, none for a promoted node, itself for
      a duplicated one. */
  function StepsToParent(shape: Shape, level: seq<Bytes>, i: nat): seq<ProofStep>
    requires i < |level|
  {
    if i % 2 == 1 then [ProofStep(true, level[i - 1])]
    else if i + 1 < |level| then [ProofStep(false, level[i + 1])]
    else if shape.Promote? then []
    else [ProofStep(false, level[i])]
  }

  /** The sibling steps from leaf i up to the root. */
  function Path(h: Hash, shape: Shape, level: seq<Bytes>, i: nat): seq<ProofStep>
    requires i < |level|
    decreases |level|
  {
    if |level| == 1 then []
    else StepsToParent(shape, level, i) + Path(h, shape, NextLevel(h, shape, level), i / 2)
  }

  /** GetProof: no steps for an index without a leaf. */
  function GetProof(h: Hash, shape: Shape, leaves: seq<Bytes>, i: nat): seq<ProofStep>
  {
    if i < |leaves| then Path(h, shape, leaves, i) else []
  }

  function Paired(step: ProofStep, x: Bytes): Bytes
  {
    if step.left then step.value + x else x + step.value
  }

  function Apply(h: Hash, step: ProofStep, x: Bytes): Bytes
  {
    h(Paired(step, x))
  }

  function Fold(h: Hash, steps: seq<ProofStep>, x: Bytes): Bytes
  {
    if steps == [] then x else Fold(h, steps[1..], Apply(h, steps[0], x))
  }

  lemma FoldFirst(h: Hash, first: seq<ProofStep>, rest: seq<ProofStep>, x: Bytes)
    requires |first| <= 1
    ensures Fold(h, first + rest, x) == Fold(h, rest, if first == [] then x else Apply(h, first[0], x))
  {
    if first == [] {
      assert first + rest == rest;
    } else {
      assert (first + rest)[1..] == rest;
    }
  }

  lemma ParentReached(h: Hash, shape: Shape, level: seq<Bytes>, i: nat)
    requires i < |level|
    ensures var steps := StepsToParent(shape, level, i);
            (if steps == [] then level[i] else Apply(h, steps[0], level[i])) == Parent(h, shape, level, i / 2)
  {
    assert i == 2 * (i / 2) + i % 2;
  }

  /** One step up a path arrives at the parent node. */
  lemma PathStep(h: Hash, shape: Shape, level: seq<Bytes>, i: nat)
    requires i < |level| && |level| > 1
    ensures Fold(h, Path(h, shape, level, i), level[i])
            == Fold(h, Path(h, shape, NextLevel(h, shape, level), i / 2), Parent(h, shape, level, i / 2))
  {
    FoldFirst(h, StepsToParent(shape, level, i), Path(h, shape, NextLevel(h, shape, level), i / 2), level[i]);
    ParentReached(h, shape, level, i);
  }

  /** Every leaf's path leads to the root, in both trees and at every width. */
  lemma {:induction false} PathCompleteness(h: Hash, shape: Shape, level: seq<Bytes>, i: nat)
    requires i < |level|
    ensures Fold(h, Path(h, shape, level, i), level[i]) == Root(h, shape, level)
    decreases |level|
  {
    if |level| == 1 {
    } else {
      PathStep(h, shape, level, i);
      NextLevelAt(h, shape, level, i / 2);
      PathCompleteness(h, shape, NextLevel(h, shape, level), i / 2);
    }
  }

  /** The inputs hashed on the way up a path. */
  function PathInputs(h: Hash, steps: seq<ProofStep>, x: Bytes): set<Bytes>
  {
    if steps == [] then {} else {Paired(steps[0], x)} + PathInputs(h, steps[1..], Apply(h, steps[0], x))
  }

  /** Unless two of the inputs hashed on the way collide, a path leads to a given root
      from one start only. */
  lemma {:induction false} FoldInjective(h: Hash, steps: seq<ProofStep>, x: Bytes, y: Bytes)
    requires CollisionFreeOn(h, PathInputs(h, steps, x) + PathInputs(h, steps, y))
    ensures Fold(h, steps, x) == Fold(h, steps, y) <==> x == y
  {
    if steps == [] {
    } else {
      var step := steps[0];
      FoldInjective(h, steps[1..], Apply(h, step, x), Apply(h, step, y));
      assert Paired(step, x) in PathInputs(h, steps, x) && Paired(step, y) in PathInputs(h, steps, y);
      if Paired(step, x) == Paired(step, y) {
        PairedCommits(step, x, y);
      }
    }
  }

  lemma PairedCommits(step: ProofStep, x: Bytes, y: Bytes)
    requires Paired(step, x) == Paired(step, y)
    ensures x == y
  {
    var n := |step.value|;
    assert |Paired(step, x)| == n + |x| && |Paired(step, y)| == n + |y|;
    if step.left {
      assert x == Paired(step, x)[n..] && y == Paired(step, y)[n..];
    } else {
      assert x == Paired(step, x)[..|x|] && y == Paired(step, y)[..|x|];
    }
  }

  ghost predicate AllSized(level: seq<Bytes>, n: nat)
  {
    forall i :: 0 <= i < |level| ==> |level[i]| == n
  }

  lemma {:induction false} NextLevelSized(h: Hash, shape: Shape, level: seq<Bytes>, n: nat)
    requires AllSized(level, n) && forall x :: |h(x)| == n
    ensures AllSized(NextLevel(h, shape, level), n)
  {
    var next := NextLevel(h, shape, level);
    forall k | 0 <= k < |next| ensures |next[k]| == n {
      NextLevelAt(h, shape, level, k);
    }
  }

  lemma {:induction false} RootSized(h: Hash, shape: Shape, level: seq<Bytes>, n: nat)
    requires level != [] && AllSized(level, n) && forall x :: |h(x)| == n
    ensures |Root(h, shape, level)| == n
    decreases |level|
  {
    if |level| == 1 {
    } else {
      NextLevelSized(h, shape, level, n);
      RootSized(h, shape, NextLevel(h, shape, level), n);
    }
  }

  /** The input hashed for the parent of the nodes 2k and 2k + 1. */
  function ParentInput(level: seq<Bytes>, k: nat): Bytes
    requires 2 * k < |level|
  {
    if 2 * k + 1 < |level| then level[2 * k] + level[2 * k + 1] else level[2 * k] + level[2 * k]
  }

  /** The inputs hashed while building the tree. */
  function TreeInputs(h: Hash, shape: Shape, level: seq<Bytes>): set<Bytes>
    decreases |level|
  {
    if |level| <= 1 then {}
    else (set k: nat | k < |level| && 2 * k < |level| :: ParentInput(level, k)) + TreeInputs(h, shape, NextLevel(h, shape, level))
  }

  /** The root commits to the leaves: two lists of the same length, of nodes as wide as a
      digest, share a root only if they are equal or two inputs hashed in the trees
      collide. The lengths must agree: [a, b, c] and [a, b, c, c] share their BTC root. */
  lemma {:induction false} RootCommits(h: Hash, shape: Shape, a: seq<Bytes>, b: seq<Bytes>, n: nat)
    requires |a| == |b| > 0 && AllSized(a, n) && AllSized(b, n) && forall x :: |h(x)| == n
    requires CollisionFreeOn(h, TreeInputs(h, shape, a) + TreeInputs(h, shape, b))
    ensures Root(h, shape, a) == Root(h, shape, b) <==> a == b
    decreases |a|
  {
    if |a| > 1 && Root(h, shape, a) == Root(h, shape, b) {
      NextLevelSized(h, shape, a, n);
      NextLevelSized(h, shape, b, n);
      RootCommits(h, shape, NextLevel(h, shape, a), NextLevel(h, shape, b), n);
      forall i | 0 <= i < |a| ensures a[i] == b[i] {
        NextLevelAt(h, shape, a, i / 2);
        NextLevelAt(h, shape, b, i / 2);
        assert ParentInput(a, i / 2) in TreeInputs(h, shape, a);
        assert ParentInput(b, i / 2) in TreeInputs(h, shape, b);
        ParentCommits(h, shape, a, b, i, n);
      }
    }
  }

  lemma ParentCommits(h: Hash, shape: Shape, a: seq<Bytes>, b: seq<Bytes>, i: nat, n: nat)
    requires i < |a| == |b| && AllSized(a, n) && AllSized(b, n)
    requires CollisionFreeOn(h, {ParentInput(a, i / 2), ParentInput(b, i / 2)})
    requires Parent(h, shape, a, i / 2) == Parent(h, shape, b, i / 2)
    ensures a[i] == b[i]
  {
    var k := i / 2;
    var p, q := ParentInput(a, k), ParentInput(b, k);
    assert p[..n] == a[2 * k] && q[..n] == b[2 * k];
    if 2 * k + 1 < |a| {
      assert p[n..] == a[2 * k + 1] && q[n..] == b[2 * k + 1];
    }
  }

  /** Why RootCommits asks for equal lengths. */
  lemma DuplicatedLeafSharesRoot(h: Hash, a: Bytes, b: Bytes, c: Bytes)
    ensures Root(h, Duplicate, [a, b, c]) == Root(h, Duplicate, [a, b, c, c])
  {
    var left, right := h(a + b), h(c + c);
    assert [a, b, c][2..] == [c];
    assert [a, b, c, c][2..] == [c, c];
    assert NextLevel(h, Duplicate, [c, c]) == [right];
    assert NextLevel(h, Duplicate, [a, b, c]) == [left, right];
    assert NextLevel(h, Duplicate, [a, b, c, c]) == [left, right];
  }

  /** The two shapes on three leaves: neighbours are hashed left to right, and the lone last node is
      promoted in the one and hashed with itself in the other. */
  lemma ThreeLeaves(h: Hash, a: Bytes, b: Bytes, c: Bytes)
    ensures MerkleRoot(h, Promote, [a, b, c]) == h(h(a + b) + c)
    ensures MerkleRoot(h, Duplicate, [a, b, c]) == h(h(a + b) + h(c + c))
  {
    assert [a, b, c][2..] == [c];
    assert NextLevel(h, Promote, [c]) == [c] && NextLevel(h, Duplicate, [c]) == [h(c + c)];
    assert NextLevel(h, Promote, [a, b, c]) == [h(a + b), c];
    assert NextLevel(h, Duplicate, [a, b, c]) == [h(a + b), h(c + c)];
    TwoLeaves(h, h(a + b), c);
    TwoLeaves(h, h(a + b), h(c + c));
  }

  lemma TwoLeaves(h: Hash, a: Bytes, b: Bytes)
    ensures MerkleRoot(h, Promote, [a, b]) == h(a + b) && MerkleRoot(h, Duplicate, [a, b]) == h(a + b)
  {
    assert [a, b][2..] == [];
    assert NextLevel(h, Promote, [a, b]) == [h(a + b)] + NextLevel(h, Promote, []);
    assert NextLevel(h, Duplicate, [a, b]) == [h(a + b)] + NextLevel(h, Duplicate, []);
    assert Root(h, Promote, [a, b]) == Root(h, Promote, NextLevel(h, Promote, [a, b]));
    assert Root(h, Duplicate, [a, b]) == Root(h, Duplicate, NextLevel(h, Duplicate, [a, b]));
  }
}
