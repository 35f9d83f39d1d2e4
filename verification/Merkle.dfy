/** The tip5 Merkle tree: building, proving, verifying. */
module Merkle {
  import opened Wrappers
  import opened Field
  import opened LittleEndian
  import opened Belts

  /** The two tip5 sponges, left abstract. */
  datatype Hasher = Hasher(pair: (Digest, Digest) -> Digest, varlen: seq<nat> -> Digest)

  /** Hash outputs are field elements. */
  ghost predicate InField(h: Hasher) {
    && (forall l, r :: Canonical(h.pair(l, r)))
    && (forall input :: Canonical(h.varlen(input)))
  }

  /** `side` is true when the sibling is on the left. */
  datatype ProofNode = ProofNode(hash: Digest, side: bool)

  datatype TreeError = EmptyLeaves | IndexOutOfBounds(index: nat, leafCount: nat)

  const PROOF_CAP: nat := 64

  // ----- Leaves

  function LeafInput(data: seq<byte>): seq<nat> {
    [|BeltsOf(data)|] + BeltsOf(data)
  }

  function HashLeaf(h: Hasher, data: seq<byte>): Digest {
    h.varlen(LeafInput(data))
  }

  /** The `k`-th seven-byte word of an atom. */
  function Word(atom: seq<byte>, k: nat): seq<byte>
    requires 7 * k <= |atom|
  {
    if 7 * k + 7 <= |atom| then atom[7 * k..7 * k + 7] else atom[7 * k..]
  }

  /** What a leaf is hashed from: the number of words, then each word's value; the empty atom is the one word 0. */
  predicate CountedWords(input: seq<nat>, atom: seq<byte>) {
    && |input| == 1 + (if atom == [] then 1 else (|atom| + 6) / 7)
    && input[0] == |input| - 1
    && (forall k | 0 <= k < |input| - 1 :: 7 * k <= |atom| && input[k + 1] == Value(Word(atom, k)))
  }

  /** `hash_leaf`: the counted words of the data without its trailing zero bytes. */
  method ComputeLeaf(h: Hasher, data: seq<byte>) returns (d: Digest)
    ensures d == HashLeaf(h, data)
    ensures exists input: seq<nat> :: CountedWords(input, Trim(data)) && d == h.varlen(input)
  {
    var belts := AtomBytesToBelts(data);
    LeafIsCountedWords(data);
    d := h.varlen([|belts|] + belts);
  }

  lemma LeafIsCountedWords(data: seq<byte>)
    ensures CountedWords(LeafInput(data), Trim(data))
  {
    var atom := Trim(data);
    if atom == [] {
      assert Word(atom, 0) == [];
    } else {
      ChunkCount(atom);
      forall k | 0 <= k < |Chunks(atom)| ensures 7 * k <= |atom| && Chunks(atom)[k] == Value(Word(atom, k)) {
        ChunkAt(atom, k);
      }
    }
  }

  lemma {:induction false} ChunkAt(atom: seq<byte>, k: nat)
    requires k < |Chunks(atom)|
    ensures 7 * k <= |atom| && Chunks(atom)[k] == Value(Word(atom, k))
  {
    if |atom| <= 7 {
      assert Word(atom, 0) == atom;
    } else if k == 0 {
      assert Word(atom, 0) == atom[..7];
    } else {
      ChunkAt(atom[7..], k - 1);
      assert Word(atom[7..], k - 1) == Word(atom, k);
    }
  }

  // ----- The levels of a tree

  /** The right child of parent `j`: at the end of an odd level it is a copy of the left one. */
  function RightChild(level: seq<Digest>, j: nat): Digest
    requires 2 * j < |level|
  {
    if 2 * j + 1 < |level| then level[2 * j + 1] else level[2 * j]
  }

  function NextLevel(h: Hasher, level: seq<Digest>): (r: seq<Digest>)
    ensures |r| == (|level| + 1) / 2
    ensures forall j | 0 <= j < |r| :: r[j] == h.pair(level[2 * j], RightChild(level, j))
  {
    seq((|level| + 1) / 2, j requires 0 <= j < (|level| + 1) / 2 => h.pair(level[2 * j], RightChild(level, j)))
  }

  function Levels(h: Hasher, level: seq<Digest>): (r: seq<seq<Digest>>)
    requires level != []
    ensures r != [] && r[0] == level
    ensures Shape(r)
    decreases |level|
  {
    if |level| == 1 then [level] else [level] + Levels(h, NextLevel(h, level))
  }

  /** Every level is half the one below, rounded up, and the last is the root alone. */
  predicate Shape(levels: seq<seq<Digest>>) {
    && levels != [] && |levels[|levels| - 1]| == 1
    && (forall k | 0 <= k < |levels| :: levels[k] != [])
    && (forall k | 0 <= k < |levels| - 1 :: |levels[k]| > 1 && |levels[k + 1]| == (|levels[k]| + 1) / 2)
  }

  function LeafLevel(h: Hasher, leaves: seq<seq<byte>>): (r: seq<Digest>)
    ensures |r| == |leaves|
  {
    seq(|leaves|, i requires 0 <= i < |leaves| => HashLeaf(h, leaves[i]))
  }

  function RootOf(levels: seq<seq<Digest>>): Digest
    requires Shape(levels)
  {
    levels[|levels| - 1][0]
  }

  /** The node beside `idx`: a right child's is its left neighbour, a left child's is its partner. */
  function SiblingOf(level: seq<Digest>, idx: nat): ProofNode
    requires idx < |level|
  {
    if idx % 2 == 1 then ProofNode(level[idx - 1], true) else ProofNode(RightChild(level, idx / 2), false)
  }

  /** The siblings met on the way from node `idx` of level `k` to the root. */
  function PathFrom(levels: seq<seq<Digest>>, k: nat, idx: nat): seq<ProofNode>
    requires Shape(levels) && k < |levels| && idx < |levels[k]|
    decreases |levels| - k
  {
    if k == |levels| - 1 then [] else [SiblingOf(levels[k], idx)] + PathFrom(levels, k + 1, idx / 2)
  }

  function PathOf(levels: seq<seq<Digest>>, idx: nat): seq<ProofNode>
    requires Shape(levels) && idx < |levels[0]|
  {
    PathFrom(levels, 0, idx)
  }

  // ----- Folding a proof

  function Step(h: Hasher, cur: Digest, node: ProofNode): Digest {
    if node.side then h.pair(node.hash, cur) else h.pair(cur, node.hash)
  }

  function Fold(h: Hasher, cur: Digest, proof: seq<ProofNode>): Digest
    decreases |proof|
  {
    if proof == [] then cur else Fold(h, Step(h, cur, proof[0]), proof[1..])
  }

  predicate Accepts(h: Hasher, data: seq<byte>, proof: seq<ProofNode>, root: Digest) {
    && |proof| <= PROOF_CAP
    && Canonical(root)
    && (forall node | node in proof :: Canonical(node.hash))
    && Fold(h, HashLeaf(h, data), proof) == root
  }

  /** `verify_proof`: the depth cap, the field screens, then the fold. */
  method VerifyProof(h: Hasher, data: seq<byte>, proof: seq<ProofNode>, root: Digest) returns (ok: bool)
    ensures ok <==> Accepts(h, data, proof, root)
    ensures ok ==> |proof| <= 64
  {
    if |proof| > PROOF_CAP {
      return false;
    }
    var screened := CheckTip5Limbs(root);
    if screened.Failure? {
      return false;
    }
    for i := 0 to |proof|
      invariant forall j | 0 <= j < i :: Canonical(proof[j].hash)
    {
      screened := CheckTip5Limbs(proof[i].hash);
      if screened.Failure? {
        assert proof[i] in proof;
        return false;
      }
    }
    var cur: Digest := ComputeLeaf(h, data);
    for i := 0 to |proof|
      invariant Fold(h, cur, proof[i..]) == Fold(h, HashLeaf(h, data), proof)
    {
      assert proof[i..][1..] == proof[i + 1..];
      cur := if proof[i].side then h.pair(proof[i].hash, cur) else h.pair(cur, proof[i].hash);
    }
    return cur == root;
  }

  // ----- The tree

  /** All levels are kept, so that proofs can be read off them. */
  datatype MerkleTree = MerkleTree(levels: seq<seq<Digest>>)

  function TreeOf(h: Hasher, leaves: seq<seq<byte>>): MerkleTree
    requires leaves != []
  {
    MerkleTree(Levels(h, LeafLevel(h, leaves)))
  }

  /** One round of the build loop: pad an odd level with a copy of its last node, then hash the pairs. */
  method PairUp(h: Hasher, level: seq<Digest>) returns (next: seq<Digest>)
    ensures next == NextLevel(h, level)
    ensures |next| == (|level| + 1) / 2
    ensures forall j | 0 <= j < |level| / 2 :: next[j] == h.pair(level[2 * j], level[2 * j + 1])
    ensures |level| % 2 == 1 ==> next[|level| / 2] == h.pair(level[|level| - 1], level[|level| - 1])
  {
    var current := level;
    if |current| % 2 != 0 {
      current := current + [current[|current| - 1]];
    }
    next := [];
    for j := 0 to |current| / 2
      invariant |next| == j
      invariant forall k | 0 <= k < j :: next[k] == NextLevel(h, level)[k]
    {
      assert current[2 * j + 1] == RightChild(level, j);
      next := next + [h.pair(current[2 * j], current[2 * j + 1])];
    }
  }

  lemma LevelsUnfold(h: Hasher, level: seq<Digest>, next: seq<Digest>, below: seq<seq<Digest>>)
    requires |level| > 1 && next == NextLevel(h, level)
    ensures below + Levels(h, level) == below + [level] + Levels(h, next)
  {
  }

  method HashLeaves(h: Hasher, leaves: seq<seq<byte>>) returns (level: seq<Digest>)
    ensures level == LeafLevel(h, leaves) && |level| == |leaves|
    ensures forall i | 0 <= i < |leaves| :: level[i] == HashLeaf(h, leaves[i])
  {
    level := [];
    for i := 0 to |leaves|
      invariant |level| == i && forall k | 0 <= k < i :: level[k] == HashLeaf(h, leaves[k])
    {
      var leaf := ComputeLeaf(h, leaves[i]);
      level := level + [leaf];
    }
  }

  method Build(h: Hasher, leaves: seq<seq<byte>>) returns (r: Result<MerkleTree, TreeError>)
    ensures r == if leaves == [] then Failure(EmptyLeaves) else Success(TreeOf(h, leaves))
    ensures r.Success? ==> r.value.levels != [] && |r.value.levels[0]| == |leaves|
    ensures r.Success? ==> forall i | 0 <= i < |leaves| :: r.value.levels[0][i] == HashLeaf(h, leaves[i])
  {
    if leaves == [] {
      return Failure(EmptyLeaves);
    }
    var current := HashLeaves(h, leaves);
    var levels := [current];
    ghost var below: seq<seq<Digest>> := [];
    while |current| > 1
      invariant current != [] && levels == below + [current]
      invariant below + Levels(h, current) == Levels(h, LeafLevel(h, leaves))
      decreases |current|
    {
      var next := PairUp(h, current);
      LevelsUnfold(h, current, next, below);
      below := levels;
      levels := levels + [next];
      current := next;
    }
    return Success(MerkleTree(levels));
  }

  /** The position of a node's ancestor `k` levels up. */
  function AncestorAt(index: nat, k: nat): nat {
    if k == 0 then index else AncestorAt(index / 2, k - 1)
  }

  /** The node beside position `at`: to the left of a right child, to the right of a left child; the last of an odd
      level
      stands beside itself. */
  predicate Beside(level: seq<Digest>, at: nat, node: ProofNode) {
    && at < |level|
    && (at % 2 == 1 ==> node == ProofNode(level[at - 1], true))
    && (at % 2 == 0 ==> node == ProofNode(if at + 1 < |level| then level[at + 1] else level[at], false))
  }

  /** A path holds, for each level but the root's, the node beside the ancestor there. */
  predicate ReadsOff(levels: seq<seq<Digest>>, index: nat, path: seq<ProofNode>) {
    |path| == |levels| - 1 && forall k | 0 <= k < |path| :: Beside(levels[k], AncestorAt(index, k), path[k])
  }

  lemma PathReadsOff(levels: seq<seq<Digest>>, index: nat)
    requires Shape(levels) && index < |levels[0]|
    ensures ReadsOff(levels, index, PathOf(levels, index))
  {
    var bottom: nat := 0;
    PathLength(levels, bottom, index);
    forall k | 0 <= k < |levels| - 1 ensures Beside(levels[k], AncestorAt(index, k), PathOf(levels, index)[k]) {
      PathAt(levels, bottom, index, k);
    }
  }

  lemma {:induction false} PathLength(levels: seq<seq<Digest>>, k: nat, idx: nat)
    requires Shape(levels) && k < |levels| && idx < |levels[k]|
    ensures |PathFrom(levels, k, idx)| == |levels| - 1 - k
    decreases |levels| - k
  {
    if k < |levels| - 1 {
      PathLength(levels, k + 1, idx / 2);
    }
  }

  lemma {:induction false} PathAt(levels: seq<seq<Digest>>, k: nat, idx: nat, m: nat)
    requires Shape(levels) && k + m < |levels| - 1 && idx < |levels[k]|
    ensures m < |PathFrom(levels, k, idx)| && Beside(levels[k + m], AncestorAt(idx, m), PathFrom(levels, k, idx)[m])
    decreases m
  {
    FirstOfPath(levels, k, idx);
    if m > 0 {
      PathAt(levels, k + 1, idx / 2, m - 1);
    }
  }

  lemma FirstOfPath(levels: seq<seq<Digest>>, k: nat, idx: nat)
    requires Shape(levels) && k < |levels| - 1 && idx < |levels[k]|
    ensures idx / 2 < |levels[k + 1]| && PathFrom(levels, k, idx) != []
    ensures Beside(levels[k], idx, PathFrom(levels, k, idx)[0])
    ensures PathFrom(levels, k, idx)[1..] == PathFrom(levels, k + 1, idx / 2)
  {
    SiblingBeside(levels[k], idx);
    assert PathFrom(levels, k, idx) == [SiblingOf(levels[k], idx)] + PathFrom(levels, k + 1, idx / 2);
  }

  lemma SiblingBeside(level: seq<Digest>, idx: nat)
    requires idx < |level|
    ensures Beside(level, idx, SiblingOf(level, idx))
  {
  }

  lemma PathFromStep(levels: seq<seq<Digest>>, k: nat, idx: nat, path: seq<ProofNode>)
    requires Shape(levels) && k < |levels| - 1 && idx < |levels[k]|
    ensures idx / 2 < |levels[k + 1]|
    ensures path + PathFrom(levels, k, idx) == path + [SiblingOf(levels[k], idx)] + PathFrom(levels, k + 1, idx / 2)
  {
  }

  method Proof(tree: MerkleTree, index: nat) returns (r: Result<seq<ProofNode>, TreeError>)
    requires Shape(tree.levels)
    ensures r == if index < |tree.levels[0]| then Success(PathOf(tree.levels, index))
                 else Failure(IndexOutOfBounds(index, |tree.levels[0]|))
    ensures r.Success? ==> ReadsOff(tree.levels, index, r.value)
  {
    var levels := tree.levels;
    if index >= |levels[0]| {
      return Failure(IndexOutOfBounds(index, |levels[0]|));
    }
    var path: seq<ProofNode> := [];
    var idx: nat := index;
    for k := 0 to |levels| - 1
      invariant idx < |levels[k]|
      invariant path + PathFrom(levels, k, idx) == PathOf(levels, index)
    {
      var sibling := if idx % 2 == 0 then idx + 1 else idx - 1;
      var hash := if sibling < |levels[k]| then levels[k][sibling] else levels[k][idx];
      assert ProofNode(hash, idx % 2 == 1) == SiblingOf(levels[k], idx);
      PathFromStep(levels, k, idx, path);
      path := path + [ProofNode(hash, idx % 2 == 1)];
      idx := idx / 2;
    }
    assert path + [] == path;
    PathReadsOff(levels, index);
    return Success(path);
  }

  // ----- Completeness

  /** The root and the path read off a level directly, without the stored tree. */
  function Top(h: Hasher, level: seq<Digest>): Digest
    requires level != []
    decreases |level|
  {
    if |level| == 1 then level[0] else Top(h, NextLevel(h, level))
  }

  function Climb(h: Hasher, level: seq<Digest>, idx: nat): seq<ProofNode>
    requires idx < |level|
    decreases |level|
  {
    if |level| == 1 then [] else [SiblingOf(level, idx)] + Climb(h, NextLevel(h, level), idx / 2)
  }

  lemma {:induction false} LevelsStep(h: Hasher, level: seq<Digest>, k: nat)
    requires level != [] && k < |Levels(h, level)|
    ensures k + 1 < |Levels(h, level)| ==> Levels(h, level)[k + 1] == NextLevel(h, Levels(h, level)[k])
    decreases |level|
  {
    if |level| > 1 {
      assert Levels(h, level) == [level] + Levels(h, NextLevel(h, level));
      if k > 0 {
        LevelsStep(h, NextLevel(h, level), k - 1);
      }
    }
  }

  lemma {:induction false} StoredPath(h: Hasher, level: seq<Digest>, k: nat, idx: nat)
    requires level != [] && k < |Levels(h, level)| && idx < |Levels(h, level)[k]|
    ensures PathFrom(Levels(h, level), k, idx) == Climb(h, Levels(h, level)[k], idx)
    ensures RootOf(Levels(h, level)) == Top(h, Levels(h, level)[k])
    decreases |Levels(h, level)| - k
  {
    var levels := Levels(h, level);
    if k < |levels| - 1 {
      LevelsStep(h, level, k);
      StoredPath(h, level, k + 1, idx / 2);
    }
  }

  /** Folding node `idx` along its path reaches the root, through every padded level. */
  lemma {:induction false} ClimbFolds(h: Hasher, level: seq<Digest>, idx: nat)
    requires idx < |level|
    ensures Fold(h, level[idx], Climb(h, level, idx)) == Top(h, level)
    decreases |level|
  {
    if |level| > 1 {
      var next := NextLevel(h, level);
      assert Step(h, level[idx], SiblingOf(level, idx)) == next[idx / 2];
      assert Climb(h, level, idx)[1..] == Climb(h, next, idx / 2);
      ClimbFolds(h, next, idx / 2);
    }
  }

  /** The path length is ceil(log2 n): at most `k` exactly when 2^k leaves are enough. */
  lemma {:induction false} ClimbLength(h: Hasher, level: seq<Digest>, idx: nat, k: nat)
    requires idx < |level|
    ensures |Climb(h, level, idx)| <= k <==> |level| <= Pow2(k)
    decreases |level|
  {
    if |level| > 1 {
      if k > 0 {
        ClimbLength(h, NextLevel(h, level), idx / 2, k - 1);
        HalfFits(|level|, Pow2(k - 1));
      }
    }
  }

  lemma HalfFits(n: nat, p: nat)
    ensures (n + 1) / 2 <= p <==> n <= p + p
  {
  }

  lemma {:induction false} ClimbInField(h: Hasher, level: seq<Digest>, idx: nat)
    requires InField(h) && idx < |level|
    requires forall d | d in level :: Canonical(d)
    ensures forall node | node in Climb(h, level, idx) :: Canonical(node.hash)
    ensures Canonical(Top(h, level))
    decreases |level|
  {
    if |level| > 1 {
      ClimbInField(h, NextLevel(h, level), idx / 2);
    }
  }

  /** The stored path and root are the ones read off the leaf level. */
  lemma StoredTree(h: Hasher, leaves: seq<seq<byte>>, i: nat)
    requires i < |leaves|
    ensures PathOf(TreeOf(h, leaves).levels, i) == Climb(h, LeafLevel(h, leaves), i)
    ensures RootOf(TreeOf(h, leaves).levels) == Top(h, LeafLevel(h, leaves))
  {
    StoredPath(h, LeafLevel(h, leaves), 0, i);
  }

  /** Completeness, with its exact limit: the path built for a leaf verifies against the tree's root if
      and only if the tree has at most 2^64 leaves. */
  lemma Completeness(h: Hasher, leaves: seq<seq<byte>>, i: nat)
    requires InField(h) && i < |leaves|
    ensures var levels := TreeOf(h, leaves).levels;
            Accepts(h, leaves[i], PathOf(levels, i), RootOf(levels)) <==> |leaves| <= 0x1_0000_0000_0000_0000
  {
    var level := LeafLevel(h, leaves);
    StoredTree(h, leaves, i);
    ClimbFolds(h, level, i);
    ClimbLength(h, level, i, PROOF_CAP);
    TwoTo64();
    ClimbInField(h, level, i);
  }

  // ----- Position binding

  /** The pairs hashed by a fold. */
  function PairInputs(h: Hasher, cur: Digest, proof: seq<ProofNode>): set<(Digest, Digest)>
    decreases |proof|
  {
    if proof == [] then {} else
      {if proof[0].side then (proof[0].hash, cur) else (cur, proof[0].hash)}
      + PairInputs(h, Step(h, cur, proof[0]), proof[1..])
  }

  /** No two of these pairs collide. */
  predicate NoPairCollision(h: Hasher, inputs: set<(Digest, Digest)>) {
    forall x, y | x in inputs && y in inputs && h.pair(x.0, x.1) == h.pair(y.0, y.1) :: x == y
  }

  predicate SameSides(p: seq<ProofNode>, q: seq<ProofNode>) {
    |p| == |q| && forall i | 0 <= i < |p| :: p[i].side == q[i].side
  }

  /** The inputs hashed by checking `s` along `p` and `t` along `q` do not collide. */
  predicate NoCollision(h: Hasher, s: seq<byte>, p: seq<ProofNode>, t: seq<byte>, q: seq<ProofNode>) {
    && NoPairCollision(h, PairInputs(h, HashLeaf(h, s), p) + PairInputs(h, HashLeaf(h, t), q))
    && (HashLeaf(h, s) == HashLeaf(h, t) ==> LeafInput(s) == LeafInput(t))
  }

  lemma {:induction false} FoldBinding(h: Hasher, a: Digest, p: seq<ProofNode>, b: Digest, q: seq<ProofNode>)
    requires SameSides(p, q) && Fold(h, a, p) == Fold(h, b, q)
    requires NoPairCollision(h, PairInputs(h, a, p) + PairInputs(h, b, q))
    ensures a == b && p == q
    decreases |p|
  {
    if p != [] {
      var x, y := Step(h, a, p[0]), Step(h, b, q[0]);
      assert PairInputs(h, x, p[1..]) + PairInputs(h, y, q[1..]) <= PairInputs(h, a, p) + PairInputs(h, b, q);
      FoldBinding(h, x, p[1..], y, q[1..]);
      assert p == [p[0]] + p[1..] && q == [q[0]] + q[1..];
    }
  }

  /** The path and the root that the tree over these leaves gives for leaf `i`. */
  predicate TreeGives(h: Hasher, leaves: seq<seq<byte>>, i: nat, path: seq<ProofNode>, root: Digest)
    requires i < |leaves|
  {
    var levels := TreeOf(h, leaves).levels;
    path == PathOf(levels, i) && root == RootOf(levels)
  }

  /** Position binding: a proof that walks the sides of leaf `i` and verifies has leaf `i`'s siblings,
      and its data is leaf `i` up to trailing zero bytes, unless two of the inputs that these very
      computations hash collide. */
  lemma PositionBinding(h: Hasher, leaves: seq<seq<byte>>, i: nat, path: seq<ProofNode>, root: Digest,
                        data: seq<byte>, proof: seq<ProofNode>)
    requires i < |leaves| && TreeGives(h, leaves, i, path, root)
    requires SameSides(proof, path) && Accepts(h, data, proof, root)
    requires NoCollision(h, data, proof, leaves[i], path)
    ensures proof == path && Trim(data) == Trim(leaves[i])
  {
    StoredTree(h, leaves, i);
    ClimbFolds(h, LeafLevel(h, leaves), i);
    FoldBinding(h, HashLeaf(h, data), proof, HashLeaf(h, leaves[i]), path);
    assert LeafInput(data)[1..] == BeltsOf(data) && LeafInput(leaves[i])[1..] == BeltsOf(leaves[i]);
    BeltsIdentifyAtoms(data, leaves[i]);
  }

  /** The converse half of the data clause: bytes that trim alike verify alike, whatever the hash. */
  lemma AcceptsIsUpToTrailingZeros(h: Hasher, s: seq<byte>, t: seq<byte>, proof: seq<ProofNode>, root: Digest)
    requires Trim(s) == Trim(t)
    ensures Accepts(h, s, proof, root) <==> Accepts(h, t, proof, root)
  {
  }

  // ----- Binding at any position

  lemma {:induction false} FoldLast(h: Hasher, cur: Digest, proof: seq<ProofNode>, last: ProofNode)
    ensures Fold(h, cur, proof + [last]) == Step(h, Fold(h, cur, proof), last)
    ensures PairInputs(h, cur, proof + [last]) == PairInputs(h, cur, proof) + {PairAt(Fold(h, cur, proof), last)}
    decreases |proof|
  {
    if proof == [] {
      assert ([last])[1..] == [];
    } else {
      assert (proof + [last])[1..] == proof[1..] + [last];
      FoldLast(h, Step(h, cur, proof[0]), proof[1..], last);
    }
  }

  function PairAt(cur: Digest, node: ProofNode): (Digest, Digest) {
    if node.side then (node.hash, cur) else (cur, node.hash)
  }

  /** The pairs hashed to make a tree. */
  function TreePairs(levels: seq<seq<Digest>>): set<(Digest, Digest)> {
    set k, j | 0 <= k < |levels| && 0 <= j < |levels[k]| && 2 * j < |levels[k]| ::
      (levels[k][2 * j], RightChild(levels[k], j))
  }

  predicate IsTree(h: Hasher, levels: seq<seq<Digest>>) {
    levels != [] && forall k | 0 <= k < |levels| - 1 :: levels[k + 1] == NextLevel(h, levels[k])
  }

  /** A pair that is hashed to a node of the tree is that node's own pair of children. */
  lemma OwnChildren(h: Hasher, levels: seq<seq<Digest>>, k: nat, pair: (Digest, Digest), inputs: set<(Digest, Digest)>)
    requires IsTree(h, levels) && 1 <= k < |levels| && pair in inputs && h.pair(pair.0, pair.1) in levels[k]
    requires NoPairCollision(h, inputs + TreePairs(levels))
    ensures pair.0 in levels[k - 1] && pair.1 in levels[k - 1]
  {
    var below := levels[k - 1];
    assert levels[k] == NextLevel(h, below);
    var j :| 0 <= j < |levels[k]| && levels[k][j] == h.pair(pair.0, pair.1);
    assert 2 * j < |below|;
    assert (below[2 * j], RightChild(below, j)) in TreePairs(levels);
  }

  /** The pairs of a fold collide neither with each other nor with the tree's, and make none of its leaf digests. */
  predicate FoldIsClean(h: Hasher, levels: seq<seq<Digest>>, inputs: set<(Digest, Digest)>)
    requires levels != []
  {
    NoPairCollision(h, inputs + TreePairs(levels)) && forall x | x in inputs :: h.pair(x.0, x.1) !in levels[0]
  }

  /** What folds to a node of the tree started at a node, as many levels below. */
  lemma {:induction false} FoldDescends(h: Hasher, levels: seq<seq<Digest>>, k: nat, cur: Digest, proof: seq<ProofNode>)
    returns (down: nat)
    requires IsTree(h, levels) && k < |levels| && Fold(h, cur, proof) in levels[k]
    requires FoldIsClean(h, levels, PairInputs(h, cur, proof))
    ensures down + |proof| == k && cur in levels[down]
    decreases |proof|
  {
    if proof == [] {
      down := k;
    } else {
      var n := |proof| - 1;
      var before, last := proof[..n], proof[n];
      assert proof == before + [last];
      LastStepDown(h, levels, k, cur, before, last);
      down := FoldDescends(h, levels, k - 1, cur, before);
    }
  }

  lemma LastStepDown(h: Hasher, levels: seq<seq<Digest>>, k: nat, cur: Digest, before: seq<ProofNode>, last: ProofNode)
    requires IsTree(h, levels) && k < |levels| && Fold(h, cur, before + [last]) in levels[k]
    requires FoldIsClean(h, levels, PairInputs(h, cur, before + [last]))
    ensures k >= 1 && Fold(h, cur, before) in levels[k - 1] && FoldIsClean(h, levels, PairInputs(h, cur, before))
  {
    var inputs, fewer := PairInputs(h, cur, before + [last]), PairInputs(h, cur, before);
    var pair := PairAt(Fold(h, cur, before), last);
    FoldLast(h, cur, before, last);
    assert pair in inputs && h.pair(pair.0, pair.1) == Step(h, Fold(h, cur, before), last);
    assert k >= 1;
    OwnChildren(h, levels, k, pair, inputs);
    assert fewer + TreePairs(levels) <= inputs + TreePairs(levels);
  }

  lemma LevelsAreATree(h: Hasher, level: seq<Digest>)
    requires level != []
    ensures IsTree(h, Levels(h, level))
  {
    var levels := Levels(h, level);
    forall k | 0 <= k < |levels| - 1 ensures levels[k + 1] == NextLevel(h, levels[k]) {
      LevelsStep(h, level, k);
    }
  }

  /** What is checked of a proof against a tree tells its data apart: the fold is clean, the data's digest is made by no
      pair of the tree, and it collides with no leaf's. */
  predicate TellsApart(h: Hasher, leaves: seq<seq<byte>>, data: seq<byte>, proof: seq<ProofNode>)
    requires leaves != []
  {
    var levels := TreeOf(h, leaves).levels;
    && FoldIsClean(h, levels, PairInputs(h, HashLeaf(h, data), proof))
    && (forall x | x in TreePairs(levels) :: h.pair(x.0, x.1) != HashLeaf(h, data))
    && forall leaf | leaf in leaves && HashLeaf(h, leaf) == HashLeaf(h, data) :: LeafInput(leaf) == LeafInput(data)
  }

  /** Membership: whatever the sides and the length of a proof, data that verifies against a committed root is one of
      the
      leaves, up to trailing zero bytes. */
  lemma AnyProofIsOfALeaf(h: Hasher, leaves: seq<seq<byte>>, data: seq<byte>, proof: seq<ProofNode>)
    requires leaves != [] && Accepts(h, data, proof, RootOf(TreeOf(h, leaves).levels))
      && TellsApart(h, leaves, data, proof)
    ensures exists leaf | leaf in leaves :: Trim(leaf) == Trim(data)
  {
    var levels, d := TreeOf(h, leaves).levels, HashLeaf(h, data);
    var top := |levels| - 1;
    LevelsAreATree(h, LeafLevel(h, leaves));
    var k := FoldDescends(h, levels, top, d, proof);
    if k > 0 {
      NodesAreMade(h, levels, k, d);
    }
    var j :| 0 <= j < |leaves| && LeafLevel(h, leaves)[j] == d;
    assert leaves[j] in leaves && HashLeaf(h, leaves[j]) == d;
    assert LeafInput(data)[1..] == BeltsOf(data) && LeafInput(leaves[j])[1..] == BeltsOf(leaves[j]);
    BeltsIdentifyAtoms(leaves[j], data);
  }

  lemma NodesAreMade(h: Hasher, levels: seq<seq<Digest>>, k: nat, d: Digest)
    requires IsTree(h, levels) && 1 <= k < |levels| && d in levels[k]
    ensures exists x | x in TreePairs(levels) :: h.pair(x.0, x.1) == d
  {
    var below := levels[k - 1];
    assert levels[k] == NextLevel(h, below);
    var j :| 0 <= j < |levels[k]| && levels[k][j] == d;
    assert 2 * j < |below|;
    assert (below[2 * j], RightChild(below, j)) in TreePairs(levels);
  }

  /** But a root does not bind the number of leaves: an odd number of them, more than one, and the same with the last
      one
      repeated have one root, whatever the hash. */
  lemma RootAlias(h: Hasher, leaves: seq<seq<byte>>)
    requires |leaves| > 1 && |leaves| % 2 == 1
    ensures RootOf(TreeOf(h, leaves + [leaves[|leaves| - 1]]).levels) == RootOf(TreeOf(h, leaves).levels)
  {
    var longer := leaves + [leaves[|leaves| - 1]];
    var a, b := LeafLevel(h, leaves), LeafLevel(h, longer);
    assert NextLevel(h, a) == NextLevel(h, b);
    StoredTree(h, leaves, 0);
    StoredTree(h, longer, 0);
  }
}
