/** Lock roots, and the proof that a spend condition is a branch of a lock. */
module LockProof {
  import opened Wrappers
  import opened Field
  import opened Locks

  /** The tx-engine's hashes, left abstract. */
  datatype LockHasher = LockHasher(pair: (Digest, Digest) -> Digest, leafAtom: nat -> Digest,
                                   condition: SpendCondition -> Digest)

  datatype MerkleProof = MerkleProof(root: Digest, path: seq<Digest>)

  /** `full` says which of the two proof forms this is; the stub form is for one-branch locks. */
  datatype LockMerkleProof = LockMerkleProof(full: bool, condition: SpendCondition, axis: nat, proof: MerkleProof)

  datatype ProofError = NoSuchBranch | BeforeBythos

  // ----- Locks as perfect trees

  function Depth(lock: Lock): nat {
    match lock
    case Branch(_) => 0
    case Fork(p, _) => 1 + Depth(p)
  }

  /** The chain's locks have 1, 2, 4, 8 or 16 branches; any power of two is allowed here. */
  predicate Perfect(lock: Lock) {
    lock.Fork? ==> Perfect(lock.p) && Perfect(lock.q) && Depth(lock.p) == Depth(lock.q)
  }

  function TreeHash(h: LockHasher, lock: Lock): Digest {
    match lock
    case Branch(condition) => h.condition(condition)
    case Fork(p, q) => h.pair(TreeHash(h, p), TreeHash(h, q))
  }

  /** A bare condition's root is its hash; otherwise the branch count is hashed beside the tree. */
  function LockRoot(h: LockHasher, lock: Lock): Digest {
    if lock.Branch? then TreeHash(h, lock) else h.pair(h.leafAtom(|Flatten(lock)|), TreeHash(h, lock))
  }

  lemma {:induction false} BranchCount(lock: Lock)
    requires Perfect(lock)
    ensures |Flatten(lock)| == Pow2(Depth(lock))
  {
    if lock.Fork? {
      BranchCount(lock.p);
      BranchCount(lock.q);
    }
  }

  // ----- Folding by axis parity

  /** A node at an even axis is a left child, at an odd one a right child. */
  function Meet(h: LockHasher, axis: nat, acc: Digest, sibling: Digest): Digest {
    if axis % 2 == 0 then h.pair(acc, sibling) else h.pair(sibling, acc)
  }

  /** Folds a digest up a path; the axis says on which side each sibling stands, and must be spent with
      the path. */
  function FoldAxis(h: LockHasher, axis: nat, acc: Digest, path: seq<Digest>): Option<Digest>
    decreases axis
  {
    if axis == 0 then None
    else if axis == 1 then (if path == [] then Some(acc) else None)
    else if path == [] then None
    else FoldAxis(h, axis / 2, Meet(h, axis, acc, path[0]), path[1..])
  }

  predicate Verifies(h: LockHasher, leaf: Digest, axis: nat, proof: MerkleProof) {
    FoldAxis(h, axis, leaf, proof.path) == Some(proof.root)
  }

  method VerifyMerkProof(h: LockHasher, leaf: Digest, axis: nat, proof: MerkleProof) returns (ok: bool)
    ensures ok <==> Verifies(h, leaf, axis, proof)
  {
    if axis == 0 {
      return false;
    }
    var a, acc, next: nat := axis, leaf, 0;
    while a != 1
      invariant a >= 1 && next <= |proof.path|
      invariant FoldAxis(h, a, acc, proof.path[next..]) == FoldAxis(h, axis, leaf, proof.path)
      decreases a
    {
      if next == |proof.path| {
        return false;
      }
      var sib := proof.path[next];
      assert proof.path[next..][1..] == proof.path[next + 1..];
      if a % 2 == 0 {
        acc := h.pair(acc, sib);
        a := a / 2;
      } else {
        acc := h.pair(sib, acc);
        a := (a - 1) / 2;
      }
      next := next + 1;
    }
    return acc == proof.root && next == |proof.path|;
  }

  // ----- Building a proof, level by level

  function Sibling(i: nat): nat {
    if i % 2 == 0 then i + 1 else i - 1
  }

  function Halve(h: LockHasher, level: seq<Digest>): (r: seq<Digest>)
    ensures |r| == |level| / 2
    decreases |level|
  {
    if |level| < 2 then [] else [h.pair(level[0], level[1])] + Halve(h, level[2..])
  }

  function ConditionHashes(h: LockHasher, branches: seq<SpendCondition>): (r: seq<Digest>)
    ensures |r| == |branches|
  {
    if branches == [] then [] else [h.condition(branches[0])] + ConditionHashes(h, branches[1..])
  }

  /** The siblings of branch `k` (from 0) read off the tree itself, from the top down. */
  function TreePath(h: LockHasher, lock: Lock, k: nat): (r: seq<Digest>)
    requires Perfect(lock) && k < Pow2(Depth(lock))
    ensures |r| == Depth(lock)
  {
    match lock
    case Branch(_) => []
    case Fork(p, q) =>
      var half := Pow2(Depth(p));
      if k < half then TreePath(h, p, k) + [TreeHash(h, q)] else TreePath(h, q, k - half) + [TreeHash(h, p)]
  }

  /** The hashes of all subtrees of height `j`, from left to right. */
  function Row(h: LockHasher, lock: Lock, j: nat): (r: seq<Digest>)
    requires Perfect(lock) && j <= Depth(lock)
    ensures |r| == Pow2(Depth(lock) - j)
  {
    if j == Depth(lock) then [TreeHash(h, lock)] else Row(h, lock.p, j) + Row(h, lock.q, j)
  }

  lemma {:induction false} HashesConcat(h: LockHasher, a: seq<SpendCondition>, b: seq<SpendCondition>)
    ensures ConditionHashes(h, a + b) == ConditionHashes(h, a) + ConditionHashes(h, b)
  {
    if a == [] {
      assert a + b == b;
    } else {
      HashesConcat(h, a[1..], b);
      assert (a + b)[1..] == a[1..] + b;
    }
  }

  lemma {:induction false} BottomRow(h: LockHasher, lock: Lock)
    requires Perfect(lock)
    ensures Row(h, lock, 0) == ConditionHashes(h, Flatten(lock))
  {
    if lock.Fork? {
      BottomRow(h, lock.p);
      BottomRow(h, lock.q);
      HashesConcat(h, Flatten(lock.p), Flatten(lock.q));
    }
  }

  lemma {:induction false} HalveConcat(h: LockHasher, a: seq<Digest>, b: seq<Digest>)
    requires |a| % 2 == 0
    ensures Halve(h, a + b) == Halve(h, a) + Halve(h, b)
    decreases |a|
  {
    if a == [] {
      assert a + b == b;
    } else {
      HalveConcat(h, a[2..], b);
      assert (a + b)[2..] == a[2..] + b;
    }
  }

  /** Hashing a row in pairs gives the row above. */
  lemma {:induction false} HalveRow(h: LockHasher, lock: Lock, j: nat)
    requires Perfect(lock) && j < Depth(lock)
    ensures Halve(h, Row(h, lock, j)) == Row(h, lock, j + 1)
  {
    if j + 1 < Depth(lock) {
      HalveRow(h, lock.p, j);
      HalveRow(h, lock.q, j);
      HalveConcat(h, Row(h, lock.p, j), Row(h, lock.q, j));
    }
  }

  /** The position after halving `j` times. */
  function Up(k: nat, j: nat): nat {
    if j == 0 then k else Up(k, j - 1) / 2
  }

  lemma {:induction false} UpShift(k: nat, n: nat, j: nat)
    requires j <= n
    ensures Up(k + Pow2(n), j) == Up(k, j) + Pow2(n - j)
  {
    if j > 0 {
      UpShift(k, n, j - 1);
    }
  }

  lemma {:induction false} UpBound(k: nat, n: nat, j: nat)
    requires j <= n && k < Pow2(n)
    ensures Up(k, j) < Pow2(n - j)
  {
    if j > 0 {
      UpBound(k, n, j - 1);
    }
  }

  /** The sibling that the level loop takes at round `j` is the one the tree gives. */
  predicate RowGives(h: LockHasher, lock: Lock, k: nat, j: nat, i: nat)
    requires Perfect(lock) && k < Pow2(Depth(lock)) && j < Depth(lock)
  {
    i < |Row(h, lock, j)| && TreePath(h, lock, k)[j] == Row(h, lock, j)[i]
  }

  lemma RowGivesTop(h: LockHasher, lock: Lock, k: nat)
    requires Perfect(lock) && lock.Fork? && k < Pow2(Depth(lock))
    ensures RowGives(h, lock, k, Depth(lock.p), if k < Pow2(Depth(lock.p)) then 1 else 0)
  {
  }

  lemma TopPosition(k: nat, n: nat)
    requires k < 2 * Pow2(n)
    ensures Sibling(Up(k, n)) == if k < Pow2(n) then 1 else 0
  {
    if k < Pow2(n) {
      UpBound(k, n, n);
    } else {
      UpBound(k - Pow2(n), n, n);
      UpShift(k - Pow2(n), n, n);
    }
  }

  lemma RowGivesLeft(h: LockHasher, lock: Lock, k: nat, j: nat, i: nat)
    requires Perfect(lock) && lock.Fork? && k < Pow2(Depth(lock.p)) && j < Depth(lock.p)
    requires RowGives(h, lock.p, k, j, i)
    ensures RowGives(h, lock, k, j, i)
  {
  }

  lemma TreePathLeft(h: LockHasher, lock: Lock, k: nat)
    requires Perfect(lock) && lock.Fork? && k < Pow2(Depth(lock.p))
    ensures TreePath(h, lock, k) == TreePath(h, lock.p, k) + [TreeHash(h, lock.q)]
  {
  }

  lemma RowGivesRight(h: LockHasher, lock: Lock, k: nat, j: nat, i: nat)
    requires Perfect(lock) && lock.Fork? && k < Pow2(Depth(lock.p)) && j < Depth(lock.p)
    requires RowGives(h, lock.q, k, j, i)
    ensures RowGives(h, lock, k + Pow2(Depth(lock.p)), j, i + Pow2(Depth(lock.p) - j))
  {
  }

  lemma SiblingUp(k: nat, n: nat, j: nat)
    requires j < n
    ensures Sibling(Up(k + Pow2(n), j)) == Sibling(Up(k, j)) + Pow2(n - j)
  {
    UpShift(k, n, j);
    var a, b, c := Up(k + Pow2(n), j), Up(k, j), Pow2(n - j);
    assert a == b + c;
    SiblingShift(b, n - j);
  }

  lemma TreePathRight(h: LockHasher, lock: Lock, k: nat)
    requires Perfect(lock) && lock.Fork? && k < Pow2(Depth(lock.p))
    ensures k + Pow2(Depth(lock.p)) < Pow2(Depth(lock))
    ensures TreePath(h, lock, k + Pow2(Depth(lock.p))) == TreePath(h, lock.q, k) + [TreeHash(h, lock.p)]
  {
  }

  lemma SiblingShift(i: nat, n: nat)
    requires n >= 1
    ensures Sibling(i + Pow2(n)) == Sibling(i) + Pow2(n)
  {
  }

  lemma {:induction false} PathInRow(h: LockHasher, lock: Lock, k: nat, j: nat)
    requires Perfect(lock) && k < Pow2(Depth(lock)) && j < Depth(lock)
    ensures RowGives(h, lock, k, j, Sibling(Up(k, j)))
  {
    var d := Depth(lock.p);
    if j == d {
      RowGivesTop(h, lock, k);
      TopPosition(k, d);
    } else if k < Pow2(d) {
      PathInRow(h, lock.p, k, j);
      RowGivesLeft(h, lock, k, j, Sibling(Up(k, j)));
    } else {
      PathInRow(h, lock.q, k - Pow2(d), j);
      RowGivesRight(h, lock, k - Pow2(d), j, Sibling(Up(k - Pow2(d), j)));
      SiblingUp(k - Pow2(d), d, j);
    }
  }

  // ----- The path folds to the root

  /** The axis of leaf `k` of a tree whose top stands at axis `a`: a child's axis is its parent's doubled,
      and one more on the right. */
  function AxisUnder(lock: Lock, k: nat, a: nat): nat
    requires Perfect(lock) && k < Pow2(Depth(lock))
  {
    match lock
    case Branch(_) => a
    case Fork(p, q) =>
      var half := Pow2(Depth(p));
      if k < half then AxisUnder(p, k, 2 * a) else AxisUnder(q, k - half, 2 * a + 1)
  }

  /** `a` moved down `d` levels: a * 2^d. */
  function Down(a: nat, d: nat): nat {
    if d == 0 then a else Down(a, d - 1) + Down(a, d - 1)
  }

  lemma {:induction false} DownStep(a: nat, d: nat)
    ensures Down(2 * a, d) == Down(a, d + 1)
    ensures Down(2 * a + 1, d) == Down(a, d + 1) + Pow2(d)
  {
    if d > 0 {
      DownStep(a, d - 1);
    }
  }

  lemma {:induction false} DownThree(d: nat)
    ensures Down(3, d) == 3 * Pow2(d)
  {
    if d > 0 {
      DownThree(d - 1);
    }
  }

  lemma {:induction false} AxisUnderIs(lock: Lock, k: nat, a: nat)
    requires Perfect(lock) && k < Pow2(Depth(lock))
    ensures AxisUnder(lock, k, a) == Down(a, Depth(lock)) + k
  {
    if lock.Fork? {
      DownStep(a, Depth(lock.p));
      if k < Pow2(Depth(lock.p)) {
        AxisUnderIs(lock.p, k, 2 * a);
      } else {
        AxisUnderIs(lock.q, k - Pow2(Depth(lock.p)), 2 * a + 1);
      }
    }
  }

  lemma FoldLeft(h: LockHasher, a: nat, acc: Digest, sib: Digest, rest: seq<Digest>)
    requires a >= 1
    ensures FoldAxis(h, 2 * a, acc, [sib] + rest) == FoldAxis(h, a, h.pair(acc, sib), rest)
  {
    assert ([sib] + rest)[1..] == rest;
  }

  lemma FoldRight(h: LockHasher, a: nat, acc: Digest, sib: Digest, rest: seq<Digest>)
    requires a >= 1
    ensures FoldAxis(h, 2 * a + 1, acc, [sib] + rest) == FoldAxis(h, a, h.pair(sib, acc), rest)
  {
    assert ([sib] + rest)[1..] == rest;
  }

  lemma Regroup<T>(s: seq<T>, x: T, rest: seq<T>)
    ensures s + [x] + rest == s + ([x] + rest)
  {
  }

  /** The path of branch `k` takes its digest from its axis to the tree's hash at axis `a`. */
  predicate FoldsTo(h: LockHasher, lock: Lock, k: nat, a: nat, rest: seq<Digest>)
    requires Perfect(lock) && k < |Flatten(lock)| == Pow2(Depth(lock))
  {
    FoldAxis(h, AxisUnder(lock, k, a), h.condition(Flatten(lock)[k]), TreePath(h, lock, k) + rest)
    == FoldAxis(h, a, TreeHash(h, lock), rest)
  }

  lemma JoinLeft(h: LockHasher, axis: nat, leaf: Digest, path: seq<Digest>, a: nat, acc: Digest, sib: Digest,
                 rest: seq<Digest>)
    requires a >= 1 && FoldAxis(h, axis, leaf, path + ([sib] + rest)) == FoldAxis(h, 2 * a, acc, [sib] + rest)
    ensures FoldAxis(h, axis, leaf, path + [sib] + rest) == FoldAxis(h, a, h.pair(acc, sib), rest)
  {
    Regroup(path, sib, rest);
    FoldLeft(h, a, acc, sib, rest);
  }

  lemma JoinRight(h: LockHasher, axis: nat, leaf: Digest, path: seq<Digest>, a: nat, acc: Digest, sib: Digest,
                  rest: seq<Digest>)
    requires a >= 1 && FoldAxis(h, axis, leaf, path + ([sib] + rest)) == FoldAxis(h, 2 * a + 1, acc, [sib] + rest)
    ensures FoldAxis(h, axis, leaf, path + [sib] + rest) == FoldAxis(h, a, h.pair(sib, acc), rest)
  {
    Regroup(path, sib, rest);
    FoldRight(h, a, acc, sib, rest);
  }

  lemma FoldsToLeft(h: LockHasher, lock: Lock, k: nat, a: nat, rest: seq<Digest>)
    requires Perfect(lock) && lock.Fork? && a >= 1 && |Flatten(lock)| == Pow2(Depth(lock))
    requires k < |Flatten(lock.p)| == Pow2(Depth(lock.p))
    requires FoldsTo(h, lock.p, k, 2 * a, [TreeHash(h, lock.q)] + rest)
    ensures FoldsTo(h, lock, k, a, rest)
  {
    TreePathLeft(h, lock, k);
    assert Flatten(lock)[k] == Flatten(lock.p)[k] && AxisUnder(lock, k, a) == AxisUnder(lock.p, k, 2 * a);
    JoinLeft(h, AxisUnder(lock.p, k, 2 * a), h.condition(Flatten(lock.p)[k]), TreePath(h, lock.p, k), a,
             TreeHash(h, lock.p), TreeHash(h, lock.q), rest);
  }

  lemma FoldsToRight(h: LockHasher, lock: Lock, k: nat, a: nat, rest: seq<Digest>)
    requires Perfect(lock) && lock.Fork? && a >= 1 && |Flatten(lock)| == Pow2(Depth(lock))
    requires k < |Flatten(lock.q)| == Pow2(Depth(lock.q)) && |Flatten(lock.p)| == Pow2(Depth(lock.p))
    requires FoldsTo(h, lock.q, k, 2 * a + 1, [TreeHash(h, lock.p)] + rest)
    ensures FoldsTo(h, lock, k + Pow2(Depth(lock.p)), a, rest)
  {
    var half := Pow2(Depth(lock.p));
    TreePathRight(h, lock, k);
    assert Flatten(lock)[k + half] == Flatten(lock.q)[k];
    assert AxisUnder(lock, k + half, a) == AxisUnder(lock.q, k, 2 * a + 1);
    JoinRight(h, AxisUnder(lock.q, k, 2 * a + 1), h.condition(Flatten(lock.q)[k]), TreePath(h, lock.q, k), a,
              TreeHash(h, lock.q), TreeHash(h, lock.p), rest);
  }

  lemma {:induction false} FoldTree(h: LockHasher, lock: Lock, k: nat, a: nat, rest: seq<Digest>)
    requires Perfect(lock) && k < |Flatten(lock)| == Pow2(Depth(lock)) && a >= 1
    ensures FoldsTo(h, lock, k, a, rest)
  {
    match lock
    case Branch(_) =>
      assert TreePath(h, lock, k) + rest == rest;
    case Fork(p, q) =>
      BranchCount(p);
      BranchCount(q);
      var half := Pow2(Depth(p));
      if k < half {
        FoldTree(h, p, k, 2 * a, [TreeHash(h, q)] + rest);
        FoldsToLeft(h, lock, k, a, rest);
      } else {
        FoldTree(h, q, k - half, 2 * a + 1, [TreeHash(h, p)] + rest);
        FoldsToRight(h, lock, k - half, a, rest);
      }
  }

  /** Axis and path of branch `k` (from 0): the arity tag is the last sibling. */
  function BranchAxis(lock: Lock, k: nat): nat {
    if lock.Branch? then 1 else 3 * |Flatten(lock)| + k
  }

  function BranchPath(h: LockHasher, lock: Lock, k: nat): seq<Digest>
    requires Perfect(lock) && k < Pow2(Depth(lock))
  {
    if lock.Branch? then [] else TreePath(h, lock, k) + [h.leafAtom(|Flatten(lock)|)]
  }

  /** The last step of every fold: the arity tag stands on the left of the tree. */
  lemma FoldTag(h: LockHasher, tree: Digest, tag: Digest)
    ensures FoldAxis(h, 3, tree, [tag]) == Some(h.pair(tag, tree))
  {
    assert [tag][1..] == [];
  }

  lemma ForkFolds(h: LockHasher, lock: Lock, k: nat)
    requires Perfect(lock) && lock.Fork? && k < |Flatten(lock)| == Pow2(Depth(lock))
    ensures FoldAxis(h, BranchAxis(lock, k), h.condition(Flatten(lock)[k]), BranchPath(h, lock, k))
      == Some(LockRoot(h, lock))
  {
    var tag := h.leafAtom(|Flatten(lock)|);
    AxisUnderIs(lock, k, 3);
    DownThree(Depth(lock));
    assert BranchAxis(lock, k) == AxisUnder(lock, k, 3);
    FoldTree(h, lock, k, 3, [tag]);
    FoldTag(h, TreeHash(h, lock), tag);
  }

  lemma BareFolds(h: LockHasher, lock: Lock)
    requires lock.Branch?
    ensures FoldAxis(h, 1, h.condition(Flatten(lock)[0]), []) == Some(LockRoot(h, lock))
  {
  }

  /** The proof of branch `k` that the chain expects. */
  function BranchProof(h: LockHasher, lock: Lock, k: nat): MerkleProof
    requires Perfect(lock) && k < Pow2(Depth(lock))
  {
    MerkleProof(LockRoot(h, lock), BranchPath(h, lock, k))
  }

  /** Every branch of every lock folds to the lock root from axis 3N + k along log2(N) + 1 siblings. */
  lemma BranchFolds(h: LockHasher, lock: Lock, k: nat)
    requires Perfect(lock) && k < Pow2(Depth(lock))
    ensures |Flatten(lock)| == Pow2(Depth(lock))
    ensures |BranchPath(h, lock, k)| == if lock.Branch? then 0 else Depth(lock) + 1
    ensures Verifies(h, h.condition(Flatten(lock)[k]), BranchAxis(lock, k), BranchProof(h, lock, k))
  {
    BranchCount(lock);
    PathFolds(h, lock, k);
    var proof := BranchProof(h, lock, k);
    assert proof.root == LockRoot(h, lock) && proof.path == BranchPath(h, lock, k);
  }

  lemma PathFolds(h: LockHasher, lock: Lock, k: nat)
    requires Perfect(lock) && k < |Flatten(lock)| == Pow2(Depth(lock))
    ensures FoldAxis(h, BranchAxis(lock, k), h.condition(Flatten(lock)[k]), BranchPath(h, lock, k))
      == Some(LockRoot(h, lock))
  {
    if lock.Branch? {
      BareFolds(h, lock);
      assert BranchAxis(lock, k) == 1 && BranchPath(h, lock, k) == [] && k == 0;
    } else {
      ForkFolds(h, lock, k);
    }
  }

  predicate PowerOf2(n: nat) {
    n == 1 || (n >= 2 && n % 2 == 0 && PowerOf2(n / 2))
  }

  lemma {:induction false} Pow2IsPowerOf2(n: nat)
    ensures PowerOf2(Pow2(n))
  {
    if n > 0 {
      Pow2IsPowerOf2(n - 1);
    }
  }

  lemma SiblingInside(index: nat, size: nat)
    requires index < size && size % 2 == 0
    ensures Sibling(index) < size && index / 2 < size / 2
  {
  }

  /** What the level loop of `lock_merkle_proof` collects from one level on. */
  function LevelPath(h: LockHasher, level: seq<Digest>, index: nat): seq<Digest>
    requires index < |level| && PowerOf2(|level|)
    decreases |level|
  {
    if |level| == 1 then [] else
      SiblingInside(index, |level|);
      [level[Sibling(index)]] + LevelPath(h, Halve(h, level), index / 2)
  }

  /** The level loop: take the sibling, hash the level in pairs, move up. */
  method PathByLevels(h: LockHasher, branches: seq<SpendCondition>, branch: nat) returns (path: seq<Digest>)
    requires branch < |branches| && PowerOf2(|branches|)
    ensures path == LevelPath(h, ConditionHashes(h, branches), branch)
  {
    var level := ConditionHashes(h, branches);
    var index: nat := branch;
    ghost var whole := LevelPath(h, level, index);
    path := [];
    while |level| > 1
      invariant index < |level| && PowerOf2(|level|)
      invariant path + LevelPath(h, level, index) == whole
      decreases |level|
    {
      SiblingInside(index, |level|);
      var sibling, above, up := level[Sibling(index)], Halve(h, level), index / 2;
      assert path + ([sibling] + LevelPath(h, above, up)) == path + [sibling] + LevelPath(h, above, up);
      path, level, index := path + [sibling], above, up;
    }
  }

  /** From level `j` on the loop collects the rest of the path read off the tree. */
  predicate LevelAgrees(h: LockHasher, lock: Lock, k: nat, j: nat)
    requires Perfect(lock) && k < Pow2(Depth(lock)) && j <= Depth(lock)
  {
    && Up(k, j) < |Row(h, lock, j)| && PowerOf2(|Row(h, lock, j)|)
    && LevelPath(h, Row(h, lock, j), Up(k, j)) == TreePath(h, lock, k)[j..]
  }

  lemma TopAgrees(h: LockHasher, lock: Lock, k: nat, j: nat)
    requires Perfect(lock) && k < Pow2(Depth(lock)) && j == Depth(lock)
    ensures LevelAgrees(h, lock, k, j)
  {
    UpBound(k, Depth(lock), j);
    assert Row(h, lock, j) == [TreeHash(h, lock)];
    assert TreePath(h, lock, k)[j..] == [];
  }

  lemma RowAbove(h: LockHasher, lock: Lock, k: nat, j: nat)
    requires Perfect(lock) && k < Pow2(Depth(lock)) && j < Depth(lock)
    ensures Up(k, j) < |Row(h, lock, j)| && |Row(h, lock, j)| > 1 && PowerOf2(|Row(h, lock, j)|)
    ensures Halve(h, Row(h, lock, j)) == Row(h, lock, j + 1) && Up(k, j) / 2 == Up(k, j + 1)
  {
    UpBound(k, Depth(lock), j);
    Pow2IsPowerOf2(Depth(lock) - j);
    HalveRow(h, lock, j);
  }

  lemma AgreeStep(h: LockHasher, lock: Lock, k: nat, j: nat)
    requires Perfect(lock) && k < Pow2(Depth(lock)) && j < Depth(lock) && LevelAgrees(h, lock, k, j + 1)
    ensures LevelAgrees(h, lock, k, j)
  {
    RowAbove(h, lock, k, j);
    PathInRow(h, lock, k, j);
    LevelPathStep(h, Row(h, lock, j), Up(k, j), TreePath(h, lock, k), j, Row(h, lock, j + 1));
  }

  lemma LevelPathUnfold(h: LockHasher, level: seq<Digest>, index: nat, above: seq<Digest>)
    requires index < |level| && |level| > 1 && PowerOf2(|level|) && above == Halve(h, level)
    ensures PowerOf2(|above|) && Sibling(index) < |level| && index / 2 < |above|
    ensures LevelPath(h, level, index) == [level[Sibling(index)]] + LevelPath(h, above, index / 2)
  {
    SiblingInside(index, |level|);
  }

  lemma LevelPathStep(h: LockHasher, level: seq<Digest>, index: nat, path: seq<Digest>, j: nat, above: seq<Digest>)
    requires index < |level| && |level| > 1 && PowerOf2(|level|) && above == Halve(h, level)
    requires j < |path| && Sibling(index) < |level| && path[j] == level[Sibling(index)]
    requires index / 2 < |above| && PowerOf2(|above|) && LevelPath(h, above, index / 2) == path[j + 1..]
    ensures LevelPath(h, level, index) == path[j..]
  {
    LevelPathUnfold(h, level, index, above);
    TailSplits(path, j);
  }

  lemma TailSplits<T>(s: seq<T>, j: nat)
    requires j < |s|
    ensures s[j..] == [s[j]] + s[j + 1..]
  {
  }

  /** The level loop, which knows only one level at a time, reads the same path as the tree. */
  lemma {:induction false} LevelsAgree(h: LockHasher, lock: Lock, k: nat, j: nat)
    requires Perfect(lock) && k < Pow2(Depth(lock)) && j <= Depth(lock)
    ensures LevelAgrees(h, lock, k, j)
    decreases Depth(lock) - j
  {
    if j == Depth(lock) {
      TopAgrees(h, lock, k, j);
    } else {
      LevelsAgree(h, lock, k, j + 1);
      AgreeStep(h, lock, k, j);
    }
  }

  function LockProofOf(h: LockHasher, lock: Lock, leafNumber: nat, height: nat, bythos: nat)
    : Result<LockMerkleProof, ProofError>
    requires Perfect(lock)
  {
    if !(1 <= leafNumber <= |Flatten(lock)|) then Failure(NoSuchBranch)
    else if lock.Fork? && height < bythos then Failure(BeforeBythos)
    else
      BranchCount(lock);
      Success(LockMerkleProof(height >= bythos, Flatten(lock)[leafNumber - 1], BranchAxis(lock, leafNumber - 1),
                              BranchProof(h, lock, leafNumber - 1)))
  }

  /** `lock_merkle_proof`: the self-check at the end never fails. */
  method BuildLockProof(h: LockHasher, lock: Lock, leafNumber: nat, height: nat, bythos: nat)
    returns (r: Result<LockMerkleProof, ProofError>)
    requires Perfect(lock)
    ensures r == LockProofOf(h, lock, leafNumber, height, bythos)
    ensures r == Failure(NoSuchBranch) <==> leafNumber < 1 || leafNumber > |Flatten(lock)|
    ensures r == Failure(BeforeBythos) <==> 1 <= leafNumber <= |Flatten(lock)| && |Flatten(lock)| > 1 && height < bythos
    ensures r.Success? ==> 1 <= leafNumber <= |Flatten(lock)| && Written(h, lock, leafNumber, height, bythos, r.value)
  {
    ProofWritten(h, lock, leafNumber, height, bythos);
    var branches := Flatten(lock);
    if leafNumber < 1 || leafNumber > |branches| {
      return Failure(NoSuchBranch);
    }
    ForkHasMany(lock);
    if |branches| != 1 && height < bythos {
      return Failure(BeforeBythos);
    }
    BranchCount(lock);
    var k: nat := leafNumber - 1;
    var axis, path := AxisAndPath(h, lock, k);
    var proof := MerkleProof(LockRoot(h, lock), path);
    BranchFolds(h, lock, k);
    var folds := VerifyMerkProof(h, h.condition(branches[k]), axis, proof);
    if !folds {
      assert false;
    }
    return Success(LockMerkleProof(height >= bythos, branches[k], axis, proof));
  }

  /** The level loop's path with the arity tag at its end; the trivial one for a single branch. */
  method AxisAndPath(h: LockHasher, lock: Lock, k: nat) returns (axis: nat, path: seq<Digest>)
    requires Perfect(lock) && k < |Flatten(lock)| == Pow2(Depth(lock))
    ensures axis == BranchAxis(lock, k) && path == BranchPath(h, lock, k)
  {
    var branches := Flatten(lock);
    ForkHasMany(lock);
    axis, path := 1, [];
    if |branches| != 1 {
      PathsAgree(h, lock, k);
      path := PathByLevels(h, branches, k);
      path := path + [h.leafAtom(|branches|)];
      axis := 3 * |branches| + k;
    }
  }

  /** The proof written out: its axis, its length, and the arity tag at its end. */
  lemma {:induction false} ProofWritten(h: LockHasher, lock: Lock, leafNumber: nat, height: nat, bythos: nat)
    requires Perfect(lock)
    ensures var r := LockProofOf(h, lock, leafNumber, height, bythos);
            && (r == Failure(NoSuchBranch) <==> leafNumber < 1 || leafNumber > |Flatten(lock)|)
            && (r == Failure(BeforeBythos) <==>
                  1 <= leafNumber <= |Flatten(lock)| && |Flatten(lock)| > 1 && height < bythos)
            && (r.Success? ==> Written(h, lock, leafNumber, height, bythos, r.value))
  {
    ForkHasMany(lock);
    if 1 <= leafNumber <= |Flatten(lock)| {
      var k: nat := leafNumber - 1;
      BranchCount(lock);
      BranchFolds(h, lock, k);
    }
  }

  /** Branch, form, root, axis 3N + (k - 1), log2(N) siblings and the arity tag; axis 1 and no path for one branch. */
  predicate Written(h: LockHasher, lock: Lock, leafNumber: nat, height: nat, bythos: nat, lmp: LockMerkleProof)
    requires 1 <= leafNumber <= |Flatten(lock)|
  {
    var n, path := |Flatten(lock)|, lmp.proof.path;
    && lmp.condition == Flatten(lock)[leafNumber - 1]
    && (lmp.full <==> height >= bythos)
    && lmp.proof.root == LockRoot(h, lock)
    && Verifies(h, h.condition(Flatten(lock)[leafNumber - 1]), lmp.axis, lmp.proof)
    && (n == 1 ==> lmp.axis == 1 && path == [])
    && (n > 1 ==> lmp.axis == 3 * n + (leafNumber - 1) && |path| >= 1 && Pow2(|path| - 1) == n
                  && path[|path| - 1] == h.leafAtom(n))
  }

  /** The roots of the smaller locks, written out: the branch count is hashed on the left of the tree. */
  lemma {:induction false} SmallRoots(h: LockHasher, a: SpendCondition, b: SpendCondition, c: SpendCondition,
                                      d: SpendCondition)
    ensures LockRoot(h, Branch(a)) == h.condition(a)
    ensures LockRoot(h, Two(a, b)) == h.pair(h.leafAtom(2), h.pair(h.condition(a), h.condition(b)))
    ensures LockRoot(h, Four(a, b, c, d))
         == h.pair(h.leafAtom(4),
             h.pair(h.pair(h.condition(a), h.condition(b)), h.pair(h.condition(c), h.condition(d))))
  {
    FlattenTwo(a, b);
    FlattenFour(a, b, c, d);
    assert TreeHash(h, Two(a, b)) == h.pair(TreeHash(h, Branch(a)), TreeHash(h, Branch(b)));
    assert TreeHash(h, Two(c, d)) == h.pair(TreeHash(h, Branch(c)), TreeHash(h, Branch(d)));
    assert TreeHash(h, Four(a, b, c, d)) == h.pair(TreeHash(h, Two(a, b)), TreeHash(h, Two(c, d)));
  }

  lemma PathsAgree(h: LockHasher, lock: Lock, k: nat)
    requires Perfect(lock) && k < |Flatten(lock)| == Pow2(Depth(lock))
    ensures PowerOf2(|Flatten(lock)|)
    ensures LevelPath(h, ConditionHashes(h, Flatten(lock)), k) == TreePath(h, lock, k)
  {
    var bottom: nat := 0;
    BottomRow(h, lock);
    Pow2IsPowerOf2(Depth(lock));
    LevelsAgree(h, lock, k, bottom);
    assert Up(k, bottom) == k;
  }

  lemma ForkHasMany(lock: Lock)
    ensures lock.Branch? <==> |Flatten(lock)| == 1
  {
  }

  // ----- Binding

  function FoldInputs(h: LockHasher, axis: nat, acc: Digest, path: seq<Digest>): set<(Digest, Digest)>
    decreases axis
  {
    if axis <= 1 || path == [] then {}
    else {if axis % 2 == 0 then (acc, path[0]) else (path[0], acc)}
         + FoldInputs(h, axis / 2, Meet(h, axis, acc, path[0]), path[1..])
  }

  predicate NoPairCollision(h: LockHasher, inputs: set<(Digest, Digest)>) {
    forall x, y | x in inputs && y in inputs && h.pair(x.0, x.1) == h.pair(y.0, y.1) :: x == y
  }

  /** One axis and one root admit one leaf digest and one path, unless the pairs these two folds hash
      collide. */
  lemma {:induction false} AxisBinding(h: LockHasher, axis: nat, a: Digest, p: seq<Digest>, b: Digest, q: seq<Digest>)
    requires FoldAxis(h, axis, a, p).Some? && FoldAxis(h, axis, a, p) == FoldAxis(h, axis, b, q)
    requires NoPairCollision(h, FoldInputs(h, axis, a, p) + FoldInputs(h, axis, b, q))
    ensures a == b && p == q
    decreases axis
  {
    if axis > 1 {
      var up, x, y := axis / 2, Meet(h, axis, a, p[0]), Meet(h, axis, b, q[0]);
      assert FoldInputs(h, up, x, p[1..]) <= FoldInputs(h, axis, a, p);
      assert FoldInputs(h, up, y, q[1..]) <= FoldInputs(h, axis, b, q);
      AxisBinding(h, up, x, p[1..], y, q[1..]);
      assert p == [p[0]] + p[1..] && q == [q[0]] + q[1..];
    }
  }

  /** So at branch `k`'s axis nothing verifies against the lock but branch `k`'s own digest, along its own
      path. */
  lemma OnlyItsBranch(h: LockHasher, lock: Lock, k: nat, leaf: Digest, path: seq<Digest>)
    requires Perfect(lock) && k < |Flatten(lock)| == Pow2(Depth(lock))
    requires Verifies(h, leaf, BranchAxis(lock, k), MerkleProof(LockRoot(h, lock), path))
    requires NoPairCollision(h, FoldInputs(h, BranchAxis(lock, k), leaf, path)
               + FoldInputs(h, BranchAxis(lock, k), h.condition(Flatten(lock)[k]), BranchPath(h, lock, k)))
    ensures leaf == h.condition(Flatten(lock)[k]) && path == BranchPath(h, lock, k)
  {
    BranchFolds(h, lock, k);
    AxisBinding(h, BranchAxis(lock, k), leaf, path, h.condition(Flatten(lock)[k]), BranchPath(h, lock, k));
  }

  // ----- Roots bind locks

  /** The pairs hashed inside a lock's tree. */
  function TreePairs(h: LockHasher, lock: Lock): set<(Digest, Digest)> {
    if lock.Branch? then {} else
      {(TreeHash(h, lock.p), TreeHash(h, lock.q))} + TreePairs(h, lock.p) + TreePairs(h, lock.q)
  }

  /** The pairs hashed on the way to a lock's root: the arity tag stands beside the tree. */
  function RootPairs(h: LockHasher, lock: Lock): set<(Digest, Digest)> {
    if lock.Branch? then {} else {(h.leafAtom(|Flatten(lock)|), TreeHash(h, lock))} + TreePairs(h, lock)
  }

  /** No condition of the one lock collides with a condition of the other. */
  predicate NoConditionCollision(h: LockHasher, a: seq<SpendCondition>, b: seq<SpendCondition>) {
    forall c, d | c in a && d in b && h.condition(c) == h.condition(d) :: c == d
  }

  /** Trees of one depth and one hash are one tree. */
  lemma {:induction false} TreeBinding(h: LockHasher, a: Lock, b: Lock)
    requires Perfect(a) && Perfect(b) && Depth(a) == Depth(b) && TreeHash(h, a) == TreeHash(h, b)
    requires NoPairCollision(h, TreePairs(h, a) + TreePairs(h, b)) && NoConditionCollision(h, Flatten(a), Flatten(b))
    ensures a == b
  {
    if a.Fork? {
      TreeBinding(h, a.p, b.p);
      TreeBinding(h, a.q, b.q);
    } else {
      assert a.condition in Flatten(a) && b.condition in Flatten(b);
    }
  }

  /** Locks of several branches with one root are one lock, unless the pairs, arity tags or conditions hashed to make
      the two roots collide. */
  lemma RootBinding(h: LockHasher, a: Lock, b: Lock)
    requires Perfect(a) && Perfect(b) && a.Fork? && b.Fork? && LockRoot(h, a) == LockRoot(h, b)
    requires NoPairCollision(h, RootPairs(h, a) + RootPairs(h, b)) && NoConditionCollision(h, Flatten(a), Flatten(b))
    requires h.leafAtom(|Flatten(a)|) == h.leafAtom(|Flatten(b)|) ==> |Flatten(a)| == |Flatten(b)|
    ensures a == b
  {
    RootParts(h, a, b);
    BranchCount(a);
    BranchCount(b);
    Pow2Injective(Depth(a), Depth(b));
    TreeBinding(h, a, b);
  }

  lemma RootParts(h: LockHasher, a: Lock, b: Lock)
    requires a.Fork? && b.Fork? && LockRoot(h, a) == LockRoot(h, b)
      && NoPairCollision(h, RootPairs(h, a) + RootPairs(h, b))
    ensures h.leafAtom(|Flatten(a)|) == h.leafAtom(|Flatten(b)|) && TreeHash(h, a) == TreeHash(h, b)
    ensures NoPairCollision(h, TreePairs(h, a) + TreePairs(h, b))
  {
    var x, y := (h.leafAtom(|Flatten(a)|), TreeHash(h, a)), (h.leafAtom(|Flatten(b)|), TreeHash(h, b));
    assert x in RootPairs(h, a) && y in RootPairs(h, b) && x == y;
    assert TreePairs(h, a) + TreePairs(h, b) <= RootPairs(h, a) + RootPairs(h, b);
  }

  lemma {:induction false} Pow2Injective(m: nat, n: nat)
    requires Pow2(m) == Pow2(n)
    ensures m == n
  {
    if m > 0 && n > 0 {
      Pow2Injective(m - 1, n - 1);
    }
  }

  // ----- What verifies at any axis

  /** What stands at an axis of a lock: its root, its arity tag, or a part of its tree. */
  datatype Node = Root | Tag | Part(lock: Lock)

  function NodeAt(lock: Lock, axis: nat): Option<Node> {
    if axis == 0 then None
    else if axis == 1 then Some(if lock.Branch? then Part(lock) else Root)
    else
      match NodeAt(lock, axis / 2)
      case Some(Root) => Some(if axis % 2 == 0 then Tag else Part(lock))
      case Some(Part(Fork(p, q))) => Some(Part(if axis % 2 == 0 then p else q))
      case _ => None
  }

  function NodeDigest(h: LockHasher, lock: Lock, node: Node): Digest {
    match node
    case Root => LockRoot(h, lock)
    case Tag => h.leafAtom(|Flatten(lock)|)
    case Part(part) => TreeHash(h, part)
  }

  /** A part of a tree has its pairs inside the tree's. */
  lemma {:induction false} PartPairs(h: LockHasher, lock: Lock, axis: nat)
    requires NodeAt(lock, axis).Some? && NodeAt(lock, axis).value.Part?
    ensures TreePairs(h, NodeAt(lock, axis).value.lock) <= TreePairs(h, lock)
  {
    if axis > 1 {
      var above := NodeAt(lock, axis / 2).value;
      if above.Part? {
        PartPairs(h, lock, axis / 2);
      }
    }
  }

  /** A digest that is hashed from no pair that this fold hashes: it can only be met as a leaf. */
  predicate NoPairMakes(h: LockHasher, inputs: set<(Digest, Digest)>, d: Digest) {
    forall x | x in inputs :: h.pair(x.0, x.1) != d
  }

  /** The pairs that a fold hashes collide neither with each other, nor with those of the lock, nor with its tag and
      condition digests. */
  predicate FoldIsClean(h: LockHasher, lock: Lock, axis: nat, leaf: Digest, path: seq<Digest>) {
    var inputs := FoldInputs(h, axis, leaf, path);
    && NoPairCollision(h, inputs + RootPairs(h, lock))
    && (lock.Fork? ==> NoPairMakes(h, inputs, h.leafAtom(|Flatten(lock)|)))
    && forall c | c in Flatten(lock) :: NoPairMakes(h, inputs, h.condition(c))
  }

  lemma {:induction false} PartBranches(lock: Lock, axis: nat)
    requires NodeAt(lock, axis).Some? && NodeAt(lock, axis).value.Part?
    ensures forall c | c in Flatten(NodeAt(lock, axis).value.lock) :: c in Flatten(lock)
  {
    if axis > 1 {
      var above := NodeAt(lock, axis / 2).value;
      if above.Part? {
        PartBranches(lock, axis / 2);
      }
    }
  }

  /** Whatever folds to a lock's root stands in the lock, at the axis it is folded from. */
  lemma {:induction false} AnyAxisBinding(h: LockHasher, lock: Lock, axis: nat, leaf: Digest, path: seq<Digest>)
    requires FoldAxis(h, axis, leaf, path) == Some(LockRoot(h, lock)) && FoldIsClean(h, lock, axis, leaf, path)
    ensures NodeAt(lock, axis).Some? && NodeDigest(h, lock, NodeAt(lock, axis).value) == leaf
    decreases axis
  {
    if axis > 1 {
      var pair := if axis % 2 == 0 then (leaf, path[0]) else (path[0], leaf);
      var inputs, up := FoldInputs(h, axis, leaf, path), Meet(h, axis, leaf, path[0]);
      assert pair in inputs && FoldInputs(h, axis / 2, up, path[1..]) <= inputs && h.pair(pair.0, pair.1) == up;
      AnyAxisBinding(h, lock, axis / 2, up, path[1..]);
      ChildOf(h, lock, axis, inputs, pair, leaf);
    }
  }

  /** A pair hashed to the digest of a node is that node's own pair of children. */
  lemma ChildOf(h: LockHasher, lock: Lock, axis: nat, inputs: set<(Digest, Digest)>, pair: (Digest, Digest),
                leaf: Digest)
    requires axis > 1 && NodeAt(lock, axis / 2).Some? && pair in inputs
    requires h.pair(pair.0, pair.1) == NodeDigest(h, lock, NodeAt(lock, axis / 2).value)
    requires NoPairCollision(h, inputs + RootPairs(h, lock))
    requires lock.Fork? ==> NoPairMakes(h, inputs, h.leafAtom(|Flatten(lock)|))
    requires forall c | c in Flatten(lock) :: NoPairMakes(h, inputs, h.condition(c))
    requires leaf == if axis % 2 == 0 then pair.0 else pair.1
    ensures NodeAt(lock, axis).Some? && NodeDigest(h, lock, NodeAt(lock, axis).value) == leaf
  {
    match NodeAt(lock, axis / 2).value
    case Root =>
      RootIsFork(lock, axis / 2);
      assert (h.leafAtom(|Flatten(lock)|), TreeHash(h, lock)) in RootPairs(h, lock);
    case Tag => RootIsFork(lock, axis / 2 / 2);
    case Part(part) =>
      PartBranches(lock, axis / 2);
      PartPairs(h, lock, axis / 2);
      match part {
        case Branch(condition) => assert condition in Flatten(part);
        case Fork(p, q) =>
          PartOfFork(lock, axis / 2);
          assert (TreeHash(h, p), TreeHash(h, q)) in TreePairs(h, part);
      }
  }

  lemma RootIsFork(lock: Lock, axis: nat)
    requires NodeAt(lock, axis) == Some(Root)
    ensures lock.Fork?
  {
  }

  lemma {:induction false} PartOfFork(lock: Lock, axis: nat)
    requires NodeAt(lock, axis).Some? && NodeAt(lock, axis).value.Part? && NodeAt(lock, axis).value.lock.Fork?
    ensures lock.Fork?
  {
    if axis > 1 && NodeAt(lock, axis / 2).value.Part? {
      PartOfFork(lock, axis / 2);
    }
  }

  /** Branch `k` of a part at an axis is branch `first + k` of the lock, and has one axis in both. */
  predicate SameBranch(lock: Lock, part: Lock, axis: nat, first: nat, k: nat)
    requires Perfect(lock) && Perfect(part)
  {
    && first + k < |Flatten(lock)| == Pow2(Depth(lock)) && k < |Flatten(part)| == Pow2(Depth(part))
    && Flatten(lock)[first + k] == Flatten(part)[k] && AxisUnder(lock, first + k, 3) == AxisUnder(part, k, axis)
  }

  /** The branches of a part are those of the lock from `first` on. */
  predicate PlacedAt(lock: Lock, part: Lock, axis: nat, first: nat)
    requires Perfect(lock) && Perfect(part)
  {
    forall k | 0 <= k < Pow2(Depth(part)) :: SameBranch(lock, part, axis, first, k)
  }

  lemma PlacedLeft(lock: Lock, part: Lock, axis: nat, first: nat)
    requires Perfect(lock) && Perfect(part) && part.Fork? && PlacedAt(lock, part, axis, first)
    ensures PlacedAt(lock, part.p, 2 * axis, first)
  {
    BranchCount(part.p);
    forall k | 0 <= k < Pow2(Depth(part.p)) ensures SameBranch(lock, part.p, 2 * axis, first, k) {
      assert SameBranch(lock, part, axis, first, k);
      assert Flatten(part)[k] == Flatten(part.p)[k] && AxisUnder(part, k, axis) == AxisUnder(part.p, k, 2 * axis);
    }
  }

  lemma PlacedRight(lock: Lock, part: Lock, axis: nat, first: nat, right: nat, second: nat)
    requires Perfect(lock) && Perfect(part) && part.Fork? && PlacedAt(lock, part, axis, first)
    requires right == 2 * axis + 1 && second == first + Pow2(Depth(part.p))
    ensures PlacedAt(lock, part.q, right, second)
  {
    BranchCount(part.p);
    BranchCount(part.q);
    forall k | 0 <= k < Pow2(Depth(part.q)) ensures SameBranch(lock, part.q, right, second, k) {
      var m := Pow2(Depth(part.p)) + k;
      RightBranch(part, m, k, axis);
      assert SameBranch(lock, part, axis, first, m);
      MovedRight(lock, part, axis, first, right, second, m, k);
    }
  }

  lemma MovedRight(lock: Lock, part: Lock, axis: nat, first: nat, right: nat, second: nat, m: nat, k: nat)
    requires Perfect(lock) && Perfect(part) && part.Fork? && SameBranch(lock, part, axis, first, m)
    requires first + m == second + k && k < |Flatten(part.q)| == Pow2(Depth(part.q))
    requires Flatten(part)[m] == Flatten(part.q)[k] && AxisUnder(part, m, axis) == AxisUnder(part.q, k, right)
    ensures SameBranch(lock, part.q, right, second, k)
  {
  }

  lemma RightBranch(part: Lock, m: nat, k: nat, axis: nat)
    requires Perfect(part) && part.Fork? && |Flatten(part.p)| == Pow2(Depth(part.p))
      && |Flatten(part.q)| == Pow2(Depth(part.q))
    requires k < Pow2(Depth(part.q)) && m == Pow2(Depth(part.p)) + k
    ensures m < Pow2(Depth(part)) && Flatten(part)[m] == Flatten(part.q)[k]
    ensures AxisUnder(part, m, axis) == AxisUnder(part.q, k, 2 * axis + 1)
  {
  }

  lemma {:induction false} PlaceOf(lock: Lock, axis: nat) returns (first: nat)
    requires Perfect(lock) && lock.Fork? && NodeAt(lock, axis).Some? && NodeAt(lock, axis).value.Part?
    ensures Perfect(NodeAt(lock, axis).value.lock) && PlacedAt(lock, NodeAt(lock, axis).value.lock, axis, first)
  {
    BranchCount(lock);
    var above := NodeAt(lock, axis / 2).value;
    if above.Root? {
      first := 0;
      assert axis == 3;
    } else {
      first := PlaceOf(lock, axis / 2);
      if axis % 2 == 0 {
        PlacedLeft(lock, above.lock, axis / 2, first);
      } else {
        var second := first + Pow2(Depth(above.lock.p));
        PlacedRight(lock, above.lock, axis / 2, first, axis, second);
        first := second;
      }
    }
  }

  /** A branch that stands at an axis is a branch of the lock, and the axis is its own. */
  lemma BranchAt(lock: Lock, axis: nat) returns (k: nat)
    requires Perfect(lock) && NodeAt(lock, axis).Some? && NodeAt(lock, axis).value.Part?
    requires NodeAt(lock, axis).value.lock.Branch?
    ensures k < |Flatten(lock)| && Flatten(lock)[k] == NodeAt(lock, axis).value.lock.condition
      && axis == BranchAxis(lock, k)
  {
    if lock.Branch? {
      k := 0;
      BareAxis(lock, axis);
    } else {
      k := PlaceOf(lock, axis);
      var part := NodeAt(lock, axis).value.lock;
      assert SameBranch(lock, part, axis, k, 0);
      AxisUnderIs(lock, k, 3);
      DownThree(Depth(lock));
    }
  }

  lemma {:induction false} BareAxis(lock: Lock, axis: nat)
    requires lock.Branch? && NodeAt(lock, axis).Some?
    ensures axis == 1 && NodeAt(lock, axis) == Some(Part(lock))
  {
    if axis > 1 {
      BareAxis(lock, axis / 2);
      assert false;
    }
  }

  /** The digests of a lock that are hashes of no condition of its own: its root, its tag and its forks. */
  predicate IsInnerDigest(h: LockHasher, lock: Lock, d: Digest) {
    lock.Fork? && (d == LockRoot(h, lock) || d == h.leafAtom(|Flatten(lock)|) || IsForkDigest(h, lock, d))
  }

  predicate IsForkDigest(h: LockHasher, lock: Lock, d: Digest) {
    lock.Fork? && (d == TreeHash(h, lock) || IsForkDigest(h, lock.p, d) || IsForkDigest(h, lock.q, d))
  }

  lemma {:induction false} ForkPartIsInner(h: LockHasher, lock: Lock, axis: nat, d: Digest)
    requires NodeAt(lock, axis).Some? && NodeAt(lock, axis).value.Part?
    requires IsForkDigest(h, NodeAt(lock, axis).value.lock, d)
    ensures IsForkDigest(h, lock, d)
  {
    if axis > 1 && NodeAt(lock, axis / 2).value.Part? {
      ForkPartIsInner(h, lock, axis / 2, d);
    }
  }

  /** At every axis: what verifies against a lock's root as the digest of a condition is one of the lock's branches, at
      that branch's own axis, unless the digests hashed here collide or the condition's is an inner digest. */
  lemma OnlyBranchesVerify(h: LockHasher, lock: Lock, axis: nat, condition: SpendCondition, path: seq<Digest>)
    returns (k: nat)
    requires Perfect(lock) && Verifies(h, h.condition(condition), axis, MerkleProof(LockRoot(h, lock), path))
    requires FoldIsClean(h, lock, axis, h.condition(condition), path)
    requires !IsInnerDigest(h, lock, h.condition(condition)) && NoConditionCollision(h, [condition], Flatten(lock))
    ensures k < |Flatten(lock)| && condition == Flatten(lock)[k] && axis == BranchAxis(lock, k)
  {
    var leaf := h.condition(condition);
    AnyAxisBinding(h, lock, axis, leaf, path);
    var node := NodeAt(lock, axis).value;
    NodeIsBranch(h, lock, axis, leaf);
    k := BranchAt(lock, axis);
    assert Flatten(lock)[k] in Flatten(lock) && condition in [condition];
  }

  lemma NodeIsBranch(h: LockHasher, lock: Lock, axis: nat, leaf: Digest)
    requires NodeAt(lock, axis).Some? && NodeDigest(h, lock, NodeAt(lock, axis).value) == leaf
    requires !IsInnerDigest(h, lock, leaf)
    ensures NodeAt(lock, axis).value.Part? && NodeAt(lock, axis).value.lock.Branch?
  {
    match NodeAt(lock, axis).value
    case Root => RootIsFork(lock, axis);
    case Tag => RootIsFork(lock, axis / 2);
    case Part(part) =>
      if part.Fork? {
        PartOfFork(lock, axis);
        ForkPartIsInner(h, lock, axis, leaf);
      }
  }
}
