/** The stateful face of the tree: committing data, and checking proofs against trusted roots. */
module MintGuard {
  import opened Wrappers
  import opened Field
  import opened Merkle

  datatype MintError = NoTree | IndexOutOfRange(index: nat, leafCount: nat)

  datatype GuardError = CapacityExceeded

  const MAX_ROOTS: nat := 10_000

  class Mint {
    const h: Hasher
    var tree: Option<MerkleTree>
    var leafCount: nat
    // The data of the last commit.
    ghost var leaves: seq<seq<byte>>

    ghost predicate Valid()
      reads this
    {
      && leafCount == |leaves|
      && tree == if leaves == [] then None else Some(TreeOf(h, leaves))
    }

    constructor (h: Hasher)
      ensures Valid() && this.h == h && leaves == []
    {
      this.h := h;
      tree := None;
      leafCount := 0;
      leaves := [];
    }

    /** Replaces the committed tree. The source panics on an empty data set. */
    method Commit(data: seq<seq<byte>>) returns (root: Digest)
      requires data != []
      modifies this
      ensures Valid() && leaves == data
      ensures root == RootOf(TreeOf(h, data).levels)
    {
      var built := Build(h, data);
      root := RootOf(built.value.levels);
      leafCount := |data|;
      tree := Some(built.value);
      leaves := data;
    }

    method Proof(index: nat) returns (r: Result<seq<ProofNode>, MintError>)
      requires Valid()
      ensures r == if leaves == [] then Failure(NoTree)
                   else if index >= |leaves| then Failure(IndexOutOfRange(index, |leaves|))
                   else Success(PathOf(TreeOf(h, leaves).levels, index))
    {
      if tree.None? {
        return Failure(NoTree);
      }
      if index >= leafCount {
        return Failure(IndexOutOfRange(index, leafCount));
      }
      var path := Merkle.Proof(tree.value, index);
      return Success(path.value);
    }

    method Root() returns (root: Option<Digest>)
      requires Valid()
      ensures root == if leaves == [] then None else Some(RootOf(TreeOf(h, leaves).levels))
    {
      root := if tree.None? then None else Some(RootOf(tree.value.levels));
    }
  }

  class Guard {
    const h: Hasher
    var roots: set<Digest>

    ghost predicate Valid()
      reads this
    {
      |roots| <= MAX_ROOTS
    }

    constructor (h: Hasher)
      ensures Valid() && this.h == h && roots == {}
    {
      this.h := h;
      roots := {};
    }

    /** Fails only for a new root when the store is full, and then changes nothing. */
    method RegisterRoot(root: Digest) returns (r: Result<(), GuardError>)
      requires Valid()
      modifies this
      ensures Valid()
      ensures r.Failure? <==> |old(roots)| == 10_000 && root !in old(roots)
      ensures roots == if r.Success? then old(roots) + {root} else old(roots)
    {
      if |roots| >= MAX_ROOTS && root !in roots {
        return Failure(CapacityExceeded);
      }
      assert root in roots ==> roots + {root} == roots;
      roots := roots + {root};
      return Success(());
    }

    method RevokeRoot(root: Digest) returns (present: bool)
      requires Valid()
      modifies this
      ensures Valid()
      ensures present <==> root in old(roots)
      ensures roots == old(roots) - {root}
    {
      present := root in roots;
      roots := roots - {root};
    }

    method Check(data: seq<byte>, proof: seq<ProofNode>, root: Digest) returns (ok: bool)
      ensures ok <==> root in roots && Accepts(h, data, proof, root)
    {
      if root !in roots {
        return false;
      }
      ok := VerifyProof(h, data, proof, root);
    }
  }

  /** From commit to check: once the root of a commit is registered, the proof of every leaf is accepted,
      up to the 2^64 leaves that the proof cap allows, and the check stops at the revocation of the root. */
  method CommitThenCheck(mint: Mint, guard: Guard, data: seq<seq<byte>>, i: nat)
    returns (registered: Result<(), GuardError>, accepted: bool, afterRevoke: bool)
    requires guard.Valid() && mint.h == guard.h && InField(mint.h) && i < |data|
    modifies mint, guard
    ensures registered.Success? ==> (accepted <==> |data| <= 0x1_0000_0000_0000_0000)
    ensures registered.Failure? ==> !accepted
    ensures !afterRevoke
    ensures guard.roots == old(guard.roots) - {RootOf(TreeOf(mint.h, data).levels)}
  {
    var root := mint.Commit(data);
    var path := mint.Proof(i);
    registered := guard.RegisterRoot(root);
    accepted := guard.Check(data[i], path.value, root);
    Completeness(mint.h, data, i);
    var _ := guard.RevokeRoot(root);
    afterRevoke := guard.Check(data[i], path.value, root);
  }
}
