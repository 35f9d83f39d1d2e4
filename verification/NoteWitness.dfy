/** From a note's address to who can spend it: the constructors, the lock proof, the witness builder and the
    chain's check put together. */
module NoteWitness {
  import opened Wrappers
  import opened Field
  import opened Locks
  import opened LockProof
  import opened Notes
  import opened BranchWitness
  import opened Tx

  /** Every constructor builds a lock of two or four branches, a perfect tree. */
  lemma NotesArePerfect(note: Note)
    requires LockOf(note).Success?
    ensures Perfect(LockOf(note).value) && LockOf(note).value.Fork?
    ensures |Branches(note)| == Pow2(Depth(LockOf(note).value))
  {
    AsDrawn(note);
    BranchCount(LockOf(note).value);
  }

  function SignersOf(cr: Crypto, parts: seq<Cosignature>): set<Digest> {
    set i | 0 <= i < |parts| :: cr.pubkeyHash(parts[i].pubkey)
  }

  lemma {:induction false} SignerCount(cr: Crypto, parts: seq<Cosignature>)
    requires DistinctSigners(cr, parts)
    ensures |SignersOf(cr, parts)| == |parts|
  {
    if parts != [] {
      var n := |parts| - 1;
      SignerCount(cr, parts[..n]);
      assert SignersOf(cr, parts) == SignersOf(cr, parts[..n]) + {cr.pubkeyHash(parts[n].pubkey)};
      assert cr.pubkeyHash(parts[n].pubkey) !in SignersOf(cr, parts[..n]);
    }
  }

  /** On a full-threshold rule the builder wants one part from every named key, and from nobody else. */
  lemma FullThreshold(cr: Crypto, hashes: set<Digest>, parts: seq<Cosignature>, sigHash: Digest)
    ensures |parts| == |hashes| && DistinctSigners(cr, parts) && PartsValid(cr, hashes, parts, sigHash)
       <==> SignersOf(cr, parts) == hashes && DistinctSigners(cr, parts) && PartsVerify(cr, parts, sigHash)
  {
    var signers := SignersOf(cr, parts);
    if DistinctSigners(cr, parts) {
      SignerCount(cr, parts);
      ExactSigners(hashes, signers);
      assert PartsValid(cr, hashes, parts, sigHash) ==> signers <= hashes;
      assert signers == hashes ==> forall i | 0 <= i < |parts| :: cr.pubkeyHash(parts[i].pubkey) in hashes;
    }
  }

  /** What the builder wants of a branch in one of the two forms the constructors give it. */
  lemma BuilderOnRegular(cr: Crypto, condition: SpendCondition, parts: seq<Cosignature>, sigHash: Digest,
                         hax: seq<HaxPreimage>)
    requires Regular(condition)
    ensures (PartsWanted(cr, condition, parts, sigHash) && PreimagesWanted(cr, condition, hax)
      && (forall p | p in condition :: !p.Burn?))
            <==>
            (condition[0].Pkh? && SignersOf(cr, parts) == condition[0].hashes
             && DistinctSigners(cr, parts) && PartsVerify(cr, parts, sigHash))
  {
    assert condition[0] in condition;
    if condition[0].Pkh? {
      assert FirstPkh(condition) == Some(condition[0]);
      assert forall p | p in condition :: !p.Burn? && !p.Hax?;
      FullThreshold(cr, condition[0].hashes, parts, sigHash);
    }
  }

  /** The builder follows the table: for every note that a constructor accepts, it assembles a witness of a
      burn-free branch, inside the branch's window, exactly when the table lets the parts' signers through
      and every part signs this spend once. */
  lemma BuilderFollowsTheTable(lh: LockHasher, cr: Crypto, note: Note, branch: nat, since: nat, now: nat, bythos: nat,
                               parts: seq<Cosignature>, sigHash: Digest, hax: seq<HaxPreimage>)
    requires LockOf(note).Success? && 1 <= branch <= |Branches(note)| && now >= bythos
    ensures Perfect(LockOf(note).value)
    ensures var condition := Branches(note)[branch - 1];
            (Wanted(lh, cr, LockOf(note).value, branch, now, bythos, parts, sigHash, hax)
             && (forall p | p in condition :: !p.Burn?) && BranchWindowOpen(condition, since, now))
            <==>
            (Authorizes(note, branch, SignersOf(cr, parts), since, now)
             && DistinctSigners(cr, parts) && PartsVerify(cr, parts, sigHash))
  {
    NotesArePerfect(note);
    var condition, signers := Branches(note)[branch - 1], SignersOf(cr, parts);
    SpendTable(note, branch - 1, signers, {}, since, now);
    RegularNote(note);
    RegularBranch(condition, signers, {}, since, now);
    BuilderOnRegular(cr, condition, parts, sigHash, hax);
    ProofOfBranch(lh, LockOf(note).value, branch, now, bythos);
  }

  lemma ProofOfBranch(lh: LockHasher, lock: Lock, branch: nat, now: nat, bythos: nat)
    requires Perfect(lock) && 1 <= branch <= |Flatten(lock)| && now >= bythos
    ensures LockProofOf(lh, lock, branch, now, bythos).Success?
    ensures LockProofOf(lh, lock, branch, now, bythos).value.condition == Flatten(lock)[branch - 1]
  {
  }

  /** A signature map and preimages that satisfy every conjunct of a note's branch are in the table. */
  lemma AcceptedInTable(cr: Crypto, note: Note, b: nat, sigs: map<Digest, Entry>, preimages: map<Digest, Noun>,
                        sigHash: Digest, since: nat, now: nat)
    requires LockOf(note).Success? && b < |Branches(note)|
    requires forall p | p in Branches(note)[b] :: ConjunctAccepted(cr, p, sigs, preimages, sigHash, since, now)
    ensures Authorizes(note, b + 1, sigs.Keys, since, now)
    ensures forall k | k in sigs ::
              cr.pubkeyHash(sigs[k].pubkey) == k && cr.verifies(sigs[k].pubkey, sigHash, sigs[k].signature)
  {
    var condition := Branches(note)[b];
    AcceptedHolds(cr, condition, sigs, preimages, sigHash, since, now);
    SpendTable(note, b, sigs.Keys, preimages.Keys, since, now);
    RegularNote(note);
    assert condition[0] in condition && ConjunctAccepted(cr, condition[0], sigs, preimages, sigHash, since, now);
  }

  ghost predicate ConditionAccepted(cr: Crypto, condition: SpendCondition, w: Witness, sigHash: Digest, since: nat,
                                    now: nat) {
    forall p | p in condition ::
      ConjunctAccepted(cr, p, SignatureMap(w.entries), PreimageMap(w.hax), sigHash, since, now)
  }

  /** The digests hashed to check this witness's proof against the lock tell its condition apart from everything else
      in the lock: no collision among them, and the condition's digest is none of the lock's inner digests. */
  predicate TellsApart(lh: LockHasher, lock: Lock, lmp: LockMerkleProof) {
    && FoldIsClean(lh, lock, lmp.axis, lh.condition(lmp.condition), lmp.proof.path)
    && !IsInnerDigest(lh, lock, lh.condition(lmp.condition))
    && NoConditionCollision(lh, [lmp.condition], Flatten(lock))
  }

  lemma AcceptedCondition(lh: LockHasher, cr: Crypto, lock: Lock, w: Witness, sigHash: Digest, since: nat, now: nat,
                          bythos: nat)
    returns (k: nat)
    requires Perfect(lock) && ChainAccepts(lh, cr, LockRoot(lh, lock), w, sigHash, since, now, bythos)
    requires TellsApart(lh, lock, w.lmp)
    ensures k < |Flatten(lock)| && w.lmp.condition == Flatten(lock)[k] && w.lmp.axis == BranchAxis(lock, k)
    ensures ConditionAccepted(cr, Flatten(lock)[k], w, sigHash, since, now)
  {
    assert w.lmp.proof == MerkleProof(LockRoot(lh, lock), w.lmp.proof.path);
    k := OnlyBranchesVerify(lh, lock, w.lmp.axis, w.lmp.condition, w.lmp.proof.path);
  }

  /** The note's address fixes who signs and when: whatever witness the chain accepts against it, at whatever axis, is
      of one of the note's branches, at that branch's axis, and the table allows its signers then. The witness may come
      from anybody. */
  lemma AcceptedMeansAuthorized(lh: LockHasher, cr: Crypto, note: Note, lock: Lock, w: Witness, sigHash: Digest,
                                since: nat, now: nat, bythos: nat) returns (k: nat)
    requires LockOf(note) == Success(lock) && Perfect(lock)
    requires ChainAccepts(lh, cr, LockRoot(lh, lock), w, sigHash, since, now, bythos)
    requires TellsApart(lh, lock, w.lmp)
    ensures k < |Flatten(lock)| && w.lmp.condition == Flatten(lock)[k] && w.lmp.axis == BranchAxis(lock, k)
    ensures Authorizes(note, k + 1, SignatureMap(w.entries).Keys, since, now)
    ensures forall key | key in SignatureMap(w.entries) :: var e := SignatureMap(w.entries)[key];
              cr.pubkeyHash(e.pubkey) == key && cr.verifies(e.pubkey, sigHash, e.signature)
  {
    k := AcceptedCondition(lh, cr, lock, w, sigHash, since, now, bythos);
    AcceptedInTable(cr, note, k, SignatureMap(w.entries), PreimageMap(w.hax), sigHash, since, now);
  }

  /** What the chain accepts conjunct by conjunct is spendable by the map's keys. */
  lemma AcceptedHolds(cr: Crypto, condition: SpendCondition, sigs: map<Digest, Entry>, preimages: map<Digest, Noun>,
                      sigHash: Digest, since: nat, now: nat)
    requires forall p | p in condition :: ConjunctAccepted(cr, p, sigs, preimages, sigHash, since, now)
    ensures Spendable(condition, sigs.Keys, preimages.Keys, since, now)
  {
    forall p | p in condition ensures Holds(p, sigs.Keys, preimages.Keys, since, now) {
      assert |sigs| == |sigs.Keys|;
    }
  }

  /** The two accounts of the chain's check agree: on a map whose signatures all stand, what it accepts conjunct by
      conjunct is what is spendable by the map's keys with the preimages that hash to their labels. */
  lemma AcceptedIsSpendable(cr: Crypto, condition: SpendCondition, sigs: map<Digest, Entry>,
                            preimages: map<Digest, Noun>, sigHash: Digest, since: nat, now: nat)
    requires forall k | k in sigs ::
               cr.pubkeyHash(sigs[k].pubkey) == k && cr.verifies(sigs[k].pubkey, sigHash, sigs[k].signature)
    ensures (forall p | p in condition :: ConjunctAccepted(cr, p, sigs, preimages, sigHash, since, now))
       <==> Spendable(condition, sigs.Keys, (set f | f in preimages && cr.nounDigest(preimages[f]) == f), since, now)
  {
    var answered := set f | f in preimages && cr.nounDigest(preimages[f]) == f;
    forall p | p in condition
      ensures ConjunctAccepted(cr, p, sigs, preimages, sigHash, since, now)
        <==> Holds(p, sigs.Keys, answered, since, now)
    {
      assert |sigs| == |sigs.Keys|;
    }
  }

  /** And what the table allows the chain accepts, in the form the builder gives it. */
  lemma AuthorizedMeansAccepted(lh: LockHasher, cr: Crypto, note: Note, branch: nat, since: nat, now: nat, bythos: nat,
                                parts: seq<Cosignature>, sigHash: Digest)
    requires LockOf(note).Success? && 1 <= branch <= |Branches(note)| && now >= bythos && Perfect(LockOf(note).value)
    requires Authorizes(note, branch, SignersOf(cr, parts), since, now)
    requires DistinctSigners(cr, parts) && PartsVerify(cr, parts, sigHash)
    ensures var lock := LockOf(note).value;
            && LockProofOf(lh, lock, branch, now, bythos).Success?
            && ChainAccepts(lh, cr, LockRoot(lh, lock),
                 Assembled(cr, LockProofOf(lh, lock, branch, now, bythos).value, parts, []),
                 sigHash, since, now, bythos)
  {
    var hax: seq<HaxPreimage> := [];
    var lock, condition := LockOf(note).value, Branches(note)[branch - 1];
    BuilderFollowsTheTable(lh, cr, note, branch, since, now, bythos, parts, sigHash, hax);
    ProofOfBranch(lh, lock, branch, now, bythos);
    OnePkh(note, branch - 1);
    assert Comparable(lh, lock, branch, since, now, bythos);
    BuilderAgreesWithChain(lh, cr, lock, branch, since, now, bythos, parts, sigHash, hax);
  }

  lemma OnePkh(note: Note, b: nat)
    requires LockOf(note).Success? && b < |Branches(note)|
    ensures AtMostOnePkh(Branches(note)[b])
  {
    RegularNote(note);
  }

  // ----- Addresses

  /** The pairs, arity tags and conditions hashed to make two addresses do not collide. */
  predicate AddressesTellApart(h: LockHasher, a: Lock, b: Lock) {
    && NoPairCollision(h, RootPairs(h, a) + RootPairs(h, b)) && NoConditionCollision(h, Flatten(a), Flatten(b))
    && (h.leafAtom(|Flatten(a)|) == h.leafAtom(|Flatten(b)|) ==> |Flatten(a)| == |Flatten(b)|)
  }

  /** Exact address binding, down to the root: two accepted notes have one lock root if and only if they bind the same
      things. */
  lemma RootsBindNotes(h: LockHasher, m: Note, n: Note)
    requires LockOf(m).Success? && LockOf(n).Success?
    requires AddressesTellApart(h, LockOf(m).value, LockOf(n).value)
    ensures LockRoot(h, LockOf(m).value) == LockRoot(h, LockOf(n).value) <==> BindingOf(m) == BindingOf(n)
  {
    NotesArePerfect(m);
    NotesArePerfect(n);
    AddressBinding(m, n);
    if LockRoot(h, LockOf(m).value) == LockRoot(h, LockOf(n).value) {
      RootBinding(h, LockOf(m).value, LockOf(n).value);
    }
  }
}
