/** Assembling the witness of a branch spend from finished signatures, against the chain's own check. */
module BranchWitness {
  import opened Wrappers
  import opened Field
  import opened Locks
  import opened LockProof
  import opened Tx

  datatype Pubkey = Pubkey(id: nat)

  datatype Signature = Signature(id: nat)

  /** Key hashing, signature checking and the structural noun digest, left abstract. */
  datatype Crypto = Crypto(pubkeyHash: Pubkey -> Digest, verifies: (Pubkey, Digest, Signature) -> bool,
                           nounDigest: Noun -> Digest)

  datatype Cosignature = Cosignature(pubkey: Pubkey, signature: Signature)

  datatype HaxPreimage = HaxPreimage(hash: Digest, value: Noun)

  datatype Entry = Entry(pkh: Digest, pubkey: Pubkey, signature: Signature)

  datatype Witness = Witness(lmp: LockMerkleProof, entries: seq<Entry>, hax: seq<HaxPreimage>)

  datatype WitnessError =
    | NoProof(error: ProofError)
    | WrongCount
    | NotNamed
    | RepeatedSigner
    | BadSignature
    | UnwantedSignatures
    | MissingPreimage
    | WrongPreimage

  // ----- What the builder asks

  /** The first `%pkh` of a branch. */
  function FirstPkh(condition: SpendCondition): (r: Option<LockPrimitive>)
    ensures r.Some? ==> r.value.Pkh? && r.value in condition
    ensures r.None? ==> forall p | p in condition :: !p.Pkh?
  {
    if condition == [] then None
    else if condition[0].Pkh? then Some(condition[0])
    else FirstPkh(condition[1..])
  }

  function EntryOf(cr: Crypto, part: Cosignature): Entry {
    Entry(cr.pubkeyHash(part.pubkey), part.pubkey, part.signature)
  }

  function EntriesOf(cr: Crypto, parts: seq<Cosignature>): (r: seq<Entry>)
    ensures |r| == |parts| && forall i | 0 <= i < |parts| :: r[i] == EntryOf(cr, parts[i])
  {
    if parts == [] then [] else EntriesOf(cr, parts[..|parts| - 1]) + [EntryOf(cr, parts[|parts| - 1])]
  }

  predicate DistinctSigners(cr: Crypto, parts: seq<Cosignature>) {
    forall i, j | 0 <= i < j < |parts| :: cr.pubkeyHash(parts[i].pubkey) != cr.pubkeyHash(parts[j].pubkey)
  }

  /** Every part is by a named signer and over this sig-hash. */
  predicate PartsValid(cr: Crypto, hashes: set<Digest>, parts: seq<Cosignature>, sigHash: Digest) {
    forall i | 0 <= i < |parts| ::
      cr.pubkeyHash(parts[i].pubkey) in hashes && cr.verifies(parts[i].pubkey, sigHash, parts[i].signature)
  }

  predicate PartsWanted(cr: Crypto, condition: SpendCondition, parts: seq<Cosignature>, sigHash: Digest) {
    match FirstPkh(condition)
    case None => parts == []
    case Some(rule) => |parts| == rule.m && DistinctSigners(cr, parts) && PartsValid(cr, rule.hashes, parts, sigHash)
  }

  /** The first preimage carried under a label. */
  function Carried(hax: seq<HaxPreimage>, wanted: Digest): Option<Noun> {
    if hax == [] then None
    else if hax[0].hash == wanted then Some(hax[0].value)
    else Carried(hax[1..], wanted)
  }

  predicate Answers(cr: Crypto, hax: seq<HaxPreimage>, wanted: Digest) {
    Carried(hax, wanted).Some? && cr.nounDigest(Carried(hax, wanted).value) == wanted
  }

  predicate AllAnswered(cr: Crypto, hax: seq<HaxPreimage>, facts: set<Digest>) {
    forall wanted | wanted in facts :: Answers(cr, hax, wanted)
  }

  predicate HasBurn(condition: SpendCondition) {
    exists p | p in condition :: p.Burn?
  }

  predicate PreimagesWanted(cr: Crypto, condition: SpendCondition, hax: seq<HaxPreimage>) {
    HasBurn(condition) || forall p | p in condition && p.Hax? :: AllAnswered(cr, hax, p.facts)
  }

  method CheckParts(cr: Crypto, rule: LockPrimitive, parts: seq<Cosignature>, sigHash: Digest)
    returns (r: Result<seq<Entry>, WitnessError>)
    requires rule.Pkh?
    ensures r.Success?
      <==> |parts| == rule.m && DistinctSigners(cr, parts) && PartsValid(cr, rule.hashes, parts, sigHash)
    ensures r.Success? ==> r.value == EntriesOf(cr, parts)
    ensures r == Failure(WrongCount) <==> |parts| != rule.m
    ensures r.Failure? ==> match r.error
      case WrongCount => true
      case NotNamed => exists i | 0 <= i < |parts| :: cr.pubkeyHash(parts[i].pubkey) !in rule.hashes
      case RepeatedSigner => !DistinctSigners(cr, parts)
      case BadSignature => exists i | 0 <= i < |parts| :: !cr.verifies(parts[i].pubkey, sigHash, parts[i].signature)
      case _ => false
  {
    if |parts| != rule.m {
      return Failure(WrongCount);
    }
    var entries: seq<Entry> := [];
    for i := 0 to |parts|
      invariant |entries| == i && forall k | 0 <= k < i :: entries[k] == EntryOf(cr, parts[k])
      invariant DistinctSigners(cr, parts[..i]) && PartsValid(cr, rule.hashes, parts[..i], sigHash)
    {
      var pkh := cr.pubkeyHash(parts[i].pubkey);
      if pkh !in rule.hashes {
        return Failure(NotNamed);
      }
      for k := 0 to i
        invariant forall j | 0 <= j < k :: entries[j].pkh != pkh
      {
        if entries[k].pkh == pkh {
          assert cr.pubkeyHash(parts[k].pubkey) == pkh;
          return Failure(RepeatedSigner);
        }
      }
      if !cr.verifies(parts[i].pubkey, sigHash, parts[i].signature) {
        return Failure(BadSignature);
      }
      assert forall j | 0 <= j < i :: cr.pubkeyHash(parts[j].pubkey) == entries[j].pkh;
      entries := entries + [EntryOf(cr, parts[i])];
    }
    assert parts[..|parts|] == parts;
    return Success(entries);
  }

  method FindCarried(hax: seq<HaxPreimage>, wanted: Digest) returns (r: Option<Noun>)
    ensures r == Carried(hax, wanted)
  {
    for i := 0 to |hax|
      invariant Carried(hax[i..], wanted) == Carried(hax, wanted)
    {
      if hax[i].hash == wanted {
        return Some(hax[i].value);
      }
      assert hax[i..][1..] == hax[i + 1..];
    }
    return None;
  }

  method CheckPreimages(cr: Crypto, facts: set<Digest>, hax: seq<HaxPreimage>) returns (r: Result<(), WitnessError>)
    ensures r.Success? <==> AllAnswered(cr, hax, facts)
    ensures r.Failure? ==> match r.error
      case MissingPreimage => exists wanted | wanted in facts :: Carried(hax, wanted).None?
      case WrongPreimage => exists wanted | wanted in facts :: Carried(hax, wanted).Some? && !Answers(cr, hax, wanted)
      case _ => false
  {
    var left := facts;
    while left != {}
      invariant left <= facts && forall wanted | wanted in facts - left :: Answers(cr, hax, wanted)
      decreases |left|
    {
      var wanted :| wanted in left;
      var value := FindCarried(hax, wanted);
      if value.None? {
        assert !Answers(cr, hax, wanted);
        return Failure(MissingPreimage);
      }
      if cr.nounDigest(value.value) != wanted {
        assert !Answers(cr, hax, wanted);
        return Failure(WrongPreimage);
      }
      left := left - {wanted};
    }
    return Success(());
  }

  method CheckHax(cr: Crypto, condition: SpendCondition, hax: seq<HaxPreimage>) returns (r: Result<(), WitnessError>)
    ensures r.Success? <==> PreimagesWanted(cr, condition, hax)
  {
    if HasBurn(condition) {
      return Success(());
    }
    for i := 0 to |condition|
      invariant forall k | 0 <= k < i && condition[k].Hax? :: AllAnswered(cr, hax, condition[k].facts)
    {
      if condition[i].Hax? {
        var checked := CheckPreimages(cr, condition[i].facts, hax);
        if checked.Failure? {
          assert condition[i] in condition;
          return checked;
        }
      }
    }
    return Success(());
  }

  predicate Wanted(lh: LockHasher, cr: Crypto, lock: Lock, branch: nat, height: nat, bythos: nat,
                   parts: seq<Cosignature>, sigHash: Digest, hax: seq<HaxPreimage>)
    requires Perfect(lock)
  {
    var proof := LockProofOf(lh, lock, branch, height, bythos);
    && proof.Success?
    && PartsWanted(cr, proof.value.condition, parts, sigHash)
    && PreimagesWanted(cr, proof.value.condition, hax)
  }

  /** The parts a branch wants: as many as its first `%pkh` says, by different signers that it names, each over this
      sig-hash; none without a `%pkh`. */
  predicate PartsInOrder(cr: Crypto, condition: SpendCondition, parts: seq<Cosignature>, sigHash: Digest) {
    && ((forall p | p in condition :: !p.Pkh?) ==> parts == [])
    && (forall k | 0 <= k < |condition| && condition[k].Pkh? && (forall j | 0 <= j < k :: !condition[j].Pkh?) ::
          && |parts| == condition[k].m
          && (forall i, j | 0 <= i < j < |parts| :: cr.pubkeyHash(parts[i].pubkey) != cr.pubkeyHash(parts[j].pubkey))
          && (forall i | 0 <= i < |parts| ::
                cr.pubkeyHash(parts[i].pubkey) in condition[k].hashes
                && cr.verifies(parts[i].pubkey, sigHash, parts[i].signature)))
  }

  /** The preimages a branch wants: for every fact of every `%hax`, the first one under its label hashes to it. */
  predicate PreimagesInOrder(cr: Crypto, condition: SpendCondition, hax: seq<HaxPreimage>) {
    forall p, wanted | p in condition && p.Hax? && wanted in p.facts :: exists i | 0 <= i < |hax| ::
      hax[i].hash == wanted && cr.nounDigest(hax[i].value) == wanted && forall j | 0 <= j < i :: hax[j].hash != wanted
  }

  lemma {:induction false} FirstPkhAt(condition: SpendCondition, k: nat)
    requires k < |condition| && condition[k].Pkh? && forall j | 0 <= j < k :: !condition[j].Pkh?
    ensures FirstPkh(condition) == Some(condition[k])
  {
    if k > 0 {
      FirstPkhAt(condition[1..], k - 1);
    }
  }

  lemma {:induction false} FirstPkhIs(condition: SpendCondition) returns (k: nat)
    requires FirstPkh(condition).Some?
    ensures k < |condition| && condition[k] == FirstPkh(condition).value && forall j | 0 <= j < k :: !condition[j].Pkh?
  {
    if condition[0].Pkh? {
      k := 0;
    } else {
      k := FirstPkhIs(condition[1..]);
      k := k + 1;
      assert forall j | 1 <= j < k :: condition[j] == condition[1..][j - 1];
    }
  }

  lemma PartsMean(cr: Crypto, condition: SpendCondition, parts: seq<Cosignature>, sigHash: Digest)
    ensures PartsWanted(cr, condition, parts, sigHash) <==> PartsInOrder(cr, condition, parts, sigHash)
  {
    if FirstPkh(condition).Some? {
      var at := FirstPkhIs(condition);
      forall k | 0 <= k < |condition| && condition[k].Pkh? && (forall j | 0 <= j < k :: !condition[j].Pkh?)
        ensures condition[k] == FirstPkh(condition).value
      {
        FirstPkhAt(condition, k);
      }
    }
  }

  lemma {:induction false} CarriedIs(hax: seq<HaxPreimage>, i: nat)
    requires i < |hax| && forall j | 0 <= j < i :: hax[j].hash != hax[i].hash
    ensures Carried(hax, hax[i].hash) == Some(hax[i].value)
  {
    if i > 0 {
      CarriedIs(hax[1..], i - 1);
    }
  }

  lemma {:induction false} CarriedFirst(hax: seq<HaxPreimage>, wanted: Digest) returns (i: nat)
    requires Carried(hax, wanted).Some?
    ensures i < |hax| && hax[i] == HaxPreimage(wanted, Carried(hax, wanted).value)
    ensures forall j | 0 <= j < i :: hax[j].hash != wanted
  {
    if hax[0].hash == wanted {
      i := 0;
    } else {
      i := CarriedFirst(hax[1..], wanted);
      i := i + 1;
      assert forall j | 1 <= j < i :: hax[j] == hax[1..][j - 1];
    }
  }

  lemma AnswersMean(cr: Crypto, hax: seq<HaxPreimage>, wanted: Digest)
    ensures Answers(cr, hax, wanted) <==> exists i | 0 <= i < |hax| ::
      hax[i].hash == wanted && cr.nounDigest(hax[i].value) == wanted && forall j | 0 <= j < i :: hax[j].hash != wanted
  {
    if Carried(hax, wanted).Some? {
      var i := CarriedFirst(hax, wanted);
    }
    if i :| 0 <= i < |hax| && hax[i].hash == wanted && cr.nounDigest(hax[i].value) == wanted
            && forall j | 0 <= j < i :: hax[j].hash != wanted {
      CarriedIs(hax, i);
    }
  }

  lemma PreimagesMean(cr: Crypto, condition: SpendCondition, hax: seq<HaxPreimage>)
    ensures PreimagesWanted(cr, condition, hax) <==>
              (exists p | p in condition :: p.Burn?) || PreimagesInOrder(cr, condition, hax)
  {
    forall wanted: Digest { AnswersMean(cr, hax, wanted); }
  }

  lemma WantedMeans(lh: LockHasher, cr: Crypto, lock: Lock, branch: nat, height: nat, bythos: nat,
                    parts: seq<Cosignature>, sigHash: Digest, hax: seq<HaxPreimage>)
    requires Perfect(lock)
    ensures Wanted(lh, cr, lock, branch, height, bythos, parts, sigHash, hax) <==>
              1 <= branch <= |Flatten(lock)| && (lock.Fork? ==> height >= bythos)
              && PartsInOrder(cr, Flatten(lock)[branch - 1], parts, sigHash)
              && ((exists p | p in Flatten(lock)[branch - 1] :: p.Burn?)
                  || PreimagesInOrder(cr, Flatten(lock)[branch - 1], hax))
  {
    if 1 <= branch <= |Flatten(lock)| {
      PartsMean(cr, Flatten(lock)[branch - 1], parts, sigHash);
      PreimagesMean(cr, Flatten(lock)[branch - 1], hax);
    }
  }

  /** `build_branch_witness_from_parts`. */
  method BuildBranchWitness(lh: LockHasher, cr: Crypto, lock: Lock, branch: nat, height: nat, bythos: nat,
                            parts: seq<Cosignature>, sigHash: Digest, hax: seq<HaxPreimage>)
    returns (r: Result<Witness, WitnessError>)
    requires Perfect(lock)
    ensures r.Success? <==> Wanted(lh, cr, lock, branch, height, bythos, parts, sigHash, hax)
    ensures r.Success? ==> r.value == Assembled(cr, LockProofOf(lh, lock, branch, height, bythos).value, parts, hax)
    ensures LockProofOf(lh, lock, branch, height, bythos).Failure? ==>
      r == Failure(NoProof(LockProofOf(lh, lock, branch, height, bythos).error))
    ensures r.Success? <==>
              1 <= branch <= |Flatten(lock)| && (lock.Fork? ==> height >= bythos)
              && PartsInOrder(cr, Flatten(lock)[branch - 1], parts, sigHash)
              && ((exists p | p in Flatten(lock)[branch - 1] :: p.Burn?)
                  || PreimagesInOrder(cr, Flatten(lock)[branch - 1], hax))
    ensures r.Success? ==> r.value.hax == hax && |r.value.entries| == |parts|
    ensures r.Success? ==> forall i | 0 <= i < |parts| ::
              r.value.entries[i] == Entry(cr.pubkeyHash(parts[i].pubkey), parts[i].pubkey, parts[i].signature)
  {
    WantedMeans(lh, cr, lock, branch, height, bythos, parts, sigHash, hax);
    var lmp := BuildLockProof(lh, lock, branch, height, bythos);
    if lmp.Failure? {
      return Failure(NoProof(lmp.error));
    }
    var condition := lmp.value.condition;
    var entries: seq<Entry> := [];
    match FirstPkh(condition) {
      case Some(rule) =>
        var checked := CheckParts(cr, rule, parts, sigHash);
        if checked.Failure? {
          return Failure(checked.error);
        }
        entries := checked.value;
      case None =>
        if parts != [] {
          return Failure(UnwantedSignatures);
        }
    }
    var answered := CheckHax(cr, condition, hax);
    if answered.Failure? {
      return Failure(answered.error);
    }
    return Success(Witness(lmp.value, entries, hax));
  }

  /** The witness that the parts make, whether or not anybody would accept it. */
  function Assembled(cr: Crypto, lmp: LockMerkleProof, parts: seq<Cosignature>, hax: seq<HaxPreimage>): Witness {
    Witness(lmp, EntriesOf(cr, parts), hax)
  }

  // ----- What the chain asks

  /** The witness half is a map keyed by pubkey-hash: a repeated signer is one entry. */
  function SignatureMap(entries: seq<Entry>): (m: map<Digest, Entry>)
    ensures forall k | k in m :: m[k] in entries && m[k].pkh == k
    ensures forall e | e in entries :: e.pkh in m
  {
    if entries == [] then map[] else
      var last := entries[|entries| - 1];
      SignatureMap(entries[..|entries| - 1])[last.pkh := last]
  }

  function PreimageMap(hax: seq<HaxPreimage>): (m: map<Digest, Noun>)
    ensures forall f | f in m :: exists i | 0 <= i < |hax| :: hax[i] == HaxPreimage(f, m[f])
  {
    if hax == [] then map[] else
      var last := hax[|hax| - 1];
      PreimageMap(hax[..|hax| - 1])[last.hash := last.value]
  }

  ghost predicate ConjunctAccepted(cr: Crypto, p: LockPrimitive, sigs: map<Digest, Entry>, preimages: map<Digest, Noun>,
                                   sigHash: Digest, since: nat, now: nat)
  {
    match p
    case Pkh(m, hashes) =>
      |sigs| == m && sigs.Keys <= hashes
      && forall k | k in sigs ::
           cr.pubkeyHash(sigs[k].pubkey) == k && cr.verifies(sigs[k].pubkey, sigHash, sigs[k].signature)
    case Tim(_, _) => TimOpen(p, since, now)
    case Hax(facts) => forall f | f in facts :: f in preimages && cr.nounDigest(preimages[f]) == f
    case Burn => false
  }

  /** Every signature of every witness is verified, whether the branch asks for it or not. */
  predicate AllVerify(cr: Crypto, sigs: map<Digest, Entry>, sigHash: Digest) {
    forall k | k in sigs :: cr.verifies(sigs[k].pubkey, sigHash, sigs[k].signature)
  }

  ghost predicate ProofAccepted(lh: LockHasher, root: Digest, lmp: LockMerkleProof, now: nat, bythos: nat) {
    && lmp.proof.root == root
    && Verifies(lh, lh.condition(lmp.condition), lmp.axis, lmp.proof)
    && if lmp.full then now >= bythos else lmp.axis == 1
  }

  ghost predicate ChainAccepts(lh: LockHasher, cr: Crypto, root: Digest, w: Witness, sigHash: Digest, since: nat,
                               now: nat, bythos: nat) {
    && ProofAccepted(lh, root, w.lmp, now, bythos)
    && AllVerify(cr, SignatureMap(w.entries), sigHash)
    && forall p | p in w.lmp.condition ::
         ConjunctAccepted(cr, p, SignatureMap(w.entries), PreimageMap(w.hax), sigHash, since, now)
  }

  /** The map of preimages keeps the last one under a label. */
  lemma LastPreimageIsKept(hax: seq<HaxPreimage>, last: HaxPreimage)
    ensures PreimageMap(hax + [last]) == PreimageMap(hax)[last.hash := last.value]
  {
    assert (hax + [last])[..|hax|] == hax;
  }

  /** What the chain refuses of a proof: another root, a stub anywhere but at axis 1, and the full form before bythos.
      */
  lemma ProofsRefused(lh: LockHasher, root: Digest, lmp: LockMerkleProof, now: nat, bythos: nat)
    requires lmp.proof.root != root || (!lmp.full && lmp.axis != 1) || (lmp.full && now < bythos)
             || !Verifies(lh, lh.condition(lmp.condition), lmp.axis, lmp.proof)
    ensures !ProofAccepted(lh, root, lmp, now, bythos)
  {
  }

  // ----- They agree

  /** What the chain asks of the preimages: the map keeps the last one under a label. */
  predicate MapAnswers(cr: Crypto, hax: seq<HaxPreimage>, wanted: Digest) {
    wanted in PreimageMap(hax) && cr.nounDigest(PreimageMap(hax)[wanted]) == wanted
  }

  predicate PreimagesMapped(cr: Crypto, condition: SpendCondition, hax: seq<HaxPreimage>) {
    forall p | p in condition :: p.Hax? ==> forall wanted | wanted in p.facts :: MapAnswers(cr, hax, wanted)
  }

  predicate DistinctLabels(hax: seq<HaxPreimage>) {
    forall i, j | 0 <= i < j < |hax| :: hax[i].hash != hax[j].hash
  }

  lemma {:induction false} CarriedAt(hax: seq<HaxPreimage>, i: nat)
    requires DistinctLabels(hax) && i < |hax|
    ensures Carried(hax, hax[i].hash) == Some(hax[i].value)
  {
    if i > 0 {
      CarriedAt(hax[1..], i - 1);
    }
  }

  lemma {:induction false} MappedAt(hax: seq<HaxPreimage>, i: nat)
    requires DistinctLabels(hax) && i < |hax|
    ensures hax[i].hash in PreimageMap(hax) && PreimageMap(hax)[hax[i].hash] == hax[i].value
  {
    if i < |hax| - 1 {
      MappedAt(hax[..|hax| - 1], i);
    }
  }

  lemma {:induction false} CarriedSomewhere(hax: seq<HaxPreimage>, wanted: Digest)
    requires Carried(hax, wanted).Some?
    ensures exists i | 0 <= i < |hax| :: hax[i].hash == wanted
  {
    if hax[0].hash != wanted {
      CarriedSomewhere(hax[1..], wanted);
      var i :| 0 <= i < |hax[1..]| && hax[1..][i].hash == wanted;
      assert hax[i + 1].hash == wanted;
    }
  }

  /** With distinct labels the first preimage under a label is the map's. */
  lemma PreimagesAgree(cr: Crypto, hax: seq<HaxPreimage>, wanted: Digest)
    requires DistinctLabels(hax)
    ensures Answers(cr, hax, wanted) <==> MapAnswers(cr, hax, wanted)
  {
    if Carried(hax, wanted).Some? {
      CarriedSomewhere(hax, wanted);
      var i :| 0 <= i < |hax| && hax[i].hash == wanted;
      CarriedAt(hax, i);
      MappedAt(hax, i);
    } else if wanted in PreimageMap(hax) {
      var i :| 0 <= i < |hax| && hax[i] == HaxPreimage(wanted, PreimageMap(hax)[wanted]);
      CarriedAt(hax, i);
    }
  }

  /** One more part is one more insertion into the map. */
  lemma MapGrows(cr: Crypto, parts: seq<Cosignature>, part: Cosignature)
    ensures SignatureMap(EntriesOf(cr, parts + [part]))
         == SignatureMap(EntriesOf(cr, parts))[EntryOf(cr, part).pkh := EntryOf(cr, part)]
  {
    var more, entries := parts + [part], EntriesOf(cr, parts);
    assert more[..|more| - 1] == parts;
    assert EntriesOf(cr, more) == entries + [EntryOf(cr, part)];
    assert (entries + [EntryOf(cr, part)])[..|entries|] == entries;
  }

  lemma NewSigner(cr: Crypto, parts: seq<Cosignature>, part: Cosignature)
    requires DistinctSigners(cr, parts + [part])
    ensures EntryOf(cr, part).pkh !in SignatureMap(EntriesOf(cr, parts))
  {
    var entries, k := EntriesOf(cr, parts), EntryOf(cr, part).pkh;
    var more := parts + [part];
    forall e | e in entries ensures e.pkh != k {
      var i :| 0 <= i < |entries| && entries[i] == e;
      assert more[i] == parts[i] && more[|parts|] == part;
    }
  }

  lemma {:induction false} SignatureMapSize(cr: Crypto, parts: seq<Cosignature>)
    requires DistinctSigners(cr, parts)
    ensures |SignatureMap(EntriesOf(cr, parts))| == |parts|
  {
    if parts != [] {
      var fewer, last := parts[..|parts| - 1], parts[|parts| - 1];
      assert parts == fewer + [last];
      SignatureMapSize(cr, fewer);
      NewSigner(cr, fewer, last);
      MapGrows(cr, fewer, last);
    }
  }

  lemma EntryInMap(cr: Crypto, parts: seq<Cosignature>, i: nat)
    requires DistinctSigners(cr, parts) && i < |parts|
    ensures var e := EntryOf(cr, parts[i]);
            e.pkh in SignatureMap(EntriesOf(cr, parts)) && SignatureMap(EntriesOf(cr, parts))[e.pkh] == e
  {
    var entries := EntriesOf(cr, parts);
    var sigs := SignatureMap(entries);
    assert entries[i] in entries && entries[i].pkh in sigs;
    var e := sigs[entries[i].pkh];
    var j :| 0 <= j < |entries| && entries[j] == e;
    assert entries[j] == EntryOf(cr, parts[j]) && entries[i] == EntryOf(cr, parts[i])
        && entries[j].pkh == entries[i].pkh;
    assert j == i by {
      assert cr.pubkeyHash(parts[j].pubkey) == cr.pubkeyHash(parts[i].pubkey);
    }
  }

  lemma MapHasOnlyParts(cr: Crypto, parts: seq<Cosignature>, k: Digest)
    requires k in SignatureMap(EntriesOf(cr, parts))
    ensures exists i | 0 <= i < |parts| ::
              SignatureMap(EntriesOf(cr, parts))[k] == EntryOf(cr, parts[i]) && EntryOf(cr, parts[i]).pkh == k
  {
    var entries := EntriesOf(cr, parts);
    var i :| 0 <= i < |entries| && entries[i] == SignatureMap(entries)[k];
    assert entries[i] == EntryOf(cr, parts[i]);
  }

  /** For distinct signers the builder's rule is the chain's. */
  lemma SignaturesAgree(cr: Crypto, rule: LockPrimitive, parts: seq<Cosignature>, sigHash: Digest,
                        preimages: map<Digest, Noun>, since: nat, now: nat)
    requires rule.Pkh? && DistinctSigners(cr, parts)
    ensures ConjunctAccepted(cr, rule, SignatureMap(EntriesOf(cr, parts)), preimages, sigHash, since, now)
       <==> |parts| == rule.m && PartsValid(cr, rule.hashes, parts, sigHash)
  {
    var sigs := SignatureMap(EntriesOf(cr, parts));
    SignatureMapSize(cr, parts);
    if ConjunctAccepted(cr, rule, sigs, preimages, sigHash, since, now) {
      forall i | 0 <= i < |parts|
        ensures cr.pubkeyHash(parts[i].pubkey) in rule.hashes
          && cr.verifies(parts[i].pubkey, sigHash, parts[i].signature)
      {
        EntryInMap(cr, parts, i);
      }
    }
    if |parts| == rule.m && PartsValid(cr, rule.hashes, parts, sigHash) {
      forall k | k in sigs
        ensures k in rule.hashes && cr.pubkeyHash(sigs[k].pubkey) == k
        ensures cr.verifies(sigs[k].pubkey, sigHash, sigs[k].signature)
      {
        MapHasOnlyParts(cr, parts, k);
      }
    }
  }

  /** A branch with one `%pkh` at most: two would each demand the whole signature map. */
  predicate AtMostOnePkh(condition: SpendCondition) {
    forall p, q | p in condition && q in condition && p.Pkh? && q.Pkh? :: p == q
  }

  lemma BuiltProofAccepted(lh: LockHasher, lock: Lock, branch: nat, now: nat, bythos: nat)
    requires Perfect(lock) && LockProofOf(lh, lock, branch, now, bythos).Success?
    ensures ProofAccepted(lh, LockRoot(lh, lock), LockProofOf(lh, lock, branch, now, bythos).value, now, bythos)
  {
    BranchCount(lock);
    var k, lmp := branch - 1, LockProofOf(lh, lock, branch, now, bythos).value;
    assert lmp.proof == BranchProof(lh, lock, k) && lmp.axis == BranchAxis(lock, k)
        && lmp.condition == Flatten(lock)[k];
    assert lmp.full <==> now >= bythos;
    assert lock.Branch? ==> lmp.axis == 1;
    BranchFolds(lh, lock, k);
    assert lmp.proof.root == LockRoot(lh, lock) && Verifies(lh, lh.condition(lmp.condition), lmp.axis, lmp.proof);
  }

  /** The signature half of the chain's verdict: the map verifies, and satisfies the branch. */
  ghost predicate SignaturesAccepted(cr: Crypto, condition: SpendCondition, parts: seq<Cosignature>, sigHash: Digest) {
    var none: map<Digest, Noun> := map[];
    && AllVerify(cr, SignatureMap(EntriesOf(cr, parts)), sigHash)
    && forall p | p in condition && p.Pkh? ::
      ConjunctAccepted(cr, p, SignatureMap(EntriesOf(cr, parts)), none, sigHash, 0, 0)
  }

  /** On a burn-free branch inside its window the chain's verdict is the signatures' and the preimages'. */
  lemma ChainVerdict(cr: Crypto, condition: SpendCondition, parts: seq<Cosignature>, sigHash: Digest,
                     hax: seq<HaxPreimage>, since: nat, now: nat)
    requires (forall p | p in condition :: !p.Burn?) && BranchWindowOpen(condition, since, now)
    ensures (AllVerify(cr, SignatureMap(EntriesOf(cr, parts)), sigHash) && forall p | p in condition ::
               ConjunctAccepted(cr, p, SignatureMap(EntriesOf(cr, parts)), PreimageMap(hax), sigHash, since, now))
       <==> SignaturesAccepted(cr, condition, parts, sigHash) && PreimagesMapped(cr, condition, hax)
  {
  }

  /** Whether no part is one too many: no signer repeated, and none where the branch asks for none. */
  predicate NoneTooMany(cr: Crypto, condition: SpendCondition, parts: seq<Cosignature>) {
    DistinctSigners(cr, parts) && (FirstPkh(condition).None? ==> parts == [])
  }

  /** The builder's rule for the parts is the chain's for the signatures, and no part too many. */
  lemma PartsVerdict(cr: Crypto, condition: SpendCondition, parts: seq<Cosignature>, sigHash: Digest)
    requires AtMostOnePkh(condition)
    ensures PartsWanted(cr, condition, parts, sigHash)
       <==> SignaturesAccepted(cr, condition, parts, sigHash) && NoneTooMany(cr, condition, parts)
  {
    var none: map<Digest, Noun> := map[];
    if FirstPkh(condition).Some? && DistinctSigners(cr, parts) {
      SignaturesAgree(cr, FirstPkh(condition).value, parts, sigHash, none, 0, 0);
      MapVerifies(cr, parts, sigHash);
    }
  }

  /** The conditions under which the builder and the chain are compared: the lock proof builds, and the branch is
      burn-free, inside its window, with one `%pkh` at most. */
  predicate Comparable(lh: LockHasher, lock: Lock, branch: nat, since: nat, now: nat, bythos: nat) {
    && Perfect(lock) && LockProofOf(lh, lock, branch, now, bythos).Success?
    && var condition := LockProofOf(lh, lock, branch, now, bythos).value.condition;
       AtMostOnePkh(condition) && (forall p | p in condition :: !p.Burn?) && BranchWindowOpen(condition, since, now)
  }

  /** The branch, and the chain's verdict on the witness these parts and preimages make. */
  function ConditionOf(lh: LockHasher, lock: Lock, branch: nat, now: nat, bythos: nat): SpendCondition
    requires Perfect(lock) && LockProofOf(lh, lock, branch, now, bythos).Success?
  {
    LockProofOf(lh, lock, branch, now, bythos).value.condition
  }

  ghost predicate Accepted(lh: LockHasher, cr: Crypto, lock: Lock, branch: nat, since: nat, now: nat, bythos: nat,
                           parts: seq<Cosignature>, sigHash: Digest, hax: seq<HaxPreimage>)
    requires Perfect(lock) && LockProofOf(lh, lock, branch, now, bythos).Success?
  {
    var lmp := LockProofOf(lh, lock, branch, now, bythos).value;
    ChainAccepts(lh, cr, LockRoot(lh, lock), Assembled(cr, lmp, parts, hax), sigHash, since, now, bythos)
  }

  lemma AcceptedVerdict(lh: LockHasher, cr: Crypto, lock: Lock, branch: nat, since: nat, now: nat, bythos: nat,
                        parts: seq<Cosignature>, sigHash: Digest, hax: seq<HaxPreimage>)
    requires Comparable(lh, lock, branch, since, now, bythos)
    ensures var condition := ConditionOf(lh, lock, branch, now, bythos);
            Accepted(lh, cr, lock, branch, since, now, bythos, parts, sigHash, hax)
            <==> SignaturesAccepted(cr, condition, parts, sigHash) && PreimagesMapped(cr, condition, hax)
  {
    BuiltProofAccepted(lh, lock, branch, now, bythos);
    ChainVerdict(cr, ConditionOf(lh, lock, branch, now, bythos), parts, sigHash, hax, since, now);
  }

  /** The builder agrees with the chain: what it builds the chain accepts, and the other way round if no part is one
      too many. This holds if and only if, once the parts are in order, the first preimages and the map's answer the
      branch alike; and they do when labels are distinct. */
  lemma BuilderAgreesWithChain(lh: LockHasher, cr: Crypto, lock: Lock, branch: nat, since: nat, now: nat, bythos: nat,
                               parts: seq<Cosignature>, sigHash: Digest, hax: seq<HaxPreimage>)
    requires Comparable(lh, lock, branch, since, now, bythos)
    ensures var condition := ConditionOf(lh, lock, branch, now, bythos);
            var built := Wanted(lh, cr, lock, branch, now, bythos, parts, sigHash, hax);
            var accepted := Accepted(lh, cr, lock, branch, since, now, bythos, parts, sigHash, hax)
                            && NoneTooMany(cr, condition, parts);
            && ((built <==> accepted) <==>
                  (PartsWanted(cr, condition, parts, sigHash) ==>
                     (PreimagesWanted(cr, condition, hax) <==> PreimagesMapped(cr, condition, hax))))
            && (DistinctLabels(hax) ==> (built <==> accepted))
  {
    var condition := ConditionOf(lh, lock, branch, now, bythos);
    AcceptedVerdict(lh, cr, lock, branch, since, now, bythos, parts, sigHash, hax);
    PartsVerdict(cr, condition, parts, sigHash);
    if DistinctLabels(hax) {
      LabelsSettle(cr, condition, hax);
    }
  }

  lemma LabelsSettle(cr: Crypto, condition: SpendCondition, hax: seq<HaxPreimage>)
    requires DistinctLabels(hax) && (forall p | p in condition :: !p.Burn?)
    ensures PreimagesWanted(cr, condition, hax) <==> PreimagesMapped(cr, condition, hax)
  {
    forall wanted: Digest { PreimagesAgree(cr, hax, wanted); }
  }

  // ----- Where the builder is stricter

  lemma RepeatAddsNothing(cr: Crypto, parts: seq<Cosignature>, i: nat)
    requires DistinctSigners(cr, parts) && i < |parts|
    ensures SignatureMap(EntriesOf(cr, parts + [parts[i]])) == SignatureMap(EntriesOf(cr, parts))
  {
    MapGrows(cr, parts, parts[i]);
    EntryInMap(cr, parts, i);
  }

  /** A repeated signer: to whatever the builder builds, add one of its parts again. The chain sees the same map and
      accepts; the builder refuses. */
  lemma RepeatedSignerIsRefused(lh: LockHasher, cr: Crypto, lock: Lock, branch: nat, since: nat, now: nat, bythos: nat,
                                parts: seq<Cosignature>, sigHash: Digest, hax: seq<HaxPreimage>, i: nat)
    requires Comparable(lh, lock, branch, since, now, bythos) && i < |parts|
    requires Wanted(lh, cr, lock, branch, now, bythos, parts, sigHash, hax)
    requires Accepted(lh, cr, lock, branch, since, now, bythos, parts, sigHash, hax)
    ensures Accepted(lh, cr, lock, branch, since, now, bythos, parts + [parts[i]], sigHash, hax)
    ensures !Wanted(lh, cr, lock, branch, now, bythos, parts + [parts[i]], sigHash, hax)
  {
    var condition, more := ConditionOf(lh, lock, branch, now, bythos), parts + [parts[i]];
    PartsVerdict(cr, condition, parts, sigHash);
    PartsVerdict(cr, condition, more, sigHash);
    RepeatAddsNothing(cr, parts, i);
    AcceptedVerdict(lh, cr, lock, branch, since, now, bythos, parts, sigHash, hax);
    AcceptedVerdict(lh, cr, lock, branch, since, now, bythos, more, sigHash, hax);
    assert more[i] == more[|parts|];
  }

  /** A superfluous signature: on a branch without a `%pkh` the chain asks of the signatures only that those in the map
      verify, and the builder refuses every one. For distinct signers these are all the signatures. */
  lemma SuperfluousPartIsRefused(lh: LockHasher, cr: Crypto, lock: Lock, branch: nat, since: nat, now: nat, bythos: nat,
                                 parts: seq<Cosignature>, sigHash: Digest, hax: seq<HaxPreimage>)
    requires Comparable(lh, lock, branch, since, now, bythos) && parts != []
    requires FirstPkh(ConditionOf(lh, lock, branch, now, bythos)).None?
    ensures Accepted(lh, cr, lock, branch, since, now, bythos, parts, sigHash, hax)
       <==> Accepted(lh, cr, lock, branch, since, now, bythos, [], sigHash, hax)
              && AllVerify(cr, SignatureMap(EntriesOf(cr, parts)), sigHash)
    ensures DistinctSigners(cr, parts) ==>
      (Accepted(lh, cr, lock, branch, since, now, bythos, parts, sigHash, hax)
       <==> Accepted(lh, cr, lock, branch, since, now, bythos, [], sigHash, hax) && PartsVerify(cr, parts, sigHash))
    ensures !Wanted(lh, cr, lock, branch, now, bythos, parts, sigHash, hax)
  {
    var none: seq<Cosignature> := [];
    AcceptedVerdict(lh, cr, lock, branch, since, now, bythos, parts, sigHash, hax);
    AcceptedVerdict(lh, cr, lock, branch, since, now, bythos, none, sigHash, hax);
    if DistinctSigners(cr, parts) {
      MapVerifies(cr, parts, sigHash);
    }
  }

  predicate PartsVerify(cr: Crypto, parts: seq<Cosignature>, sigHash: Digest) {
    forall i | 0 <= i < |parts| :: cr.verifies(parts[i].pubkey, sigHash, parts[i].signature)
  }

  /** For distinct signers the map verifies exactly when every part does. */
  lemma MapVerifies(cr: Crypto, parts: seq<Cosignature>, sigHash: Digest)
    requires DistinctSigners(cr, parts)
    ensures AllVerify(cr, SignatureMap(EntriesOf(cr, parts)), sigHash) <==> PartsVerify(cr, parts, sigHash)
  {
    var sigs := SignatureMap(EntriesOf(cr, parts));
    forall i | 0 <= i < |parts|
      ensures EntryOf(cr, parts[i]).pkh in sigs && sigs[EntryOf(cr, parts[i]).pkh] == EntryOf(cr, parts[i])
    {
      EntryInMap(cr, parts, i);
    }
    forall k | k in sigs ensures exists i | 0 <= i < |parts| :: sigs[k] == EntryOf(cr, parts[i]) {
      MapHasOnlyParts(cr, parts, k);
    }
  }

  /** As on a branch that is only a timelock. */
  lemma SuperfluousPartOnATimelock(lh: LockHasher, cr: Crypto, delay: u64, since: nat, now: nat, bythos: nat,
                                   part: Cosignature, sigHash: Digest)
    requires now >= since + delay && cr.verifies(part.pubkey, sigHash, part.signature)
    ensures var lock := Branch([Relative(Some(delay), None)]);
            && Perfect(lock) && LockProofOf(lh, lock, 1, now, bythos).Success?
            && Accepted(lh, cr, lock, 1, since, now, bythos, [part], sigHash, [])
            && !Wanted(lh, cr, lock, 1, now, bythos, [part], sigHash, [])
  {
    var lock := Branch([Relative(Some(delay), None)]);
    var none: seq<Cosignature> := [];
    AcceptedVerdict(lh, cr, lock, 1, since, now, bythos, none, sigHash, []);
    SuperfluousPartIsRefused(lh, cr, lock, 1, since, now, bythos, [part], sigHash, []);
  }
}
