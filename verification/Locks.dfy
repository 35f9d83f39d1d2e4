/** Locks, their primitives, and what the chain demands of a spend. */
module Locks {
  import opened Wrappers
  import opened Field

  /** Inclusive bounds on a height; a bound of zero is dropped when the range is made. */
  datatype Range = Range(min: Option<u64>, max: Option<u64>)

  const ANY_HEIGHT := Range(None, None)

  function KeepNonZero(bound: Option<u64>): Option<u64> {
    if bound == Some(0) then None else bound
  }

  function NewRange(min: Option<u64>, max: Option<u64>): Range {
    Range(KeepNonZero(min), KeepNonZero(max))
  }

  /** A relative range counts from the note's origin page, an absolute one from height 0. */
  datatype LockPrimitive =
    | Pkh(m: nat, hashes: set<Digest>)
    | Tim(rel: Range, abs: Range)
    | Hax(facts: set<Digest>)
    | Burn

  /** The conjuncts of one branch. */
  type SpendCondition = seq<LockPrimitive>

  datatype Lock = Branch(condition: SpendCondition) | Fork(p: Lock, q: Lock)

  function Two(a: SpendCondition, b: SpendCondition): Lock {
    Fork(Branch(a), Branch(b))
  }

  function Four(a: SpendCondition, b: SpendCondition, c: SpendCondition, d: SpendCondition): Lock {
    Fork(Two(a, b), Two(c, d))
  }

  /** The branches from left to right: branch `k` of the chain is element `k - 1`. */
  function Flatten(lock: Lock): (r: seq<SpendCondition>)
    ensures |r| >= 1
  {
    match lock
    case Branch(condition) => [condition]
    case Fork(p, q) => Flatten(p) + Flatten(q)
  }

  lemma FlattenTwo(a: SpendCondition, b: SpendCondition)
    ensures Flatten(Two(a, b)) == [a, b]
  {
    assert Flatten(Branch(a)) == [a] && Flatten(Branch(b)) == [b];
    assert Flatten(Two(a, b)) == Flatten(Branch(a)) + Flatten(Branch(b));
  }

  lemma FlattenFour(a: SpendCondition, b: SpendCondition, c: SpendCondition, d: SpendCondition)
    ensures Flatten(Four(a, b, c, d)) == [a, b, c, d]
  {
    FlattenTwo(a, b);
    FlattenTwo(c, d);
    assert Flatten(Four(a, b, c, d)) == Flatten(Two(a, b)) + Flatten(Two(c, d));
  }

  datatype LockError =
    | ZeroThreshold
    | ThresholdTooHigh
    | SameKey
    | ZeroWindow
    | WindowTooShort
    | NotAFieldElement
    | NoBlockLeft
    | ClaimNotAfterReport
    | NotADigest
    | EqualFacts

  /** A bound of zero is dropped, and every other is kept. */
  lemma ZeroBoundsAreDropped(bound: u64)
    ensures NewRange(Some(bound), None) == Range(if bound == 0 then None else Some(bound), None)
    ensures NewRange(None, Some(bound)) == Range(None, if bound == 0 then None else Some(bound))
  {
  }

  /** A `%pkh` conjunct that somebody can satisfy, and nobody for free. */
  function PkhConjunct(m: nat, members: seq<Digest>): Result<LockPrimitive, LockError> {
    var hashes := set h | h in members;
    if m == 0 then Failure(ZeroThreshold)
    else if |hashes| < m then Failure(ThresholdTooHigh)
    else Success(Pkh(m, hashes))
  }

  function Relative(min: Option<u64>, max: Option<u64>): LockPrimitive {
    Tim(NewRange(min, max), ANY_HEIGHT)
  }

  function Absolute(min: Option<u64>, max: Option<u64>): LockPrimitive {
    Tim(ANY_HEIGHT, NewRange(min, max))
  }

  predicate AllDistinct(facts: seq<Digest>) {
    forall i, j | 0 <= i < j < |facts| :: facts[i] != facts[j]
  }

  /** The `%hax` carrying facts in an address: every fact a digest, no two of them equal. */
  function FactsHax(facts: seq<Digest>): Result<LockPrimitive, LockError> {
    if exists f | f in facts :: !Canonical(f) then Failure(NotADigest)
    else if !AllDistinct(facts) then Failure(EqualFacts)
    else Success(Hax(set f | f in facts))
  }

  function RefuseSameKey(a: Digest, b: Digest): Result<(), LockError> {
    Need(a != b, SameKey)
  }

  /** Refuses a bound that the chain would drop, or that is not a field element. */
  function RefuseZeroWindow(v: u64): Result<(), LockError> {
    var _ :- Need(v != 0, ZeroWindow);
    Need(v < PRIME, NotAFieldElement)
  }

  // ----- The chain's side

  predicate TimOpen(t: LockPrimitive, since: nat, now: nat)
    requires t.Tim?
  {
    && (t.rel.min.Some? ==> now >= since + t.rel.min.value)
    && (t.rel.max.Some? ==> now <= since + t.rel.max.value)
    && (t.abs.min.Some? ==> now >= t.abs.min.value)
    && (t.abs.max.Some? ==> now <= t.abs.max.value)
  }

  /** `branch_window_open`: the time question alone. */
  predicate BranchWindowOpen(branch: SpendCondition, since: nat, now: nat) {
    forall p | p in branch :: p.Tim? ==> TimOpen(p, since, now)
  }

  /** What the chain asks of one conjunct. `signers` are the keys of the witness's signature map, every
      signature checked; `published` the digests whose preimages the witness carries. The whole map must
      match a `%pkh`'s count, and a burn never holds. */
  predicate Holds(p: LockPrimitive, signers: set<Digest>, published: set<Digest>, since: nat, now: nat) {
    match p
    case Pkh(m, hashes) => |signers| == m && signers <= hashes
    case Tim(_, _) => TimOpen(p, since, now)
    case Hax(facts) => facts <= published
    case Burn => false
  }

  predicate Spendable(branch: SpendCondition, signers: set<Digest>, published: set<Digest>, since: nat, now: nat) {
    forall p | p in branch :: Holds(p, signers, published, since, now)
  }

  /** Whether a signature map satisfies a `%pkh` rule of the branch. */
  predicate PkhSatisfied(branch: SpendCondition, signers: set<Digest>) {
    exists p | p in branch :: p.Pkh? && |signers| == p.m && signers <= p.hashes
  }

  /** It is built exactly for thresholds from 1 to the number of different keys, and refused by its own cause. */
  lemma PkhConjunctExactly(m: nat, members: seq<Digest>)
    ensures var keys := set k | k in members;
            PkhConjunct(m, members) == if m == 0 then Failure(ZeroThreshold)
                                       else if m > |keys| then Failure(ThresholdTooHigh) else Success(Pkh(m, keys))
  {
  }

  /** A conjunct that `PkhConjunct` built has signers who satisfy it, and the empty witness is not one. */
  lemma PkhConjunctUsable(m: nat, members: seq<Digest>)
    requires PkhConjunct(m, members).Success?
    ensures !Holds(PkhConjunct(m, members).value, {}, {}, 0, 0)
    ensures exists signers: set<Digest> :: Holds(PkhConjunct(m, members).value, signers, {}, 0, 0)
  {
    var hashes := set h | h in members;
    var signers := SubsetOfSize(hashes, m);
    assert Holds(PkhConjunct(m, members).value, signers, {}, 0, 0);
  }

  /** And the refusals are right: what it refuses is satisfied by the empty witness or by nobody. */
  lemma PkhConjunctRefusals(m: nat, members: seq<Digest>, signers: set<Digest>)
    requires PkhConjunct(m, members).Failure?
    ensures var p := Pkh(m, set h | h in members);
            if m == 0 then Holds(p, {}, {}, 0, 0) else !Holds(p, signers, {}, 0, 0)
  {
    var hashes := set h | h in members;
    if m != 0 && signers <= hashes {
      SubsetCardinality(signers, hashes);
    }
  }

  lemma SubsetCardinality<T>(a: set<T>, b: set<T>)
    requires a <= b
    ensures |a| <= |b|
    ensures |a| == |b| ==> a == b
  {
    assert b == a + (b - a);
    assert |b| == |a| + |b - a|;
    if |a| == |b| {
      assert b - a == {};
    }
  }

  lemma {:induction false} SubsetOfSize<T>(s: set<T>, n: nat) returns (r: set<T>)
    requires n <= |s|
    ensures r <= s && |r| == n
    decreases |s|
  {
    if n == |s| {
      r := s;
    } else {
      var x :| x in s;
      r := SubsetOfSize(s - {x}, n);
    }
  }
}
