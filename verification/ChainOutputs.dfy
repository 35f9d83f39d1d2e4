/** What the chain makes of a transaction's seeds: outputs merged by lock root, and the checks they must pass. */
module ChainOutputs {
  import opened Wrappers
  import opened Field
  import opened Sums
  import opened Tx
  import opened OutputPin

  /** One merged output: its seeds, a set that keeps their pins, and the assets its note is given. */
  datatype Child = Child(seeds: set<Landed>, assets: nat)

  function ChildAt(acc: map<Digest, Child>, root: Digest): Child {
    if root in acc then acc[root] else Child({}, 0)
  }

  /** Every seed adds its gift, also one that is in the set already. */
  function Merged(child: Child, s: Landed): Child {
    Child(child.seeds + {s}, child.assets + s.output.gift)
  }

  /** `build-outputs`: the accumulator is made once and threaded across every spend. */
  function Accumulate(acc: map<Digest, Child>, seeds: seq<Landed>): map<Digest, Child>
    decreases |seeds|
  {
    if seeds == [] then acc else
      var root := seeds[0].output.lockRoot;
      Accumulate(acc[root := Merged(ChildAt(acc, root), seeds[0])], seeds[1..])
  }

  function BuildOutputs(seeds: seq<Landed>): map<Digest, Child> {
    Accumulate(map[], seeds)
  }

  /** The group as the chain hashes it: every pin stripped. */
  function Normalized(seeds: set<Landed>): set<Output> {
    set s | s in seeds :: s.output
  }

  function GiftOf(): Landed -> nat {
    (s: Landed) => s.output.gift
  }

  ghost function SetGifts(seeds: set<Landed>): nat {
    Sum(seeds, GiftOf())
  }

  /** The two halves of `validate:output`: every pin is the group's source, and the set's gifts sum to the note's
      assets. */
  ghost predicate ClaimsHold(h: SeedsHash, child: Child) {
    forall s | s in child.seeds && s.pin.Some? :: s.pin.value == Source(h(Normalized(child.seeds)), false)
  }

  ghost predicate AssetsHold(child: Child) {
    SetGifts(child.seeds) == child.assets
  }

  /** The outputs of a transaction are valid when both halves hold of each. */
  ghost predicate OutputsValid(h: SeedsHash, seeds: seq<Landed>) {
    var outputs := BuildOutputs(seeds);
    forall root | root in outputs :: ClaimsHold(h, outputs[root]) && AssetsHold(outputs[root])
  }

  // ----- The outputs in closed form

  function LandedAt(seeds: seq<Landed>, root: Digest): set<Landed> {
    set s | s in seeds && s.output.lockRoot == root
  }

  function Gifts(seeds: seq<Landed>): nat {
    if seeds == [] then 0 else seeds[0].output.gift + Gifts(seeds[1..])
  }

  function GiftsAt(seeds: seq<Landed>, root: Digest): nat {
    if seeds == [] then 0 else
      (if seeds[0].output.lockRoot == root then seeds[0].output.gift else 0) + GiftsAt(seeds[1..], root)
  }

  lemma LandedAtStep(seeds: seq<Landed>, root: Digest)
    requires seeds != []
    ensures LandedAt(seeds, root)
         == (if seeds[0].output.lockRoot == root then {seeds[0]} else {}) + LandedAt(seeds[1..], root)
  {
    assert seeds == [seeds[0]] + seeds[1..];
  }

  lemma {:induction false} AccumulateAt(acc: map<Digest, Child>, seeds: seq<Landed>, root: Digest)
    ensures root in Accumulate(acc, seeds) <==> root in acc || LandedAt(seeds, root) != {}
    ensures ChildAt(Accumulate(acc, seeds), root)
         == Child(ChildAt(acc, root).seeds + LandedAt(seeds, root), ChildAt(acc, root).assets + GiftsAt(seeds, root))
    decreases |seeds|
  {
    if seeds != [] {
      var at := seeds[0].output.lockRoot;
      AccumulateAt(acc[at := Merged(ChildAt(acc, at), seeds[0])], seeds[1..], root);
      LandedAtStep(seeds, root);
    }
  }

  /** At every lock root paid: the set of all seeds there, and the sum of all their gifts. */
  lemma OutputAt(seeds: seq<Landed>, root: Digest)
    ensures root in BuildOutputs(seeds) <==> LandedAt(seeds, root) != {}
    ensures root in BuildOutputs(seeds) ==>
              BuildOutputs(seeds)[root] == Child(LandedAt(seeds, root), GiftsAt(seeds, root))
  {
    var none: map<Digest, Child> := map[];
    AccumulateAt(none, seeds, root);
  }

  // ----- Assets

  function AssetsOf(outputs: map<Digest, Child>): Digest -> nat {
    root => if root in outputs then outputs[root].assets else 0
  }

  /** What the notes of the merged outputs hold together. */
  ghost function MergedAssets(outputs: map<Digest, Child>): nat {
    Sum(outputs.Keys, AssetsOf(outputs))
  }

  lemma {:induction false} AccumulateAssets(acc: map<Digest, Child>, seeds: seq<Landed>)
    ensures MergedAssets(Accumulate(acc, seeds)) == MergedAssets(acc) + Gifts(seeds)
    decreases |seeds|
  {
    if seeds != [] {
      var root := seeds[0].output.lockRoot;
      var child := Merged(ChildAt(acc, root), seeds[0]);
      AccumulateAssets(acc[root := child], seeds[1..]);
      SumUpdate(acc.Keys, AssetsOf(acc), root, AssetsOf(acc[root := child]));
      assert acc[root := child].Keys == acc.Keys + {root};
    }
  }

  /** Merging neither makes nor loses value: for every list of seeds, whatever lock roots they share and whatever is
      repeated, the merged notes hold the sum of all gifts. */
  lemma MergedAssetsAreGifts(seeds: seq<Landed>)
    ensures MergedAssets(BuildOutputs(seeds)) == Gifts(seeds)
  {
    var none: map<Digest, Child> := map[];
    AccumulateAssets(none, seeds);
    assert none.Keys == {};
  }

  lemma SetGiftsGrow(seeds: set<Landed>, s: Landed)
    ensures SetGifts(seeds + {s}) == SetGifts(seeds) + if s in seeds then 0 else s.output.gift
  {
    if s in seeds {
      assert seeds + {s} == seeds;
    } else {
      SumUpdate(seeds, GiftOf(), s, GiftOf());
    }
  }

  /** No seed that carries a gift is there twice, pin included. */
  predicate PaidOnce(seeds: seq<Landed>) {
    forall i, j | 0 <= i < j < |seeds| && seeds[i] == seeds[j] :: seeds[i].output.gift == 0
  }

  predicate PaidOnceAt(seeds: seq<Landed>, root: Digest) {
    forall i, j | 0 <= i < j < |seeds| && seeds[i] == seeds[j] && seeds[i].output.lockRoot == root ::
      seeds[i].output.gift == 0
  }

  lemma PaidOnceAtStep(seeds: seq<Landed>, root: Digest)
    requires seeds != []
    ensures PaidOnceAt(seeds, root) <==>
              PaidOnceAt(seeds[1..], root)
              && (seeds[0].output.lockRoot == root && seeds[0] in seeds[1..] ==> seeds[0].output.gift == 0)
  {
    var rest := seeds[1..];
    assert forall i | 0 <= i < |rest| :: rest[i] == seeds[i + 1];
    if PaidOnceAt(seeds, root) && seeds[0] in rest {
      var i :| 0 <= i < |rest| && rest[i] == seeds[0];
      assert seeds[0] == seeds[i + 1];
    }
    if PaidOnceAt(seeds, root) {
      forall i, j | 0 <= i < j < |rest| && rest[i] == rest[j] && rest[i].output.lockRoot == root
        ensures rest[i].output.gift == 0
      {
        assert seeds[i + 1] == seeds[j + 1];
      }
    }
    if PaidOnceAt(rest, root) && (seeds[0].output.lockRoot == root && seeds[0] in rest ==> seeds[0].output.gift == 0) {
      forall i, j | 0 <= i < j < |seeds| && seeds[i] == seeds[j] && seeds[i].output.lockRoot == root
        ensures seeds[i].output.gift == 0
      {
        assert seeds[j] == rest[j - 1];
        if i > 0 {
          assert seeds[i] == rest[i - 1];
        }
      }
    }
  }

  lemma {:induction false} SetGiftsAt(seeds: seq<Landed>, root: Digest)
    ensures SetGifts(LandedAt(seeds, root)) <= GiftsAt(seeds, root)
    ensures SetGifts(LandedAt(seeds, root)) == GiftsAt(seeds, root) <==> PaidOnceAt(seeds, root)
  {
    if seeds == [] {
      assert LandedAt(seeds, root) == {};
    } else {
      SetGiftsAt(seeds[1..], root);
      LandedGifts(seeds, root);
      PaidOnceAtStep(seeds, root);
    }
  }

  /** One more seed: the set of its root gains its gift unless it holds that very seed. */
  lemma LandedGifts(seeds: seq<Landed>, root: Digest)
    requires seeds != []
    ensures SetGifts(LandedAt(seeds, root)) == SetGifts(LandedAt(seeds[1..], root))
              + if seeds[0].output.lockRoot == root && seeds[0] !in seeds[1..] then seeds[0].output.gift else 0
  {
    var before, s := LandedAt(seeds[1..], root), seeds[0];
    LandedAtStep(seeds, root);
    if s.output.lockRoot == root {
      assert {s} + before == before + {s};
      SetGiftsGrow(before, s);
    } else {
      assert {} + before == before;
    }
  }

  /** The assets check passes at every lock root exactly when no seed that carries a gift is repeated, its pin
      included: the chain refuses a repeated seed, and does not drop it. */
  lemma AssetsHoldExactly(seeds: seq<Landed>)
    ensures (forall root | root in BuildOutputs(seeds) :: AssetsHold(BuildOutputs(seeds)[root])) <==> PaidOnce(seeds)
  {
    var outputs := BuildOutputs(seeds);
    forall root ensures root in outputs ==> (AssetsHold(outputs[root]) <==> PaidOnceAt(seeds, root)) {
      OutputAt(seeds, root);
      SetGiftsAt(seeds, root);
    }
    if forall root | root in outputs :: AssetsHold(outputs[root]) {
      forall i, j | 0 <= i < j < |seeds| && seeds[i] == seeds[j] ensures seeds[i].output.gift == 0 {
        var root := seeds[i].output.lockRoot;
        OutputAt(seeds, root);
        assert seeds[i] in LandedAt(seeds, root);
      }
    }
  }

  // ----- Claims

  /** All outputs at one lock root. */
  function GroupOf(seeds: seq<Landed>, root: Digest): set<Output> {
    set s | s in seeds && s.output.lockRoot == root :: s.output
  }

  lemma NormalizedIsGroup(seeds: seq<Landed>, root: Digest)
    ensures Normalized(LandedAt(seeds, root)) == GroupOf(seeds, root)
  {
  }

  function OutputsIn(seeds: seq<Landed>): set<Output> {
    set s | s in seeds :: s.output
  }

  /** The groups that are hashed depend on the outputs only: not on the order of the seeds, nor on pins or repeats. */
  lemma GroupsIgnoreOrderAndPins(a: seq<Landed>, b: seq<Landed>, root: Digest)
    requires OutputsIn(a) == OutputsIn(b)
    ensures root in BuildOutputs(a) <==> root in BuildOutputs(b)
    ensures root in BuildOutputs(a) ==>
              Normalized(BuildOutputs(a)[root].seeds) == Normalized(BuildOutputs(b)[root].seeds) == GroupOf(a, root)
  {
    OutputAt(a, root);
    OutputAt(b, root);
    NormalizedIsGroup(a, root);
    NormalizedIsGroup(b, root);
    SubGroup(a, b, root);
    SubGroup(b, a, root);
    assert LandedAt(a, root) == {} <==> Normalized(LandedAt(a, root)) == {} by {
      NormalizedEmpty(LandedAt(a, root));
    }
    assert LandedAt(b, root) == {} <==> Normalized(LandedAt(b, root)) == {} by {
      NormalizedEmpty(LandedAt(b, root));
    }
  }

  lemma SubGroup(a: seq<Landed>, b: seq<Landed>, root: Digest)
    requires OutputsIn(a) <= OutputsIn(b)
    ensures GroupOf(a, root) <= GroupOf(b, root)
  {
    forall o | o in GroupOf(a, root) ensures o in GroupOf(b, root) {
      var s :| s in a && s.output.lockRoot == root && s.output == o;
      assert s.output in OutputsIn(a);
      var t :| t in b && t.output == o;
    }
  }

  lemma NormalizedEmpty(seeds: set<Landed>)
    ensures seeds == {} <==> Normalized(seeds) == {}
  {
    if s :| s in seeds {
      assert s.output in Normalized(seeds);
    }
  }

  ghost predicate ClaimHolds(h: SeedsHash, seeds: seq<Landed>, s: Landed) {
    s.pin.Some? ==> s.pin.value == Source(h(GroupOf(seeds, s.output.lockRoot)), false)
  }

  /** A transaction's outputs are valid exactly when every pin claims the group of all seeds at its lock root, pins
      stripped, and no seed that carries a gift is repeated. */
  lemma ValidExactly(h: SeedsHash, seeds: seq<Landed>)
    ensures OutputsValid(h, seeds) <==> (forall s | s in seeds :: ClaimHolds(h, seeds, s)) && PaidOnce(seeds)
  {
    var outputs := BuildOutputs(seeds);
    AssetsHoldExactly(seeds);
    forall root ensures root in outputs ==>
        (ClaimsHold(h, outputs[root]) <==> forall s | s in LandedAt(seeds, root) :: ClaimHolds(h, seeds, s))
    {
      OutputAt(seeds, root);
      NormalizedIsGroup(seeds, root);
    }
    forall s | s in seeds ensures s.output.lockRoot in outputs && s in LandedAt(seeds, s.output.lockRoot) {
      assert s in LandedAt(seeds, s.output.lockRoot);
      OutputAt(seeds, s.output.lockRoot);
    }
    forall root | root in outputs ensures forall s | s in LandedAt(seeds, root) :: s in seeds {
    }
  }

  /** A seed met twice is counted twice and refused. */
  lemma RepeatIsRefused(h: SeedsHash, seeds: seq<Landed>, s: Landed)
    requires seeds == [s, s] && s.output.gift > 0
    ensures MergedAssets(BuildOutputs(seeds)) == 2 * s.output.gift && !OutputsValid(h, seeds)
  {
    MergedAssetsAreGifts(seeds);
    ValidExactly(h, seeds);
    assert seeds[0] == seeds[1];
    assert Gifts(seeds) == s.output.gift + Gifts(seeds[1..])
        && Gifts(seeds[1..]) == s.output.gift + Gifts(seeds[1..][1..]);
  }

  /** But two seeds that differ in their pins alone are two, and both are paid: one without a pin, one with the right
      claim. */
  lemma PinsTellSeedsApart(h: SeedsHash, seeds: seq<Landed>, o: Output)
    requires seeds == [Landed(None, o), Landed(Some(Source(h({o}), false)), o)]
    ensures MergedAssets(BuildOutputs(seeds)) == 2 * o.gift && OutputsValid(h, seeds)
  {
    MergedAssetsAreGifts(seeds);
    assert GroupOf(seeds, o.lockRoot) == {o} by {
      assert seeds[0] in seeds;
    }
    ValidExactly(h, seeds);
    assert Gifts(seeds) == o.gift + Gifts(seeds[1..]) && Gifts(seeds[1..]) == o.gift + Gifts(seeds[1..][1..]);
  }

  // ----- Authored transactions

  function LandedSet(seeds: seq<Seed>): set<Landed> {
    set s | s in seeds :: OnChain(s)
  }

  /** A spend's seeds are a set on the chain, met in some order. */
  predicate Taps(tap: seq<Landed>, seeds: seq<Seed>) {
    && (forall i, j | 0 <= i < j < |tap| :: tap[i] != tap[j])
    && (set s | s in tap) == LandedSet(seeds)
  }

  /** The seeds of a transaction as the chain meets them, spend by spend. */
  predicate TapsAll(taps: seq<seq<Landed>>, sets: seq<seq<Seed>>) {
    |taps| == |sets| && forall k | 0 <= k < |sets| :: Taps(taps[k], sets[k])
  }

  /** No two spends share a seed that carries a gift, pin included. */
  predicate SharesNothing(taps: seq<seq<Landed>>) {
    forall a, b, s | 0 <= a < b < |taps| && s in taps[a] && s in taps[b] :: s.output.gift == 0
  }

  predicate NoRepeats(tap: seq<Landed>) {
    forall i, j | 0 <= i < j < |tap| :: tap[i] != tap[j]
  }

  lemma PaidOnceConcat(a: seq<Landed>, b: seq<Landed>)
    requires NoRepeats(a)
    ensures PaidOnce(a + b) <==> PaidOnce(b) && forall s | s in a && s in b :: s.output.gift == 0
  {
    var c := a + b;
    if PaidOnce(c) {
      forall i, j | 0 <= i < j < |b| && b[i] == b[j] ensures b[i].output.gift == 0 {
        assert c[|a| + i] == c[|a| + j];
      }
      forall s | s in a && s in b ensures s.output.gift == 0 {
        var i :| 0 <= i < |a| && a[i] == s;
        var j :| 0 <= j < |b| && b[j] == s;
        assert c[i] == c[|a| + j];
      }
    }
    if PaidOnce(b) && forall s | s in a && s in b :: s.output.gift == 0 {
      forall i, j | 0 <= i < j < |c| && c[i] == c[j] ensures c[i].output.gift == 0 {
        if |a| <= i {
          assert b[i - |a|] == b[j - |a|];
        } else if |a| <= j {
          assert a[i] == b[j - |a|] && a[i] in a && a[i] in b;
        }
      }
    }
  }

  lemma {:induction false} PaidOnceAcross(taps: seq<seq<Landed>>)
    requires forall tap | tap in taps :: NoRepeats(tap)
    ensures PaidOnce(Concat(taps)) <==> SharesNothing(taps)
  {
    if taps != [] {
      var rest := taps[1..];
      PaidOnceAcross(rest);
      PaidOnceConcat(taps[0], Concat(rest));
      SharesStep(taps);
      forall s ensures s in Concat(rest) <==> exists k | 0 <= k < |rest| :: s in rest[k] {
        SeedInConcat(rest, s);
      }
    }
  }

  predicate HeadShares(tap: seq<Landed>, rest: seq<seq<Landed>>) {
    forall k, s | 0 <= k < |rest| && s in tap && s in rest[k] :: s.output.gift == 0
  }

  lemma SharesStep(taps: seq<seq<Landed>>)
    requires taps != []
    ensures SharesNothing(taps) <==> (SharesNothing(taps[1..]) && HeadShares(taps[0], taps[1..]))
  {
    var rest := taps[1..];
    assert forall k | 0 <= k < |rest| :: rest[k] == taps[k + 1];
    if SharesNothing(taps) {
      forall a, b, s: Landed | 0 <= a < b < |rest| && s in rest[a] && s in rest[b] ensures s.output.gift == 0 {
        assert s in taps[a + 1] && s in taps[b + 1];
      }
      forall k, s: Landed | 0 <= k < |rest| && s in taps[0] && s in rest[k] ensures s.output.gift == 0 {
        assert s in taps[k + 1];
      }
    }
    if SharesNothing(rest) && HeadShares(taps[0], rest) {
      forall a, b, s: Landed | 0 <= a < b < |taps| && s in taps[a] && s in taps[b] ensures s.output.gift == 0 {
        assert s in rest[b - 1];
        if a > 0 {
          assert s in rest[a - 1];
        }
      }
    }
  }

  /** No two spends pay an equal output, that carries a gift, from equal parents. */
  predicate PaysApart(sets: seq<seq<Seed>>) {
    forall a, b, s, t | 0 <= a < b < |sets| && s in sets[a] && t in sets[b] && Hashed(s) == Hashed(t) :: s.gift == 0
  }

  /** The spends of a transaction, each pinned among all seeds we authored. */
  function PinnedSets(h: SeedsHash, ours: seq<Seed>, sets: seq<seq<Seed>>): (r: seq<seq<Seed>>)
    ensures |r| == |sets| && forall k | 0 <= k < |sets| :: r[k] == PinnedAmong(h, ours, sets[k])
  {
    if sets == [] then [] else [PinnedAmong(h, ours, sets[0])] + PinnedSets(h, ours, sets[1..])
  }

  lemma PinnedSeed(h: SeedsHash, ours: seq<Seed>, seeds: seq<Seed>, l: Landed)
    ensures l in LandedSet(PinnedAmong(h, ours, seeds)) <==>
              l.pin == Claim(h, Group(ours, l.output.lockRoot)) && exists s | s in seeds :: Hashed(s) == l.output
  {
    var p := PinnedAmong(h, ours, seeds);
    if l in LandedSet(p) {
      var i :| 0 <= i < |p| && OnChain(p[i]) == l;
      assert seeds[i] in seeds && Hashed(seeds[i]) == Hashed(p[i]);
    }
    if l.pin == Claim(h, Group(ours, l.output.lockRoot)) && exists s | s in seeds :: Hashed(s) == l.output {
      var s :| s in seeds && Hashed(s) == l.output;
      var i :| 0 <= i < |seeds| && seeds[i] == s;
      assert p[i] in p && Hashed(p[i]) == Hashed(s) && OnChain(p[i]) == l;
    }
  }

  lemma PinnedShares(h: SeedsHash, ours: seq<Seed>, sets: seq<seq<Seed>>, taps: seq<seq<Landed>>)
    requires TapsAll(taps, PinnedSets(h, ours, sets))
    ensures SharesNothing(taps) <==> PaysApart(sets)
  {
    forall k, l: Landed | 0 <= k < |sets| ensures l in taps[k] <==> l in LandedSet(PinnedAmong(h, ours, sets[k])) {
      assert Taps(taps[k], PinnedSets(h, ours, sets)[k]);
      assert l in taps[k] <==> l in (set s | s in taps[k]);
    }
    if PaysApart(sets) {
      forall a, b, l: Landed | 0 <= a < b < |taps| && l in taps[a] && l in taps[b] ensures l.output.gift == 0 {
        PinnedSeed(h, ours, sets[a], l);
        PinnedSeed(h, ours, sets[b], l);
      }
    }
    if SharesNothing(taps) {
      forall a, b, s: Seed, t: Seed | 0 <= a < b < |sets| && s in sets[a] && t in sets[b] && Hashed(s) == Hashed(t)
        ensures s.gift == 0
      {
        var l := Landed(Claim(h, Group(ours, s.lockRoot)), Hashed(s));
        PinnedSeed(h, ours, sets[a], l);
        PinnedSeed(h, ours, sets[b], l);
        assert l in taps[a] && l in taps[b];
      }
    }
  }

  lemma PinnedGroup(h: SeedsHash, ours: seq<Seed>, sets: seq<seq<Seed>>, taps: seq<seq<Landed>>, root: Digest)
    requires SameOutputs(Concat(sets), ours) && TapsAll(taps, PinnedSets(h, ours, sets))
    ensures GroupOf(Concat(taps), root) == Group(ours, root)
  {
    GroupsOfSameOutputs(Concat(sets), ours, root);
    var pinned := PinnedSets(h, ours, sets);
    forall o | o in GroupOf(Concat(taps), root) ensures o in Group(Concat(sets), root) {
      var l :| l in Concat(taps) && l.output.lockRoot == root && l.output == o;
      SeedInConcat(taps, l);
      var k :| 0 <= k < |taps| && l in taps[k];
      assert Taps(taps[k], pinned[k]) && l in (set s | s in taps[k]);
      PinnedSeed(h, ours, sets[k], l);
      var s :| s in sets[k] && Hashed(s) == o;
      SeedInConcat(sets, s);
    }
    forall o | o in Group(Concat(sets), root) ensures o in GroupOf(Concat(taps), root) {
      var s :| s in Concat(sets) && s.lockRoot == root && Hashed(s) == o;
      SeedInConcat(sets, s);
      var k :| 0 <= k < |sets| && s in sets[k];
      var l := Landed(Claim(h, Group(ours, root)), o);
      PinnedSeed(h, ours, sets[k], l);
      assert Taps(taps[k], pinned[k]) && l in (set t | t in taps[k]);
      SeedInConcat(taps, l);
    }
  }

  /** Pinning across all spends refines the chain's grouping: for the transaction of exactly the authored spends, in
      whatever order the chain meets them, every claim holds; and the outputs are valid if and only if no two spends
      pay an equal output, that carries a gift, from equal parents. */
  lemma AuthoredTransactionIsValid(h: SeedsHash, ours: seq<Seed>, sets: seq<seq<Seed>>, taps: seq<seq<Landed>>)
    requires SameOutputs(Concat(sets), ours) && TapsAll(taps, PinnedSets(h, ours, sets))
    ensures forall s | s in Concat(taps) :: ClaimHolds(h, Concat(taps), s)
    ensures OutputsValid(h, Concat(taps)) <==> PaysApart(sets)
  {
    var onChain := Concat(taps);
    forall s | s in onChain ensures ClaimHolds(h, onChain, s) {
      SeedInConcat(taps, s);
      var k :| 0 <= k < |taps| && s in taps[k];
      assert Taps(taps[k], PinnedSets(h, ours, sets)[k]) && s in (set t | t in taps[k]);
      PinnedSeed(h, ours, sets[k], s);
      PinnedGroup(h, ours, sets, taps, s.output.lockRoot);
    }
    ValidExactly(h, onChain);
    PaidOnceAcross(taps);
    PinnedShares(h, ours, sets, taps);
  }

  /** The tripwire, exactly: wrapped into any larger transaction, one of our pinned seeds still matches if and only if
      every seed at its root pays one of our outputs, unless the two groups' hashes collide. So a foreign seed that
      differs in a hashed field makes every claim at that root fail, and the whole transaction with it. */
  lemma ForeignSeedBreaksThePin(h: SeedsHash, ours: seq<Seed>, onChain: seq<Landed>, i: nat)
    requires i < |ours| && forall s | s in Pinned(h, ours) :: OnChain(s) in onChain
    ensures var s := OnChain(Pinned(h, ours)[i]);
            var own, all := Group(ours, s.output.lockRoot), GroupOf(onChain, s.output.lockRoot);
            && own <= all
            && (ClaimHolds(h, onChain, s) <==> h(own) == h(all))
            && ((h(own) == h(all) ==> own == all) ==>
                  && (ClaimHolds(h, onChain, s) <==>
                        forall t | t in onChain && t.output.lockRoot == s.output.lockRoot :: t.output in own)
                  && ((exists t | t in onChain && t.output.lockRoot == s.output.lockRoot :: t.output !in own)
                        ==> !OutputsValid(h, onChain)))
  {
    var p := Pinned(h, ours);
    var s := OnChain(p[i]);
    var own, all := Group(ours, s.output.lockRoot), GroupOf(onChain, s.output.lockRoot);
    assert p[i] in p;
    forall o | o in own ensures o in all {
      var u :| u in ours && u.lockRoot == s.output.lockRoot && Hashed(u) == o;
      var k :| 0 <= k < |ours| && ours[k] == u;
      assert p[k] in p && OnChain(p[k]).output == o;
    }
    ValidExactly(h, onChain);
    assert own == all <==> forall t | t in onChain && t.output.lockRoot == s.output.lockRoot :: t.output in own by {
      if forall t | t in onChain && t.output.lockRoot == s.output.lockRoot :: t.output in own {
        assert all <= own;
      }
      if own == all {
        forall t | t in onChain && t.output.lockRoot == s.output.lockRoot ensures t.output in own {
          assert t.output in all;
        }
      }
    }
  }
}
