/** Pinning every seed with the fingerprint of the outputs it will be merged with. */
module OutputPin {
  import opened Wrappers
  import opened Field
  import opened Tx

  /** The digest of a z-set of seeds, left abstract: it covers the four hashed fields of each. */
  type SeedsHash = set<Output> -> Digest

  // ----- Groups

  /** The set of outputs at one lock root, pins stripped. */
  function Group(seeds: seq<Seed>, root: Digest): set<Output> {
    set s | s in seeds && s.lockRoot == root :: Hashed(s)
  }

  function Claim(h: SeedsHash, group: set<Output>): Option<Source> {
    Some(Source(h(group), false))
  }

  /** Seeds pinned among all of `ours`: each one claims the group of its lock root there. */
  function PinnedAmong(h: SeedsHash, ours: seq<Seed>, seeds: seq<Seed>): (r: seq<Seed>)
    ensures |r| == |seeds|
    ensures forall i | 0 <= i < |seeds| :: r[i] == seeds[i].(outputSource := Claim(h, Group(ours, seeds[i].lockRoot)))
  {
    seq(|seeds|, i requires 0 <= i < |seeds| => seeds[i].(outputSource := Claim(h, Group(ours, seeds[i].lockRoot))))
  }

  /** What pinning makes of a list of seeds. */
  function Pinned(h: SeedsHash, seeds: seq<Seed>): (r: seq<Seed>)
    ensures |r| == |seeds|
    ensures forall i | 0 <= i < |seeds| :: r[i] == seeds[i].(outputSource := Claim(h, Group(seeds, seeds[i].lockRoot)))
  {
    PinnedAmong(h, seeds, seeds)
  }

  /** All positions of a root, in order. */
  function Indices(roots: seq<Digest>, root: Digest): seq<nat> {
    if roots == [] then [] else
      var n := |roots| - 1;
      Indices(roots[..n], root) + (if roots[n] == root then [n] else [])
  }

  /** A partition of the indices by lock root: one group a root, holding all its positions in order. */
  predicate Partition(roots: seq<Digest>, groups: seq<(Digest, seq<nat>)>) {
    && (forall a, b | 0 <= a < b < |groups| :: groups[a].0 != groups[b].0)
    && (forall g | 0 <= g < |groups| :: groups[g].1 == Indices(roots, groups[g].0))
    && (forall r | r in roots :: HasGroup(groups, r))
    && (forall g | 0 <= g < |groups| :: groups[g].0 in roots)
  }

  predicate HasGroup(groups: seq<(Digest, seq<nat>)>, root: Digest) {
    exists g | 0 <= g < |groups| :: groups[g].0 == root
  }

  /** The first loop of `pin_groups`. */
  method GroupByRoot(roots: seq<Digest>) returns (groups: seq<(Digest, seq<nat>)>)
    ensures Partition(roots, groups)
  {
    groups := [];
    for i := 0 to |roots|
      invariant Partition(roots[..i], groups)
    {
      ghost var before := groups;
      var g := 0;
      while g < |groups| && groups[g].0 != roots[i]
        invariant g <= |groups|
        invariant forall a | 0 <= a < g :: groups[a].0 != roots[i]
      {
        g := g + 1;
      }
      if g < |groups| {
        groups := groups[g := (groups[g].0, groups[g].1 + [i])];
        KnownRoot(roots, i, before, g);
      } else {
        groups := groups + [(roots[i], [i])];
        NewRoot(roots, i, before);
      }
    }
    assert roots[..|roots|] == roots;
  }

  lemma IndicesStep(roots: seq<Digest>, i: nat, root: Digest)
    requires i < |roots|
    ensures Indices(roots[..i + 1], root) == Indices(roots[..i], root) + if roots[i] == root then [i] else []
  {
    assert roots[..i + 1][..i] == roots[..i];
  }

  lemma {:induction false} NoIndices(roots: seq<Digest>, root: Digest)
    requires root !in roots
    ensures Indices(roots, root) == []
  {
    if roots != [] {
      NoIndices(roots[..|roots| - 1], root);
    }
  }

  lemma KnownRoot(roots: seq<Digest>, i: nat, before: seq<(Digest, seq<nat>)>, g: nat)
    requires i < |roots| && Partition(roots[..i], before) && g < |before| && before[g].0 == roots[i]
    ensures Partition(roots[..i + 1], before[g := (before[g].0, before[g].1 + [i])])
  {
    var after := before[g := (before[g].0, before[g].1 + [i])];
    forall a | 0 <= a < |after| ensures after[a].1 == Indices(roots[..i + 1], after[a].0) {
      IndicesStep(roots, i, after[a].0);
    }
    assert roots[..i + 1] == roots[..i] + [roots[i]];
    forall r | r in roots[..i + 1] ensures HasGroup(after, r) {
      assert HasGroup(before, r);
      var a :| 0 <= a < |before| && before[a].0 == r;
      assert after[a].0 == r;
    }
  }

  lemma NewRoot(roots: seq<Digest>, i: nat, before: seq<(Digest, seq<nat>)>)
    requires i < |roots| && Partition(roots[..i], before)
    requires forall a | 0 <= a < |before| :: before[a].0 != roots[i]
    ensures Partition(roots[..i + 1], before + [(roots[i], [i])])
  {
    var after := before + [(roots[i], [i])];
    assert !HasGroup(before, roots[i]);
    NoIndices(roots[..i], roots[i]);
    forall a | 0 <= a < |after| ensures after[a].1 == Indices(roots[..i + 1], after[a].0) {
      IndicesStep(roots, i, after[a].0);
    }
    assert roots[..i + 1] == roots[..i] + [roots[i]];
    forall r | r in roots[..i + 1] ensures HasGroup(after, r) {
      if r in roots[..i] {
        var a :| 0 <= a < |before| && before[a].0 == r;
        assert after[a].0 == r;
      } else {
        assert after[|before|].0 == r;
      }
    }
  }

  // ----- Pinning in place

  /** A seed that the builder can write to. */
  class SeedRef {
    var seed: Seed

    constructor (seed: Seed)
      ensures this.seed == seed
    {
      this.seed := seed;
    }
  }

  function Values(refs: seq<SeedRef>): (r: seq<Seed>)
    reads refs
    ensures |r| == |refs| && forall i | 0 <= i < |refs| :: r[i] == refs[i].seed
  {
    if refs == [] then [] else [refs[0].seed] + Values(refs[1..])
  }

  /** The positions of a root are exactly the indices that carry it. */
  lemma {:induction false} IndicesExact(roots: seq<Digest>, root: Digest, i: nat)
    ensures i in Indices(roots, root) <==> i < |roots| && roots[i] == root
  {
    if roots != [] {
      IndicesExact(roots[..|roots| - 1], root, i);
    }
  }

  /** Read through its positions, a group is exactly the group of its root. */
  lemma GroupThroughIndices(seeds: seq<Seed>, roots: seq<Digest>, root: Digest)
    requires |roots| == |seeds| && forall i | 0 <= i < |seeds| :: roots[i] == seeds[i].lockRoot
    ensures forall k | 0 <= k < |Indices(roots, root)| :: Indices(roots, root)[k] < |seeds|
    ensures (set k | 0 <= k < |Indices(roots, root)| :: Hashed(seeds[Indices(roots, root)[k]])) == Group(seeds, root)
  {
    var members := Indices(roots, root);
    forall i: nat { IndicesExact(roots, root, i); }
    assert forall k | 0 <= k < |members| :: members[k] in members;
    var byIndex := set k | 0 <= k < |members| :: Hashed(seeds[members[k]]);
    forall s | s in Group(seeds, root) ensures s in byIndex {
      var i :| 0 <= i < |seeds| && seeds[i].lockRoot == root && Hashed(seeds[i]) == s;
      assert i in members;
      var k :| 0 <= k < |members| && members[k] == i;
    }
  }

  /** Collects the stripped seeds of a group. */
  method StrippedGroup(all: seq<SeedRef>, members: seq<nat>) returns (group: set<Output>)
    requires forall k | 0 <= k < |members| :: members[k] < |all|
    ensures group == set k | 0 <= k < |members| :: Hashed(Values(all)[members[k]])
  {
    group := {};
    for j := 0 to |members|
      invariant group == set k | 0 <= k < j :: Hashed(Values(all)[members[k]])
    {
      group := group + {Hashed(all[members[j]].seed)};
    }
  }

  /** Writes one group's pin through its references. References may repeat; nothing depends on it. */
  method WritePin(h: SeedsHash, all: seq<SeedRef>, members: seq<nat>, hash: Digest, ghost before: seq<Seed>,
                  ghost root: Digest)
    requires |before| == |all| && hash == h(Group(before, root))
    requires forall k | 0 <= k < |members| :: members[k] < |all| && before[members[k]].lockRoot == root
    requires forall i | 0 <= i < |all| :: Unpinned(all[i].seed) == Unpinned(before[i])
    modifies all
    ensures forall i | 0 <= i < |all| :: Unpinned(all[i].seed) == Unpinned(before[i])
    ensures forall k | 0 <= k < |members| :: all[members[k]].seed.outputSource == Claim(h, Group(before, root))
    ensures forall i | 0 <= i < |all| :: all[i].seed.outputSource == old(all[i].seed.outputSource)
              || (all[i].seed.lockRoot == root && all[i].seed.outputSource == Claim(h, Group(before, root)))
  {
    for j := 0 to |members|
      invariant forall i | 0 <= i < |all| :: Unpinned(all[i].seed) == Unpinned(before[i])
      invariant forall k | 0 <= k < j :: all[members[k]].seed.outputSource == Claim(h, Group(before, root))
      invariant forall i | 0 <= i < |all| :: all[i].seed.outputSource == old(all[i].seed.outputSource)
                  || (all[i].seed.lockRoot == root && all[i].seed.outputSource == Claim(h, Group(before, root)))
    {
      var target := all[members[j]];
      assert target.seed.lockRoot == Unpinned(target.seed).lockRoot == before[members[j]].lockRoot;
      target.seed := target.seed.(outputSource := Some(Source(hash, false)));
    }
  }

  /** Only pins have changed, and the first `g` groups carry theirs. */
  ghost predicate PinnedUpTo(h: SeedsHash, before: seq<Seed>, now: seq<Seed>, groups: seq<(Digest, seq<nat>)>, g: nat)
    requires g <= |groups|
  {
    && |now| == |before| && (forall i | 0 <= i < |now| :: Unpinned(now[i]) == Unpinned(before[i]))
    && forall a, i | 0 <= a < g && 0 <= i < |now| && before[i].lockRoot == groups[a].0 ::
         now[i].outputSource == Claim(h, Group(before, groups[a].0))
  }

  /** One round of the second loop of `pin_groups`: hash a group, write its pin. */
  method PinGroup(h: SeedsHash, all: seq<SeedRef>, groups: seq<(Digest, seq<nat>)>, g: nat,
                  ghost before: seq<Seed>, ghost roots: seq<Digest>)
    requires |before| == |all| == |roots| && (forall i | 0 <= i < |all| :: roots[i] == before[i].lockRoot)
    requires Partition(roots, groups) && g < |groups| && PinnedUpTo(h, before, Values(all), groups, g)
    modifies all
    ensures PinnedUpTo(h, before, Values(all), groups, g + 1)
  {
    var (root, members) := groups[g];
    ghost var start := Values(all);
    Members(before, roots, root);
    var group := StrippedGroup(all, members);
    StrippedAlike(start, before, roots, root);
    WritePin(h, all, members, h(group), before, root);
    GroupWritten(h, before, start, Values(all), roots, groups, g);
  }

  /** The positions of a root are positions of seeds at that root. */
  lemma Members(seeds: seq<Seed>, roots: seq<Digest>, root: Digest)
    requires |roots| == |seeds| && forall i | 0 <= i < |seeds| :: roots[i] == seeds[i].lockRoot
    ensures forall k | 0 <= k < |Indices(roots, root)| ::
              Indices(roots, root)[k] < |seeds| && seeds[Indices(roots, root)[k]].lockRoot == root
  {
    var members := Indices(roots, root);
    forall k | 0 <= k < |members| ensures members[k] < |seeds| && seeds[members[k]].lockRoot == root {
      assert members[k] in members;
      IndicesExact(roots, root, members[k]);
    }
  }

  lemma HashIgnoresPins(s: Seed, t: Seed)
    requires Unpinned(s) == Unpinned(t)
    ensures Hashed(s) == Hashed(t)
  {
    assert Unpinned(s).lockRoot == Unpinned(t).lockRoot && Unpinned(s).noteData == Unpinned(t).noteData;
    assert Unpinned(s).gift == Unpinned(t).gift && Unpinned(s).parentHash == Unpinned(t).parentHash;
  }

  /** Pins do not show in what a group strips to. */
  lemma StrippedAlike(now: seq<Seed>, before: seq<Seed>, roots: seq<Digest>, root: Digest)
    requires |now| == |before| == |roots| && forall i | 0 <= i < |before| :: roots[i] == before[i].lockRoot
    requires forall i | 0 <= i < |now| :: Unpinned(now[i]) == Unpinned(before[i])
    ensures forall k | 0 <= k < |Indices(roots, root)| :: Indices(roots, root)[k] < |now|
    ensures (set k | 0 <= k < |Indices(roots, root)| :: Hashed(now[Indices(roots, root)[k]])) == Group(before, root)
  {
    Members(before, roots, root);
    GroupThroughIndices(before, roots, root);
    var members := Indices(roots, root);
    forall k | 0 <= k < |members| ensures Hashed(now[members[k]]) == Hashed(before[members[k]]) {
      HashIgnoresPins(now[members[k]], before[members[k]]);
    }
  }

  /** Writing group `g`'s pin leaves the earlier groups' pins as they were. */
  lemma GroupWritten(h: SeedsHash, before: seq<Seed>, start: seq<Seed>, now: seq<Seed>, roots: seq<Digest>,
                     groups: seq<(Digest, seq<nat>)>, g: nat)
    requires |before| == |now| == |roots| && (forall i | 0 <= i < |now| :: roots[i] == before[i].lockRoot)
    requires Partition(roots, groups) && g < |groups| && PinnedUpTo(h, before, start, groups, g)
    requires forall i | 0 <= i < |now| :: Unpinned(now[i]) == Unpinned(before[i])
    requires var (root, members) := groups[g];
             && (forall k | 0 <= k < |members| ::
                   members[k] < |now| && now[members[k]].outputSource == Claim(h, Group(before, root)))
             && forall i | 0 <= i < |now| :: now[i].outputSource == start[i].outputSource
                  || (now[i].lockRoot == root && now[i].outputSource == Claim(h, Group(before, root)))
    ensures PinnedUpTo(h, before, now, groups, g + 1)
  {
    var (root, members) := groups[g];
    forall a, i | 0 <= a <= g && 0 <= i < |now| && before[i].lockRoot == groups[a].0
      ensures now[i].outputSource == Claim(h, Group(before, groups[a].0))
    {
      assert Unpinned(now[i]).lockRoot == Unpinned(before[i]).lockRoot;
      if a == g {
        IndicesExact(roots, root, i);
        var k :| 0 <= k < |members| && members[k] == i;
      }
    }
  }

  /** `pin_groups`: in place, it makes of the seeds exactly what `Pinned` says, whatever pins they carried. */
  method PinGroups(h: SeedsHash, all: seq<SeedRef>)
    modifies all
    ensures Values(all) == Pinned(h, old(Values(all)))
    ensures forall i | 0 <= i < |all| ::
              var before := old(Values(all));
              all[i].seed == before[i].(outputSource :=
                Some(Source(h(set s | s in before && s.lockRoot == before[i].lockRoot :: Hashed(s)), false)))
  {
    ghost var before := Values(all);
    var roots := [];
    for i := 0 to |all|
      invariant |roots| == i && forall k | 0 <= k < i :: roots[k] == before[k].lockRoot
    {
      roots := roots + [all[i].seed.lockRoot];
    }
    var groups := GroupByRoot(roots);
    for g := 0 to |groups|
      invariant PinnedUpTo(h, before, Values(all), groups, g)
    {
      PinGroup(h, all, groups, g, before, roots);
    }
    AllPinned(h, before, Values(all), roots, groups);
    forall i | 0 <= i < |all|
      ensures Claim(h, Group(before, before[i].lockRoot))
           == Some(Source(h(set s | s in before && s.lockRoot == before[i].lockRoot :: Hashed(s)), false))
    {
      assert Group(before, before[i].lockRoot) == set s | s in before && s.lockRoot == before[i].lockRoot :: Hashed(s);
    }
    assert forall i | 0 <= i < |all| :: all[i].seed == Values(all)[i] == Pinned(h, before)[i];
  }

  lemma AllPinned(h: SeedsHash, before: seq<Seed>, now: seq<Seed>, roots: seq<Digest>, groups: seq<(Digest, seq<nat>)>)
    requires |before| == |roots| && Partition(roots, groups) && PinnedUpTo(h, before, now, groups, |groups|)
    requires forall i | 0 <= i < |before| :: roots[i] == before[i].lockRoot
    ensures now == Pinned(h, before)
  {
    forall i | 0 <= i < |now| ensures now[i] == Pinned(h, before)[i] {
      assert roots[i] in roots && HasGroup(groups, roots[i]);
      var a :| 0 <= a < |groups| && groups[a].0 == roots[i];
      assert now[i].outputSource == Claim(h, Group(before, before[i].lockRoot));
      assert now[i] == Unpinned(now[i]).(outputSource := now[i].outputSource);
      assert before[i].(outputSource := now[i].outputSource)
          == Unpinned(before[i]).(outputSource := now[i].outputSource);
    }
  }

  // ----- The entry points

  function Concat<T>(lists: seq<seq<T>>): seq<T> {
    if lists == [] then [] else lists[0] + Concat(lists[1..])
  }

  /** `pin_output_source`: one spend's seeds. */
  method PinOutputSource(h: SeedsHash, seeds: seq<SeedRef>)
    modifies seeds
    ensures Values(seeds) == Pinned(h, old(Values(seeds)))
  {
    PinGroups(h, seeds);
  }

  /** `pin_output_source_across`: the output sets of all the spends of one transaction, in one pass. */
  method PinOutputSourceAcross(h: SeedsHash, sets: seq<seq<SeedRef>>)
    modifies Concat(sets)
    ensures Values(Concat(sets)) == Pinned(h, old(Values(Concat(sets))))
    ensures forall k | 0 <= k < |sets| ::
              Values(sets[k]) == PinnedAmong(h, old(Values(Concat(sets))), old(Values(sets[k])))
  {
    ghost var before := Values(Concat(sets));
    forall k, i | 0 <= k < |sets| && 0 <= i < |sets[k]|
      ensures exists j | 0 <= j < |Concat(sets)| :: Concat(sets)[j] == sets[k][i]
    {
      InConcat(sets, k, i);
    }
    PinGroups(h, Concat(sets));
    forall k, i | 0 <= k < |sets| && 0 <= i < |sets[k]|
      ensures sets[k][i].seed
           == old(sets[k][i].seed).(outputSource := Claim(h, Group(before, old(sets[k][i].seed).lockRoot)))
    {
      var j :| 0 <= j < |Concat(sets)| && Concat(sets)[j] == sets[k][i];
      assert Values(Concat(sets))[j] == Pinned(h, before)[j];
    }
  }

  lemma {:induction false} InConcat<T>(lists: seq<seq<T>>, k: nat, i: nat)
    requires k < |lists| && i < |lists[k]|
    ensures exists j | 0 <= j < |Concat(lists)| :: Concat(lists)[j] == lists[k][i]
  {
    if k == 0 {
      assert Concat(lists)[i] == lists[k][i];
    } else {
      InConcat(lists[1..], k - 1, i);
      var j :| 0 <= j < |Concat(lists[1..])| && Concat(lists[1..])[j] == lists[k][i];
      assert Concat(lists)[|lists[0]| + j] == lists[k][i];
    }
  }

  // ----- What pinning means

  lemma SeedInConcat<T>(sets: seq<seq<T>>, s: T)
    ensures s in Concat(sets) <==> exists k | 0 <= k < |sets| :: s in sets[k]
  {
    if sets != [] {
      SeedInConcat(sets[1..], s);
      if s in Concat(sets[1..]) {
        var k :| 0 <= k < |sets[1..]| && s in sets[1..][k];
        assert s in sets[k + 1];
      }
      if exists k | 0 <= k < |sets| :: s in sets[k] {
        var k :| 0 <= k < |sets| && s in sets[k];
        assert k > 0 ==> sets[1..][k - 1] == sets[k];
      }
    }
  }

  function Outputs(seeds: seq<Seed>): set<Output> {
    set s | s in seeds :: Hashed(s)
  }

  /** The same outputs, in any order and any number, whatever pins they carry. */
  predicate SameOutputs(a: seq<Seed>, b: seq<Seed>) {
    Outputs(a) == Outputs(b)
  }

  lemma GroupIsPartOfOutputs(seeds: seq<Seed>, root: Digest, output: Output)
    ensures output in Group(seeds, root) <==> output in Outputs(seeds) && output.lockRoot == root
  {
    if output in Outputs(seeds) && output.lockRoot == root {
      var t :| t in seeds && Hashed(t) == output;
    }
  }

  lemma GroupsOfSameOutputs(a: seq<Seed>, b: seq<Seed>, root: Digest)
    requires SameOutputs(a, b)
    ensures Group(a, root) == Group(b, root)
  {
    forall s ensures s in Group(a, root) <==> s in Group(b, root) {
      GroupIsPartOfOutputs(a, root, s);
      GroupIsPartOfOutputs(b, root, s);
    }
  }

  /** Order, multiplicity, the split into spends and any pins already present do not matter: a seed gets
      the same pin from every list that holds the same outputs. */
  lemma PinDependsOnOutputsOnly(h: SeedsHash, a: seq<Seed>, b: seq<Seed>, i: nat, j: nat)
    requires SameOutputs(a, b) && i < |a| && j < |b| && Hashed(a[i]) == Hashed(b[j])
    ensures OnChain(Pinned(h, a)[i]) == OnChain(Pinned(h, b)[j])
    ensures Unpinned(a[i]) == Unpinned(b[j]) ==> Pinned(h, a)[i] == Pinned(h, b)[j]
  {
    assert a[i].lockRoot == Hashed(a[i]).lockRoot == Hashed(b[j]).lockRoot == b[j].lockRoot;
    GroupsOfSameOutputs(a, b, a[i].lockRoot);
    var claim := Claim(h, Group(a, a[i].lockRoot));
    assert a[i].(outputSource := claim) == Unpinned(a[i]).(outputSource := claim);
    assert b[j].(outputSource := claim) == Unpinned(b[j]).(outputSource := claim);
  }

  /** Pinning changes only pins, and pinning again changes nothing. */
  lemma PinningIsIdempotent(h: SeedsHash, seeds: seq<Seed>)
    ensures UnpinAll(Pinned(h, seeds)) == UnpinAll(seeds)
    ensures Pinned(h, Pinned(h, seeds)) == Pinned(h, seeds)
  {
    var p := Pinned(h, seeds);
    assert forall i | 0 <= i < |seeds| :: Unpinned(p[i]) == Unpinned(seeds[i]) && Hashed(p[i]) == Hashed(seeds[i]);
    PinnedSameOutputs(h, seeds);
    forall i | 0 <= i < |seeds| ensures Pinned(h, p)[i] == p[i] {
      PinDependsOnOutputsOnly(h, p, seeds, i, i);
    }
  }

  lemma PinnedSameOutputs(h: SeedsHash, seeds: seq<Seed>)
    ensures SameOutputs(Pinned(h, seeds), seeds)
  {
    var p := Pinned(h, seeds);
    var a, b := Outputs(p), Outputs(seeds);
    forall s | s in a ensures s in b {
      var i :| 0 <= i < |p| && Hashed(p[i]) == s;
      assert Hashed(seeds[i]) == s;
    }
    forall s | s in b ensures s in a {
      var i :| 0 <= i < |seeds| && Hashed(seeds[i]) == s;
      assert Hashed(p[i]) == s && p[i] in p;
    }
  }

  /** The per-spend pin of spend `k` is right for the whole transaction exactly when, at every lock root it
      pays, the other spends add nothing: unless the two groups' hashes collide. */
  lemma PerSpendPin(h: SeedsHash, sets: seq<seq<Seed>>, k: nat, i: nat)
    requires k < |sets| && i < |sets[k]|
    ensures var root := sets[k][i].lockRoot;
            var own, all := Group(sets[k], root), Group(Concat(sets), root);
            && own <= all
            && (Pinned(h, sets[k])[i].outputSource == Claim(h, all) <==> h(own) == h(all))
            && ((h(own) == h(all) ==> own == all) ==>
                  (Pinned(h, sets[k])[i].outputSource == Claim(h, all) <==>
                     forall s | s in Concat(sets) && s.lockRoot == root :: Hashed(s) in own))
  {
    var root := sets[k][i].lockRoot;
    var own, all := Group(sets[k], root), Group(Concat(sets), root);
    forall s | s in own ensures s in all {
      var t :| t in sets[k] && t.lockRoot == root && Hashed(t) == s;
      SeedInConcat(sets, t);
    }
    if forall s | s in Concat(sets) && s.lockRoot == root :: Hashed(s) in own {
      assert all <= own;
    }
    if own == all {
      forall s | s in Concat(sets) && s.lockRoot == root ensures Hashed(s) in own {
        assert Hashed(s) in all;
      }
    }
  }

  /** In particular it is right whenever no lock root is paid by two spends. */
  lemma PerSpendPinWithoutSharedRoots(h: SeedsHash, sets: seq<seq<Seed>>, k: nat, i: nat)
    requires k < |sets| && i < |sets[k]|
    requires forall a, b, s, t | 0 <= a < b < |sets| && s in sets[a] && t in sets[b] :: s.lockRoot != t.lockRoot
    ensures Pinned(h, sets[k])[i].outputSource == Claim(h, Group(Concat(sets), sets[k][i].lockRoot))
  {
    var root := sets[k][i].lockRoot;
    assert sets[k][i] in sets[k];
    forall s | s in Concat(sets) && s.lockRoot == root ensures Hashed(s) in Group(sets[k], root) {
      SeedInConcat(sets, s);
      var a :| 0 <= a < |sets| && s in sets[a];
      assert a == k;
    }
    PerSpendPin(h, sets, k, i);
    assert Group(Concat(sets), root) <= Group(sets[k], root);
  }
}
