/** The minimum fee of a transaction, before and after the bythos phase. */
module Fee {
  import opened Wrappers
  import opened Field
  import opened Sums
  import opened Tx
  import opened Nouns

  datatype FeeConstants = FeeConstants(baseFee: u64, inputFeeDivisor: u64, minFee: u64, bythosPhase: u64)

  // ----- Word counts

  /** The words of one seed priced alone: the fold's terminal atom, then a key and a value per entry. */
  function NoteDataWords(entries: seq<NoteEntry>): (w: nat)
    ensures w >= 1
  {
    if entries == [] then 1 else 1 + Leaves(entries[|entries| - 1].value) + NoteDataWords(entries[..|entries| - 1])
  }

  function LegacyWords(seeds: seq<Seed>): nat {
    if seeds == [] then 0 else LegacyWords(seeds[..|seeds| - 1]) + NoteDataWords(seeds[|seeds| - 1].noteData)
  }

  /** Note-data merged per lock root: a later entry under a key replaces an earlier one. */
  type Group = map<string, nat>

  function MergeEntries(group: Group, entries: seq<NoteEntry>): Group {
    if entries == [] then group else
      var last := entries[|entries| - 1];
      MergeEntries(group, entries[..|entries| - 1])[last.key := Leaves(last.value)]
  }

  function GroupAt(groups: map<Digest, Group>, root: Digest): Group {
    if root in groups then groups[root] else map[]
  }

  function MergeSeeds(seeds: seq<Seed>): map<Digest, Group> {
    if seeds == [] then map[] else
      var last, groups := seeds[|seeds| - 1], MergeSeeds(seeds[..|seeds| - 1]);
      groups[last.lockRoot := MergeEntries(GroupAt(groups, last.lockRoot), last.noteData)]
  }

  /** A key leaf and the value's leaves, per entry. */
  function EntryWords(group: Group): string -> nat {
    k => if k in group then 1 + group[k] else 0
  }

  ghost function GroupWords(group: Group): (w: nat)
    ensures w >= 1
  {
    1 + Sum(group.Keys, EntryWords(group))
  }

  ghost function WordsByRoot(groups: map<Digest, Group>): Digest -> nat {
    r => if r in groups then GroupWords(groups[r]) else 0
  }

  ghost function MergedWords(groups: map<Digest, Group>): nat {
    Sum(groups.Keys, WordsByRoot(groups))
  }

  /** The words the chain prices at a height. */
  ghost function SeedWords(seeds: seq<Seed>, height: nat, bythos: nat): nat {
    if height >= bythos then MergedWords(MergeSeeds(seeds)) else LegacyWords(seeds)
  }

  lemma InsertWords(group: Group, key: string, leaves: nat)
    ensures GroupWords(group[key := leaves]) <= GroupWords(group) + 1 + leaves
  {
    SumUpdate(group.Keys, EntryWords(group), key, EntryWords(group[key := leaves]));
    assert group[key := leaves].Keys == group.Keys + {key};
  }

  lemma {:induction false} MergeEntriesWords(group: Group, entries: seq<NoteEntry>)
    ensures GroupWords(MergeEntries(group, entries)) + 1 <= GroupWords(group) + NoteDataWords(entries)
  {
    if entries != [] {
      var rest, last := entries[..|entries| - 1], entries[|entries| - 1];
      MergeEntriesWords(group, rest);
      InsertWords(MergeEntries(group, rest), last.key, Leaves(last.value));
    }
  }

  /** Merging one more seed adds at most its own words. */
  lemma MergeSeedWords(groups: map<Digest, Group>, seed: Seed)
    ensures var group := MergeEntries(GroupAt(groups, seed.lockRoot), seed.noteData);
            MergedWords(groups[seed.lockRoot := group]) <= MergedWords(groups) + NoteDataWords(seed.noteData)
  {
    var root, before := seed.lockRoot, GroupAt(groups, seed.lockRoot);
    var group := MergeEntries(before, seed.noteData);
    MergeEntriesWords(before, seed.noteData);
    if root !in groups {
      EmptyGroup(before);
    }
    SumUpdate(groups.Keys, WordsByRoot(groups), root, WordsByRoot(groups[root := group]));
    assert groups[root := group].Keys == groups.Keys + {root};
  }

  /** Merging never counts more words than pricing each seed alone, whatever roots and keys repeat. */
  lemma {:induction false} MergedAtMostLegacy(seeds: seq<Seed>)
    ensures MergedWords(MergeSeeds(seeds)) <= LegacyWords(seeds)
  {
    if seeds != [] {
      MergedAtMostLegacy(seeds[..|seeds| - 1]);
      MergeSeedWords(MergeSeeds(seeds[..|seeds| - 1]), seeds[|seeds| - 1]);
    } else {
      assert MergeSeeds(seeds).Keys == {};
    }
  }

  lemma EmptyGroup(group: Group)
    requires group == map[]
    ensures GroupWords(group) == 1
  {
    assert group.Keys == {};
  }

  // ----- What the counts are

  /** One more entry costs a leaf for its key and the leaves of its value; no entry, the terminal atom. */
  lemma NoteDataCosts(entries: seq<NoteEntry>, e: NoteEntry)
    ensures NoteDataWords([]) == 1
    ensures NoteDataWords(entries + [e]) == NoteDataWords(entries) + 1 + Leaves(e.value)
  {
    assert (entries + [e])[..|entries|] == entries;
  }

  /** Per seed, before bythos. */
  lemma LegacyCosts(seeds: seq<Seed>, s: Seed)
    ensures LegacyWords([]) == 0
    ensures LegacyWords(seeds + [s]) == LegacyWords(seeds) + NoteDataWords(s.noteData)
  {
    assert (seeds + [s])[..|seeds|] == seeds;
  }

  /** Per group, from bythos on: a new key costs a leaf and its value's leaves; an old one the difference. */
  lemma GroupCosts(group: Group, key: string, leaves: nat)
    ensures group == map[] ==> GroupWords(group) == 1
    ensures GroupWords(group[key := leaves])
         == GroupWords(group) + 1 + leaves - (if key in group then 1 + group[key] else 0)
  {
    if group == map[] {
      EmptyGroup(group);
    }
    SumUpdate(group.Keys, EntryWords(group), key, EntryWords(group[key := leaves]));
    assert group[key := leaves].Keys == group.Keys + {key};
  }

  /** And the groups of different lock roots are added up. */
  lemma GroupsCost(groups: map<Digest, Group>, root: Digest, group: Group)
    ensures groups == map[] ==> MergedWords(groups) == 0
    ensures MergedWords(groups[root := group])
         == MergedWords(groups) + GroupWords(group) - (if root in groups then GroupWords(groups[root]) else 0)
  {
    if groups == map[] {
      assert groups.Keys == {};
    }
    SumUpdate(groups.Keys, WordsByRoot(groups), root, WordsByRoot(groups[root := group]));
    assert groups[root := group].Keys == groups.Keys + {root};
  }

  /** All note-data at one lock root, in order. */
  function EntriesAt(seeds: seq<Seed>, root: Digest): seq<NoteEntry> {
    if seeds == [] then [] else
      var last := seeds[|seeds| - 1];
      EntriesAt(seeds[..|seeds| - 1], root) + if last.lockRoot == root then last.noteData else []
  }

  lemma {:induction false} MergeIsData(entries: seq<NoteEntry>, group: Group)
    ensures MergeEntries(group, entries).Keys == group.Keys + DataOf(entries).Keys
    ensures forall k | k in DataOf(entries) :: MergeEntries(group, entries)[k] == Leaves(DataOf(entries)[k])
    ensures forall k | k in group && k !in DataOf(entries) :: MergeEntries(group, entries)[k] == group[k]
  {
    if entries != [] {
      MergeIsData(entries[..|entries| - 1], group);
    }
  }

  lemma {:induction false} MergeConcat(group: Group, a: seq<NoteEntry>, b: seq<NoteEntry>)
    ensures MergeEntries(group, a + b) == MergeEntries(MergeEntries(group, a), b)
  {
    if b == [] {
      assert a + b == a;
    } else {
      MergeConcat(group, a, b[..|b| - 1]);
      assert (a + b)[..|a + b| - 1] == a + b[..|b| - 1];
    }
  }

  /** The group of a lock root holds the leaf counts of all its note-data, kept as the chain keeps it: one map, the last
      entry under a key winning. */
  lemma {:induction false} GroupIsData(seeds: seq<Seed>, root: Digest)
    ensures root in MergeSeeds(seeds) <==> exists s | s in seeds :: s.lockRoot == root
    ensures root in MergeSeeds(seeds) ==> var data := DataOf(EntriesAt(seeds, root));
              && MergeSeeds(seeds)[root].Keys == data.Keys
              && forall k | k in data :: MergeSeeds(seeds)[root][k] == Leaves(data[k])
  {
    GroupIsMerge(seeds, root);
    var none: Group := map[];
    MergeIsData(EntriesAt(seeds, root), none);
  }

  lemma {:induction false} GroupIsMerge(seeds: seq<Seed>, root: Digest)
    ensures root in MergeSeeds(seeds) <==> exists s | s in seeds :: s.lockRoot == root
    ensures GroupAt(MergeSeeds(seeds), root) == MergeEntries(map[], EntriesAt(seeds, root))
  {
    var none: Group := map[];
    if seeds != [] {
      var rest, last := seeds[..|seeds| - 1], seeds[|seeds| - 1];
      GroupIsMerge(rest, root);
      MergeConcat(none, EntriesAt(rest, root), if last.lockRoot == root then last.noteData else []);
      assert seeds == rest + [last];
    }
  }

  // ----- When merging saves nothing

  predicate DistinctKeys(entries: seq<NoteEntry>) {
    forall i, j | 0 <= i < j < |entries| :: entries[i].key != entries[j].key
  }

  lemma DistinctLast(entries: seq<NoteEntry>, rest: seq<NoteEntry>, last: NoteEntry)
    requires entries == rest + [last]
    ensures DistinctKeys(entries) <==> DistinctKeys(rest) && forall i | 0 <= i < |rest| :: rest[i].key != last.key
  {
    assert forall i | 0 <= i < |rest| :: entries[i] == rest[i];
    assert entries[|rest|] == last;
  }

  lemma {:induction false} MergeEntriesExactly(group: Group, entries: seq<NoteEntry>)
    requires group == map[]
    ensures GroupWords(MergeEntries(group, entries)) == NoteDataWords(entries) <==> DistinctKeys(entries)
  {
    if entries == [] {
      EmptyGroup(group);
    } else {
      var rest, last := entries[..|entries| - 1], entries[|entries| - 1];
      MergeEntriesExactly(group, rest);
      MergeEntriesWords(group, rest);
      EmptyGroup(group);
      GroupCosts(MergeEntries(group, rest), last.key, Leaves(last.value));
      MergeIsData(rest, group);
      DataKeys(rest, last.key);
      DistinctLast(entries, rest, last);
    }
  }

  predicate NothingRepeated(seeds: seq<Seed>) {
    && (forall i, j | 0 <= i < j < |seeds| :: seeds[i].lockRoot != seeds[j].lockRoot)
    && (forall i | 0 <= i < |seeds| :: DistinctKeys(seeds[i].noteData))
  }

  /** Merged counting costs as much as per-seed counting exactly when no lock root and no key of a seed is repeated;
      otherwise it costs less. */
  lemma {:induction false} MergingSavesExactly(seeds: seq<Seed>)
    ensures MergedWords(MergeSeeds(seeds)) == LegacyWords(seeds) <==> NothingRepeated(seeds)
  {
    if seeds == [] {
      assert MergeSeeds(seeds).Keys == {};
    } else {
      var rest, last := seeds[..|seeds| - 1], seeds[|seeds| - 1];
      MergingSavesExactly(rest);
      MergedAtMostLegacy(rest);
      LastSeedSaves(MergeSeeds(rest), last);
      GroupIsMerge(rest, last.lockRoot);
      RepeatedLast(seeds, rest, last);
    }
  }

  lemma RepeatedLast(seeds: seq<Seed>, rest: seq<Seed>, last: Seed)
    requires seeds == rest + [last]
    ensures NothingRepeated(seeds) <==>
              NothingRepeated(rest) && DistinctKeys(last.noteData)
                  && forall s | s in rest :: s.lockRoot != last.lockRoot
  {
    assert forall i | 0 <= i < |rest| :: seeds[i] == rest[i];
    assert seeds[|rest|] == last;
  }

  lemma LastSeedSaves(groups: map<Digest, Group>, last: Seed)
    ensures var group := MergeEntries(GroupAt(groups, last.lockRoot), last.noteData);
            && MergedWords(groups[last.lockRoot := group]) <= MergedWords(groups) + NoteDataWords(last.noteData)
            && (MergedWords(groups[last.lockRoot := group]) == MergedWords(groups) + NoteDataWords(last.noteData)
                <==> last.lockRoot !in groups && DistinctKeys(last.noteData))
  {
    var before := GroupAt(groups, last.lockRoot);
    var group := MergeEntries(before, last.noteData);
    GroupsCost(groups, last.lockRoot, group);
    MergeEntriesWords(before, last.noteData);
    if last.lockRoot !in groups {
      EmptyGroup(before);
      MergeEntriesExactly(before, last.noteData);
    }
  }

  // ----- The counting loops

  method CountNoteDataWords(entries: seq<NoteEntry>) returns (words: nat)
    ensures words == NoteDataWords(entries)
  {
    words := 1;
    for i := 0 to |entries|
      invariant words == NoteDataWords(entries[..i])
    {
      var leaves := NumOfLeaves(entries[i].value);
      assert entries[..i + 1][..i] == entries[..i];
      words := words + 1 + leaves;
    }
    assert entries[..|entries|] == entries;
  }

  method InsertEntries(start: Group, entries: seq<NoteEntry>) returns (group: Group)
    ensures group == MergeEntries(start, entries)
  {
    group := start;
    for i := 0 to |entries|
      invariant group == MergeEntries(start, entries[..i])
    {
      var leaves := NumOfLeaves(entries[i].value);
      assert entries[..i + 1][..i] == entries[..i];
      group := group[entries[i].key := leaves];
    }
    assert entries[..|entries|] == entries;
  }

  method WordsOfGroup(group: Group) returns (words: nat)
    ensures words == GroupWords(group)
  {
    words := 1;
    var keys := group.Keys;
    ghost var cost := EntryWords(group);
    while keys != {}
      invariant keys <= group.Keys
      invariant words + Sum(keys, cost) == 1 + Sum(group.Keys, cost)
      decreases |keys|
    {
      var k :| k in keys;
      SumWithout(keys, cost, k);
      words := words + 1 + group[k];
      keys := keys - {k};
    }
  }

  method WordsOfGroups(groups: map<Digest, Group>) returns (words: nat)
    ensures words == MergedWords(groups)
  {
    words := 0;
    var roots := groups.Keys;
    ghost var cost := WordsByRoot(groups);
    while roots != {}
      invariant roots <= groups.Keys
      invariant words + Sum(roots, cost) == Sum(groups.Keys, cost)
      decreases |roots|
    {
      var r :| r in roots;
      SumWithout(roots, cost, r);
      var w := WordsOfGroup(groups[r]);
      words := words + w;
      roots := roots - {r};
    }
  }

  /** The two counters of `count_seed_words`; a height uses only one of them. */
  ghost predicate Counted(seeds: seq<Seed>, active: bool, groups: map<Digest, Group>, legacy: nat) {
    if active then groups == MergeSeeds(seeds) && legacy == 0 else groups == map[] && legacy == LegacyWords(seeds)
  }

  lemma NextSeed(done: seq<Seed>, seeds: seq<Seed>, j: nat)
    requires j < |seeds|
    ensures var next := done + seeds[..j + 1]; next[..|next| - 1] == done + seeds[..j] && next[|next| - 1] == seeds[j]
  {
    assert seeds[..j + 1] == seeds[..j] + [seeds[j]];
    assert done + seeds[..j + 1] == done + seeds[..j] + [seeds[j]];
  }

  /** The inner loop of `count_seed_words`, over one spend. */
  method CountSpend(seeds: seq<Seed>, active: bool, groupsIn: map<Digest, Group>, legacyIn: nat, ghost done: seq<Seed>)
    returns (groups: map<Digest, Group>, legacy: nat)
    requires Counted(done, active, groupsIn, legacyIn)
    ensures Counted(done + seeds, active, groups, legacy)
  {
    groups, legacy := groupsIn, legacyIn;
    assert done + seeds[..0] == done;
    for j := 0 to |seeds|
      invariant Counted(done + seeds[..j], active, groups, legacy)
    {
      var seed := seeds[j];
      NextSeed(done, seeds, j);
      if active {
        var group := InsertEntries(GroupAt(groups, seed.lockRoot), seed.noteData);
        groups := groups[seed.lockRoot := group];
      } else {
        var w := CountNoteDataWords(seed.noteData);
        legacy := legacy + w;
      }
    }
    assert seeds[..|seeds|] == seeds;
  }

  /** `count_seed_words`, spend by spend. */
  method CountSeedWords(spends: seq<(Name, Spend)>, height: u64, bythos: u64) returns (words: nat)
    ensures words == SeedWords(AllSeeds(spends), height, bythos)
  {
    var groups: map<Digest, Group> := map[];
    var legacy: nat := 0;
    var active := height >= bythos;
    ghost var done: seq<Seed> := [];
    for i := 0 to |spends|
      invariant done + AllSeeds(spends[i..]) == AllSeeds(spends)
      invariant Counted(done, active, groups, legacy)
    {
      var seeds := spends[i].1.seeds;
      groups, legacy := CountSpend(seeds, active, groups, legacy, done);
      assert AllSeeds(spends[i..]) == seeds + AllSeeds(spends[i + 1..]) by {
        assert spends[i..][1..] == spends[i + 1..];
      }
      done := done + seeds;
    }
    assert done == AllSeeds(spends);
    if active {
      words := WordsOfGroups(groups);
    } else {
      words := legacy;
    }
  }

  function PricedNoun(spend: Spend): Noun {
    match spend
    case WitnessSpend(noun, _, _) => noun
    case LegacySpend(noun, _, _) => noun
  }

  function WitnessWords(spends: seq<(Name, Spend)>): nat {
    if spends == [] then 0 else WitnessWords(spends[..|spends| - 1]) + Leaves(PricedNoun(spends[|spends| - 1].1))
  }

  /** Each input pays for the leaves of its own witness, or of its signature if it spends an old note. */
  lemma {:induction false} WitnessCosts(a: seq<(Name, Spend)>, b: seq<(Name, Spend)>, s: (Name, Spend))
    ensures WitnessWords([]) == 0
    ensures WitnessWords(a + b) == WitnessWords(a) + WitnessWords(b)
    ensures s.1.WitnessSpend? ==> WitnessWords([s]) == Leaves(s.1.witnessNoun)
    ensures s.1.LegacySpend? ==> WitnessWords([s]) == Leaves(s.1.signatureNoun)
  {
    if b == [] {
      assert a + b == a;
    } else {
      var n := |b| - 1;
      WitnessCosts(a, b[..n], s);
      assert (a + b)[..|a| + n] == a + b[..n];
    }
  }

  method CountWitnessWords(spends: seq<(Name, Spend)>) returns (words: nat)
    ensures words == WitnessWords(spends)
  {
    words := 0;
    for i := 0 to |spends|
      invariant words == WitnessWords(spends[..i])
    {
      var leaves := NumOfLeaves(PricedNoun(spends[i].1));
      assert spends[..i + 1][..i] == spends[..i];
      words := words + leaves;
    }
    assert spends[..|spends|] == spends;
  }

  // ----- The fee

  function Saturate(x: nat): u64 {
    if x <= U64_MAX then x else U64_MAX
  }

  function Price(words: nat, base: nat): u64 {
    Saturate(words * base)
  }

  /** `calculate_min_fee` on given word counts. */
  function FeeFor(seedWords: nat, witnessWords: nat, height: nat, c: FeeConstants): u64 {
    var active := height >= c.bythosPhase;
    var base := if active then c.baseFee else Saturate(2 * c.baseFee);
    var divisor := if active then (if c.inputFeeDivisor >= 1 then c.inputFeeDivisor else 1) else 1;
    var fee := Saturate(Price(seedWords, base) + Price(witnessWords, base) / divisor);
    if fee >= c.minFee then fee else c.minFee
  }

  ghost function MinFee(spends: seq<(Name, Spend)>, height: nat, c: FeeConstants): u64 {
    FeeFor(SeedWords(AllSeeds(spends), height, c.bythosPhase), WitnessWords(spends), height, c)
  }

  /** A number in a word, the largest one standing for all past it. */
  function Cap(x: nat): (r: nat)
    ensures r <= 0xFFFF_FFFF_FFFF_FFFF && (x <= 0xFFFF_FFFF_FFFF_FFFF ==> r == x)
    ensures x > 0xFFFF_FFFF_FFFF_FFFF ==> r == 0xFFFF_FFFF_FFFF_FFFF
  {
    if x <= 0xFFFF_FFFF_FFFF_FFFF then x else 0xFFFF_FFFF_FFFF_FFFF
  }

  function AtLeast(floor: nat, x: nat): (r: nat)
    ensures r >= floor && r >= x && (r == floor || r == x)
  {
    if x >= floor then x else floor
  }

  method CalculateMinFee(spends: seq<(Name, Spend)>, height: u64, c: FeeConstants) returns (fee: u64)
    ensures fee == MinFee(spends, height, c)
    ensures var s, w := SeedWords(AllSeeds(spends), height, c.bythosPhase), WitnessWords(spends);
            if height >= c.bythosPhase then
              fee == AtLeast(c.minFee, Cap(Cap(s * c.baseFee)
                       + (if c.inputFeeDivisor == 0 then Cap(w * c.baseFee)
                           else Cap(w * c.baseFee) / c.inputFeeDivisor)))
            else
              fee == AtLeast(c.minFee, Cap(Cap(s * Cap(2 * c.baseFee)) + Cap(w * Cap(2 * c.baseFee))))
  {
    var seedWords := CountSeedWords(spends, height, c.bythosPhase);
    var witnessWords := CountWitnessWords(spends);
    fee := FeeFor(seedWords, witnessWords, height, c);
  }

  lemma PriceMonotone(a: nat, b: nat, x: nat, y: nat)
    requires a <= b && x <= y
    ensures Price(a, x) <= Price(b, y)
  {
    assert a * x <= a * y <= b * y;
  }

  lemma DivisionShrinks(x: nat, d: nat)
    requires d >= 1
    ensures x / d <= x
  {
    var q := x / d;
    assert x == q * d + x % d;
    assert q * d == q + q * (d - 1);
  }

  /** The fee of the same spends at any height from bythos on never exceeds the fee at any height before
      it, saturation included; and within one phase the height does not matter. */
  lemma BythosNeverRaisesTheFee(spends: seq<(Name, Spend)>, before: nat, after: nat, c: FeeConstants)
    requires before <= after
    ensures MinFee(spends, after, c) <= MinFee(spends, before, c)
    ensures (before < c.bythosPhase <==> after < c.bythosPhase)
      ==> MinFee(spends, after, c) == MinFee(spends, before, c)
  {
    if before < c.bythosPhase <= after {
      var seeds, w := AllSeeds(spends), WitnessWords(spends);
      var merged, legacy := MergedWords(MergeSeeds(seeds)), LegacyWords(seeds);
      var doubled := Saturate(2 * c.baseFee);
      MergedAtMostLegacy(seeds);
      PriceMonotone(merged, legacy, c.baseFee, doubled);
      PriceMonotone(w, w, c.baseFee, doubled);
      var divisor := if c.inputFeeDivisor >= 1 then c.inputFeeDivisor else 1;
      DivisionShrinks(Price(w, c.baseFee), divisor);
      assert Price(w, doubled) / 1 == Price(w, doubled);
    }
  }

  // ----- Pins are free

  /** The same transaction up to the pins on its seeds. */
  predicate SameUpToPins(a: seq<(Name, Spend)>, b: seq<(Name, Spend)>) {
    |a| == |b| && forall i | 0 <= i < |a| ::
      && PricedNoun(a[i].1) == PricedNoun(b[i].1)
      && UnpinAll(a[i].1.seeds) == UnpinAll(b[i].1.seeds)
  }

  lemma {:induction false} WordsIgnorePins(a: seq<Seed>, b: seq<Seed>)
    requires |a| == |b| && forall i | 0 <= i < |a| :: Unpinned(a[i]) == Unpinned(b[i])
    ensures LegacyWords(a) == LegacyWords(b) && MergeSeeds(a) == MergeSeeds(b)
  {
    if a != [] {
      WordsIgnorePins(a[..|a| - 1], b[..|b| - 1]);
      assert Unpinned(a[|a| - 1]) == Unpinned(b[|b| - 1]);
    }
  }

  lemma {:induction false} AllSeedsUpToPins(a: seq<(Name, Spend)>, b: seq<(Name, Spend)>)
    requires SameUpToPins(a, b)
    ensures |AllSeeds(a)| == |AllSeeds(b)|
    ensures forall i | 0 <= i < |AllSeeds(a)| :: Unpinned(AllSeeds(a)[i]) == Unpinned(AllSeeds(b)[i])
  {
    if a != [] {
      AllSeedsUpToPins(a[1..], b[1..]);
      var x, y := a[0].1.seeds, b[0].1.seeds;
      assert |UnpinAll(x)| == |UnpinAll(y)| && forall i | 0 <= i < |x| :: UnpinAll(x)[i] == UnpinAll(y)[i];
    }
  }

  lemma {:induction false} WitnessWordsUpToPins(a: seq<(Name, Spend)>, b: seq<(Name, Spend)>)
    requires SameUpToPins(a, b)
    ensures WitnessWords(a) == WitnessWords(b)
  {
    if a != [] {
      WitnessWordsUpToPins(a[..|a| - 1], b[..|b| - 1]);
    }
  }

  /** Pinning `output_source`, in any way, never changes the fee at any height. */
  lemma PinsAreFree(a: seq<(Name, Spend)>, b: seq<(Name, Spend)>, height: nat, c: FeeConstants)
    requires SameUpToPins(a, b)
    ensures MinFee(a, height, c) == MinFee(b, height, c)
  {
    AllSeedsUpToPins(a, b);
    WordsIgnorePins(AllSeeds(a), AllSeeds(b));
    WitnessWordsUpToPins(a, b);
  }
}
