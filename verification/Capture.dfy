/** Output sets that conserve, the z-map of spends, and what the chain makes of them. */
module Capture {
  import opened Wrappers
  import opened Field
  import opened Sums
  import opened Tx
  import opened OutputPin
  import opened ChainOutputs

  datatype OutputLine = OutputLine(lockRoot: Digest, noteData: seq<NoteEntry>, amount: u64)

  datatype CaptureError =
    | NoOutputs
    | ZeroOutput(i: nat)
    | SharedRoot(j: nat, i: nat)
    | NotConserving(paidOut: nat)

  function Total(outputs: seq<OutputLine>): nat {
    if outputs == [] then 0 else Total(outputs[..|outputs| - 1]) + outputs[|outputs| - 1].amount
  }

  predicate NonZero(outputs: seq<OutputLine>) {
    forall i | 0 <= i < |outputs| :: outputs[i].amount != 0
  }

  predicate DistinctRoots(outputs: seq<OutputLine>) {
    forall j, i | 0 <= j < i < |outputs| :: outputs[j].lockRoot != outputs[i].lockRoot
  }

  predicate Conserves(outputs: seq<OutputLine>, inputValue: nat, fee: nat) {
    outputs != [] && NonZero(outputs) && DistinctRoots(outputs) && Total(outputs) + fee == inputValue
  }

  function Draft(output: OutputLine, parentHash: Digest): Seed {
    Seed(None, output.lockRoot, output.noteData, output.amount, parentHash)
  }

  function Drafts(outputs: seq<OutputLine>, parentHash: Digest): (r: seq<Seed>)
    ensures |r| == |outputs| && forall i | 0 <= i < |outputs| :: r[i] == Draft(outputs[i], parentHash)
  {
    if outputs == [] then [] else
      Drafts(outputs[..|outputs| - 1], parentHash) + [Draft(outputs[|outputs| - 1], parentHash)]
  }

  /** The fault named is real, and nothing before it is at fault. */
  predicate FirstFault(outputs: seq<OutputLine>, error: CaptureError) {
    match error
    case ZeroOutput(at) =>
      && at < |outputs| && outputs[at].amount == 0
      && NonZero(outputs[..at]) && DistinctRoots(outputs[..at])
    case SharedRoot(other, at) =>
      && other < at < |outputs| && outputs[other].lockRoot == outputs[at].lockRoot
      && NonZero(outputs[..at + 1]) && DistinctRoots(outputs[..at])
    case _ => false
  }

  /** The refusals and the running total of `build_capture_seeds`: the first faulty output is named. */
  method CheckOutputs(outputs: seq<OutputLine>) returns (r: Result<nat, CaptureError>)
    ensures r.Success? <==> NonZero(outputs) && DistinctRoots(outputs)
    ensures r.Success? ==> r.value == Total(outputs)
    ensures r.Failure? ==> FirstFault(outputs, r.error)
  {
    var total: nat := 0;
    for i := 0 to |outputs|
      invariant NonZero(outputs[..i]) && DistinctRoots(outputs[..i]) && total == Total(outputs[..i])
    {
      if outputs[i].amount == 0 {
        return Failure(ZeroOutput(i));
      }
      assert outputs[..i + 1] == outputs[..i] + [outputs[i]];
      for j := 0 to i
        invariant forall k | 0 <= k < j :: outputs[k].lockRoot != outputs[i].lockRoot
      {
        if outputs[i].lockRoot == outputs[j].lockRoot {
          return Failure(SharedRoot(j, i));
        }
      }
      assert outputs[..i + 1][..i] == outputs[..i];
      total := total + outputs[i].amount;
    }
    assert outputs[..|outputs|] == outputs;
    return Success(total);
  }

  /** `build_capture_seeds`: it builds exactly when the outputs conserve, and then every line is pinned. */
  method BuildCaptureSeeds(h: SeedsHash, outputs: seq<OutputLine>, parentHash: Digest, inputValue: u64, fee: u64)
    returns (r: Result<seq<Seed>, CaptureError>)
    ensures r.Success? <==> Conserves(outputs, inputValue, fee)
    ensures r.Success? <==>
              outputs != [] && (forall i | 0 <= i < |outputs| :: outputs[i].amount != 0)
              && (forall i, j | 0 <= i < j < |outputs| :: outputs[i].lockRoot != outputs[j].lockRoot)
              && Total(outputs) + fee == inputValue
    ensures r.Success? ==> r.value == Pinned(h, Drafts(outputs, parentHash))
    ensures r.Success? ==> |r.value| == |outputs|
    ensures r.Success? ==> forall i | 0 <= i < |outputs| :: var line := outputs[i];
              var own := {Output(line.lockRoot, DataOf(line.noteData), line.amount, parentHash)};
              r.value[i] == Seed(Some(Source(h(own), false)), line.lockRoot, line.noteData, line.amount, parentHash)
    ensures r == Failure(NoOutputs) <==> outputs == []
    ensures r.Failure? && (r.error.ZeroOutput? || r.error.SharedRoot?) ==> FirstFault(outputs, r.error)
    ensures r.Failure? && r.error.NotConserving? ==>
      NonZero(outputs) && DistinctRoots(outputs) && r.error.paidOut == Total(outputs) + fee != inputValue
  {
    if outputs == [] {
      return Failure(NoOutputs);
    }
    var checked := CheckOutputs(outputs);
    if checked.Failure? {
      return Failure(checked.error);
    }
    var paidOut := checked.value + fee;
    if paidOut != inputValue {
      return Failure(NotConserving(paidOut));
    }
    var refs := NewRefs(Drafts(outputs, parentHash));
    PinOutputSource(h, refs);
    LinesStandAlone(h, outputs, parentHash);
    return Success(Values(refs));
  }

  /** At different lock roots every line is a group of its own. */
  lemma LinesStandAlone(h: SeedsHash, outputs: seq<OutputLine>, parentHash: Digest)
    requires DistinctRoots(outputs)
    ensures forall i | 0 <= i < |outputs| :: var line := outputs[i];
              var own := {Output(line.lockRoot, DataOf(line.noteData), line.amount, parentHash)};
              Pinned(h, Drafts(outputs, parentHash))[i]
              == Seed(Some(Source(h(own), false)), line.lockRoot, line.noteData, line.amount, parentHash)
  {
    var drafts := Drafts(outputs, parentHash);
    forall i | 0 <= i < |outputs|
      ensures Group(drafts, outputs[i].lockRoot) == {Hashed(drafts[i])}
    {
      assert drafts[i] in drafts;
      forall s | s in drafts && s.lockRoot == outputs[i].lockRoot ensures s == drafts[i] {
        var j :| 0 <= j < |drafts| && drafts[j] == s;
      }
    }
  }

  method NewRefs(seeds: seq<Seed>) returns (refs: seq<SeedRef>)
    ensures fresh(refs) && Values(refs) == seeds
  {
    refs := [];
    for i := 0 to |seeds|
      invariant fresh(refs) && |refs| == i && forall k | 0 <= k < i :: refs[k].seed == seeds[k]
    {
      var ref := new SeedRef(seeds[i]);
      refs := refs + [ref];
    }
  }

  // ----- The z-map of spends

  datatype JamError = NoSpends | SameInput(first: nat, second: nat)

  predicate DistinctNames(spends: seq<(Name, Spend)>) {
    forall i, j | 0 <= i < j < |spends| :: spends[i].0 != spends[j].0
  }

  method RefuseDuplicateInputNames(spends: seq<(Name, Spend)>) returns (r: Result<(), JamError>)
    ensures r.Success? <==> DistinctNames(spends)
    ensures r.Failure? ==>
      (r.error.SameInput? && r.error.first < r.error.second < |spends|
          && spends[r.error.first].0 == spends[r.error.second].0)
  {
    var seen: seq<Name> := [];
    for i := 0 to |spends|
      invariant |seen| == i && (forall k | 0 <= k < i :: seen[k] == spends[k].0) && DistinctNames(spends[..i])
    {
      for k := 0 to i
        invariant forall j | 0 <= j < k :: seen[j] != spends[i].0
      {
        if seen[k] == spends[i].0 {
          return Failure(SameInput(k, i));
        }
      }
      seen := seen + [spends[i].0];
    }
    assert spends[..|spends|] == spends;
    return Success(());
  }

  /** The z-map made of a list of spends: a later entry under a name replaces an earlier one. */
  function ZMap(spends: seq<(Name, Spend)>): map<Name, Spend> {
    if spends == [] then map[] else
      var last := spends[|spends| - 1];
      ZMap(spends[..|spends| - 1])[last.0 := last.1]
  }

  /** One spend makes one entry, and the entries of later spends stand over those of earlier ones. */
  lemma {:induction false} LaterSpendsWin(a: seq<(Name, Spend)>, b: seq<(Name, Spend)>, s: (Name, Spend))
    ensures ZMap([]) == map[] && ZMap([s]) == map[s.0 := s.1]
    ensures ZMap(a + b) == ZMap(a) + ZMap(b)
  {
    if b == [] {
      assert a + b == a;
    } else {
      var n := |b| - 1;
      LaterSpendsWin(a, b[..n], s);
      assert (a + b)[..|a| + n] == a + b[..n] && (a + b)[|a| + n] == b[n];
    }
  }

  /** With distinct names the map has one entry a spend and no other: nothing is replaced and nothing lost. */
  lemma {:induction false} NothingReplaced(spends: seq<(Name, Spend)>)
    requires DistinctNames(spends)
    ensures |ZMap(spends)| == |spends| && Holds(ZMap(spends), spends)
  {
    if spends != [] {
      var n, last := |spends| - 1, spends[|spends| - 1];
      var earlier := spends[..n];
      assert spends == earlier + [last];
      NothingReplaced(earlier);
      EarlierNames(spends, n);
      OneMoreEntry(ZMap(earlier), earlier, last);
      assert ZMap(spends) == ZMap(earlier)[last.0 := last.1];
    }
  }

  /** The map holds the spends of the list under their names, and no other. */
  predicate Holds(m: map<Name, Spend>, spends: seq<(Name, Spend)>) {
    && (forall s | s in spends :: s.0 in m && m[s.0] == s.1)
    && (forall name | name in m :: (name, m[name]) in spends)
  }

  lemma OneMoreEntry(m: map<Name, Spend>, spends: seq<(Name, Spend)>, last: (Name, Spend))
    requires Holds(m, spends) && forall s | s in spends :: s.0 != last.0
    ensures |m[last.0 := last.1]| == |m| + 1 && Holds(m[last.0 := last.1], spends + [last])
  {
    assert last.0 !in m;
    var more := m[last.0 := last.1];
    assert forall name | name in m :: (name, m[name]) in spends && (name, m[name]).0 != last.0;
    forall name | name in more ensures (name, more[name]) in spends + [last] {
      assert name != last.0 ==> (name, m[name]) in spends;
    }
  }

  lemma EarlierNames(spends: seq<(Name, Spend)>, n: nat)
    requires DistinctNames(spends) && n < |spends|
    ensures forall s | s in spends[..n] :: s.0 != spends[n].0
  {
    forall s | s in spends[..n] ensures s.0 != spends[n].0 {
      var i :| 0 <= i < n && spends[i] == s;
    }
  }

  /** `jam_spends_canonical`, up to the noun encoding: the spends go into the z-map one by one. */
  method SpendsMap(spends: seq<(Name, Spend)>) returns (r: Result<map<Name, Spend>, JamError>)
    ensures r.Success? <==> spends != [] && DistinctNames(spends)
    ensures r.Success? ==> r.value == ZMap(spends)
  {
    if spends == [] {
      return Failure(NoSpends);
    }
    var refused := RefuseDuplicateInputNames(spends);
    if refused.Failure? {
      return Failure(refused.error);
    }
    var m: map<Name, Spend> := map[];
    for i := 0 to |spends|
      invariant m == ZMap(spends[..i])
    {
      assert spends[..i + 1][..i] == spends[..i];
      m := m[spends[i].0 := spends[i].1];
    }
    assert spends[..|spends|] == spends;
    return Success(m);
  }

  // ----- Conservation of the transaction that is sent

  function FeeIn(m: map<Name, Spend>): Name -> nat {
    name => if name in m then m[name].fee else 0
  }

  function HeldIn(ledger: map<Name, nat>): Name -> nat {
    name => if name in ledger then ledger[name] else 0
  }

  ghost function FeesOf(m: map<Name, Spend>): nat {
    Sum(m.Keys, FeeIn(m))
  }

  /** What the notes that a map spends hold together, by the chain's ledger. */
  ghost function InputsOf(m: map<Name, Spend>, ledger: map<Name, nat>): nat
    requires m.Keys <= ledger.Keys
  {
    Sum(m.Keys, HeldIn(ledger))
  }

  /** The chain's check of one spend: the gifts of its set of seeds and its fee are what its note holds. */
  ghost predicate Balanced(spend: Spend, value: nat) {
    SetGifts(LandedSet(spend.seeds)) + spend.fee == value
  }

  ghost predicate AllBalanced(spends: seq<(Name, Spend)>, ledger: map<Name, nat>) {
    forall p | p in spends :: p.0 in ledger && Balanced(p.1, ledger[p.0])
  }

  function SeedSets(spends: seq<(Name, Spend)>): (r: seq<seq<Seed>>)
    ensures |r| == |spends| && forall k | 0 <= k < |spends| :: r[k] == spends[k].1.seeds
  {
    if spends == [] then [] else SeedSets(spends[..|spends| - 1]) + [spends[|spends| - 1].1.seeds]
  }

  lemma {:induction false} GiftsConcat(a: seq<Landed>, b: seq<Landed>)
    ensures Gifts(a + b) == Gifts(a) + Gifts(b)
  {
    if a == [] {
      assert a + b == b;
    } else {
      GiftsConcat(a[1..], b);
      assert (a + b)[1..] == a[1..] + b;
    }
  }

  lemma {:induction false} ConcatLast<T>(lists: seq<seq<T>>)
    requires lists != []
    ensures Concat(lists) == Concat(lists[..|lists| - 1]) + lists[|lists| - 1]
  {
    if |lists| > 1 {
      ConcatLast(lists[1..]);
      assert lists[1..][..|lists| - 2] == lists[..|lists| - 1][1..];
    }
  }

  /** Met without repeats, a set's gifts are the sum met. */
  lemma {:induction false} GiftsOfDistinct(tap: seq<Landed>)
    requires NoRepeats(tap)
    ensures Gifts(tap) == SetGifts(set s | s in tap)
  {
    if tap == [] {
      assert (set s | s in tap) == {};
    } else {
      FirstOfDistinct(tap);
      GiftsOfDistinct(tap[1..]);
      SetGiftsGrow((set s | s in tap[1..]), tap[0]);
    }
  }

  lemma FirstOfDistinct(tap: seq<Landed>)
    requires NoRepeats(tap) && tap != []
    ensures NoRepeats(tap[1..]) && tap[0] !in tap[1..]
    ensures (set s | s in tap) == (set s | s in tap[1..]) + {tap[0]}
  {
    var rest := tap[1..];
    assert tap == [tap[0]] + rest;
    forall i, j | 0 <= i < j < |rest| ensures rest[i] != rest[j] {
      assert tap[i + 1] != tap[j + 1];
    }
    forall j | 0 <= j < |rest| ensures rest[j] != tap[0] {
      assert tap[0] != tap[j + 1];
    }
  }

  lemma EmptySums(m: map<Name, Spend>, ledger: map<Name, nat>)
    requires m == map[]
    ensures FeesOf(m) == 0 && InputsOf(m, ledger) == 0
  {
  }

  lemma FreshName(spends: seq<(Name, Spend)>, n: nat)
    requires DistinctNames(spends) && n < |spends|
    ensures spends[n].0 !in ZMap(spends[..n])
  {
    NothingReplaced(spends[..n]);
    EarlierNames(spends, n);
  }

  lemma AddSpend(m: map<Name, Spend>, name: Name, spend: Spend, ledger: map<Name, nat>)
    requires name !in m && m.Keys <= ledger.Keys && name in ledger
    ensures FeesOf(m[name := spend]) == FeesOf(m) + spend.fee
    ensures InputsOf(m[name := spend], ledger) == InputsOf(m, ledger) + ledger[name]
  {
    var more := m[name := spend];
    SumUpdate(m.Keys, FeeIn(m), name, FeeIn(more));
    SumUpdate(m.Keys, HeldIn(ledger), name, HeldIn(ledger));
    assert more.Keys == m.Keys + {name};
  }

  /** The gifts met over all spends and the fees make up what the spent notes hold. */
  lemma {:induction false} AllBalance(spends: seq<(Name, Spend)>, taps: seq<seq<Landed>>, ledger: map<Name, nat>)
    requires DistinctNames(spends) && AllBalanced(spends, ledger) && TapsAll(taps, SeedSets(spends))
    ensures ZMap(spends).Keys <= ledger.Keys
    ensures Gifts(Concat(taps)) + FeesOf(ZMap(spends)) == InputsOf(ZMap(spends), ledger)
  {
    if spends == [] {
      EmptySums(ZMap(spends), ledger);
    } else {
      var n := |spends| - 1;
      assert spends[n] in spends;
      AllBalance(spends[..n], taps[..n], ledger);
      FreshName(spends, n);
      AddSpend(ZMap(spends[..n]), spends[n].0, spends[n].1, ledger);
      ConcatLast(taps);
      GiftsConcat(Concat(taps[..n]), taps[n]);
      assert Taps(taps[n], SeedSets(spends)[n]);
      GiftsOfDistinct(taps[n]);
    }
  }

  /** Conservation through merging: for every list of spends of different notes, each balanced against its own note, the
      merged outputs and the fees hold together what the notes held, whatever lock roots the spends share, however
      they are pinned, and in whatever order the chain meets them. */
  lemma MergedTransactionConserves(spends: seq<(Name, Spend)>, taps: seq<seq<Landed>>, ledger: map<Name, nat>)
    requires DistinctNames(spends) && AllBalanced(spends, ledger) && TapsAll(taps, SeedSets(spends))
    ensures ZMap(spends).Keys <= ledger.Keys
    ensures MergedAssets(BuildOutputs(Concat(taps))) + FeesOf(ZMap(spends)) == InputsOf(ZMap(spends), ledger)
  {
    AllBalance(spends, taps, ledger);
    MergedAssetsAreGifts(Concat(taps));
  }

  // ----- Captures

  /** One capture: its input's name, value and parent hash, and the outputs it was built from. */
  datatype Captured = Captured(name: Name, outputs: seq<OutputLine>, parentHash: Digest, inputValue: u64, fee: u64)

  ghost predicate Built(c: Captured) {
    Conserves(c.outputs, c.inputValue, c.fee)
  }

  /** A spend that carries a capture's seeds, under any pins. */
  predicate Carries(p: (Name, Spend), c: Captured) {
    p.0 == c.name && p.1.fee == c.fee && UnpinAll(p.1.seeds) == Drafts(c.outputs, c.parentHash)
  }

  lemma DraftOf(seeds: seq<Seed>, c: Captured, i: nat)
    requires UnpinAll(seeds) == Drafts(c.outputs, c.parentHash) && i < |seeds|
    ensures |seeds| == |c.outputs| && Hashed(seeds[i]) == Hashed(Draft(c.outputs[i], c.parentHash))
  {
    assert |UnpinAll(seeds)| == |Drafts(c.outputs, c.parentHash)|;
    assert UnpinAll(seeds)[i] == Draft(c.outputs[i], c.parentHash);
    HashIgnoresPins(seeds[i], Draft(c.outputs[i], c.parentHash));
  }

  function LandedList(seeds: seq<Seed>): (r: seq<Landed>)
    ensures |r| == |seeds| && forall i | 0 <= i < |seeds| :: r[i] == OnChain(seeds[i])
  {
    if seeds == [] then [] else LandedList(seeds[..|seeds| - 1]) + [OnChain(seeds[|seeds| - 1])]
  }

  lemma {:induction false} GiftsAreTotal(landed: seq<Landed>, outputs: seq<OutputLine>)
    requires |landed| == |outputs| && forall i | 0 <= i < |landed| :: landed[i].output.gift == outputs[i].amount
    ensures Gifts(landed) == Total(outputs)
  {
    if landed != [] {
      var n := |landed| - 1;
      GiftsAreTotal(landed[..n], outputs[..n]);
      GiftsConcat(landed[..n], [landed[n]]);
      assert landed == landed[..n] + [landed[n]] && [landed[n]][1..] == [];
      assert Gifts([landed[n]]) == landed[n].output.gift + Gifts([landed[n]][1..]);
    }
  }

  /** A built capture's spend passes the chain's check of one spend, under any pins. */
  lemma CaptureBalances(p: (Name, Spend), c: Captured)
    requires Built(c) && Carries(p, c)
    ensures Balanced(p.1, c.inputValue)
  {
    var seeds := p.1.seeds;
    var landed := LandedList(seeds);
    assert |UnpinAll(seeds)| == |c.outputs|;
    forall i | 0 <= i < |seeds| ensures Hashed(seeds[i]) == Hashed(Draft(c.outputs[i], c.parentHash)) {
      DraftOf(seeds, c, i);
    }
    forall i, j | 0 <= i < j < |landed| ensures landed[i] != landed[j] {
      assert landed[i].output.lockRoot == c.outputs[i].lockRoot && landed[j].output.lockRoot == c.outputs[j].lockRoot;
    }
    GiftsAreTotal(landed, c.outputs);
    GiftsOfDistinct(landed);
    SameSet(seeds);
  }

  lemma SameSet(seeds: seq<Seed>)
    ensures (set s | s in LandedList(seeds)) == LandedSet(seeds)
  {
    var landed := LandedList(seeds);
    forall s | s in LandedSet(seeds) ensures s in landed {
      var i :| 0 <= i < |seeds| && OnChain(seeds[i]) == s;
      assert landed[i] == s;
    }
  }

  /** The ledger holds each captured note at its value. */
  predicate LedgerHolds(ledger: map<Name, nat>, captures: seq<Captured>) {
    forall c | c in captures :: c.name in ledger && ledger[c.name] == c.inputValue
  }

  /** Conservation of what is sent: the transaction is the z-map of an accepted list of captures, which the chain taps
      in its own order. Its merged outputs and its fees hold together what the notes named in the map hold by the
      ledger. */
  lemma SentTransactionConserves(captures: seq<Captured>, sent: seq<(Name, Spend)>, tapped: seq<(Name, Spend)>,
                                 taps: seq<seq<Landed>>, ledger: map<Name, nat>)
    requires |sent| == |captures| && DistinctNames(sent) && LedgerHolds(ledger, captures)
    requires forall i | 0 <= i < |captures| :: Built(captures[i]) && Carries(sent[i], captures[i])
    requires DistinctNames(tapped) && ZMap(tapped) == ZMap(sent) && TapsAll(taps, SeedSets(tapped))
    ensures ZMap(sent).Keys <= ledger.Keys
    ensures MergedAssets(BuildOutputs(Concat(taps))) + FeesOf(ZMap(sent)) == InputsOf(ZMap(sent), ledger)
  {
    forall p | p in tapped ensures p.0 in ledger && Balanced(p.1, ledger[p.0]) {
      NothingReplaced(tapped);
      NothingReplaced(sent);
      assert p.0 in ZMap(sent) && (p.0, ZMap(sent)[p.0]) in sent;
      var i :| 0 <= i < |sent| && sent[i] == p;
      assert captures[i] in captures;
      CaptureBalances(p, captures[i]);
    }
    MergedTransactionConserves(tapped, taps, ledger);
  }

  // ----- Acceptance

  function DraftSets(captures: seq<Captured>): (r: seq<seq<Seed>>)
    ensures |r| == |captures|
    ensures forall k | 0 <= k < |captures| :: r[k] == Drafts(captures[k].outputs, captures[k].parentHash)
  {
    if captures == [] then [] else
      DraftSets(captures[..|captures| - 1])
      + [Drafts(captures[|captures| - 1].outputs, captures[|captures| - 1].parentHash)]
  }

  /** No two captures pay equal lines, note-data compared as maps, from equal parents. */
  predicate CapturesApart(captures: seq<Captured>) {
    forall a, b, i, j | 0 <= a < b < |captures| && 0 <= i < |captures[a].outputs| && 0 <= j < |captures[b].outputs| ::
      Hashed(Draft(captures[a].outputs[i], captures[a].parentHash))
      != Hashed(Draft(captures[b].outputs[j], captures[b].parentHash))
  }

  lemma {:induction false} DraftsApart(captures: seq<Captured>)
    requires forall c | c in captures :: Built(c)
    ensures PaysApart(DraftSets(captures)) <==> CapturesApart(captures)
  {
    var sets := DraftSets(captures);
    if PaysApart(sets) {
      forall a, b, i, j | 0 <= a < b < |captures| && 0 <= i < |captures[a].outputs| && 0 <= j < |captures[b].outputs|
        ensures Hashed(Draft(captures[a].outputs[i], captures[a].parentHash))
             != Hashed(Draft(captures[b].outputs[j], captures[b].parentHash))
      {
        assert captures[a] in captures;
        assert sets[a][i] in sets[a] && sets[b][j] in sets[b];
      }
    }
    if CapturesApart(captures) {
      forall a, b, s: Seed, t: Seed | 0 <= a < b < |sets| && s in sets[a] && t in sets[b] && Hashed(s) == Hashed(t)
        ensures s.gift == 0
      {
        var i :| 0 <= i < |sets[a]| && sets[a][i] == s;
        var j :| 0 <= j < |sets[b]| && sets[b][j] == t;
      }
    }
  }

  predicate DistinctParents(captures: seq<Captured>) {
    forall a, b | 0 <= a < b < |captures| :: captures[a].parentHash != captures[b].parentHash
  }

  /** When the outputs of captures pinned across all of them are accepted, in whatever order the chain meets them: if
      and only if no two captures pay equal lines from equal parents. So always when the parents differ, however many
      lock roots the captures share. */
  lemma {:induction false} CapturesAcceptedExactly(h: SeedsHash, ours: seq<Seed>, captures: seq<Captured>,
                                                   sets: seq<seq<Seed>>, taps: seq<seq<Landed>>)
    requires sets == DraftSets(captures) && forall c | c in captures :: Built(c)
    requires SameOutputs(Concat(sets), ours) && TapsAll(taps, PinnedSets(h, ours, sets))
    ensures OutputsValid(h, Concat(taps)) <==> CapturesApart(captures)
    ensures DistinctParents(captures) ==> OutputsValid(h, Concat(taps))
  {
    DraftsApart(captures);
    ParentsKeepApart(captures);
    assert PaysApart(sets) <==> CapturesApart(captures);
    AuthoredOutputsValid(h, ours, sets, taps);
  }

  lemma {:induction false} AuthoredOutputsValid(h: SeedsHash, ours: seq<Seed>, sets: seq<seq<Seed>>,
                                                taps: seq<seq<Landed>>)
    requires SameOutputs(Concat(sets), ours) && TapsAll(taps, PinnedSets(h, ours, sets))
    ensures OutputsValid(h, Concat(taps)) <==> PaysApart(sets)
  {
    AuthoredTransactionIsValid(h, ours, sets, taps);
  }

  lemma {:induction false} ParentsKeepApart(captures: seq<Captured>)
    ensures DistinctParents(captures) ==> CapturesApart(captures)
  {
  }
}
