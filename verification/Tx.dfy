/** Transactions: nouns, seeds and spends. */
module Tx {
  import opened Wrappers
  import opened Field

  datatype Noun = Atom(value: nat) | Cell(head: Noun, tail: Noun)

  datatype NoteEntry = NoteEntry(key: string, value: Noun)

  datatype Source = Source(hash: Digest, isCoinbase: bool)

  /** One output line of a spend. Its hash covers every field but `outputSource`. */
  datatype Seed = Seed(outputSource: Option<Source>, lockRoot: Digest, noteData: seq<NoteEntry>, gift: u64,
                       parentHash: Digest)

  /** The name of an input note. */
  datatype Name = Name(first: Digest, last: Digest)

  datatype Spend =
    | WitnessSpend(witnessNoun: Noun, seeds: seq<Seed>, fee: u64)
    | LegacySpend(signatureNoun: Noun, seeds: seq<Seed>, fee: u64)

  function Unpinned(s: Seed): Seed {
    s.(outputSource := None)
  }

  function UnpinAll(seeds: seq<Seed>): (r: seq<Seed>)
    ensures |r| == |seeds| && forall i | 0 <= i < |seeds| :: r[i] == Unpinned(seeds[i])
  {
    if seeds == [] then [] else [Unpinned(seeds[0])] + UnpinAll(seeds[1..])
  }

  /** Note-data as the chain keeps it: a map, the last entry under a key winning. */
  function DataOf(entries: seq<NoteEntry>): map<string, Noun> {
    if entries == [] then map[] else
      var last := entries[|entries| - 1];
      DataOf(entries[..|entries| - 1])[last.key := last.value]
  }

  /** What a seed's hash covers: four fields, and not the pin. */
  datatype Output = Output(lockRoot: Digest, data: map<string, Noun>, gift: u64, parentHash: Digest)

  /** A key is there exactly when some entry carries it. */
  lemma {:induction false} DataKeys(entries: seq<NoteEntry>, key: string)
    ensures key in DataOf(entries) <==> exists i | 0 <= i < |entries| :: entries[i].key == key
  {
    if entries != [] {
      DataKeys(entries[..|entries| - 1], key);
    }
  }

  /** And has the value of the last entry that carries it. */
  lemma {:induction false} DataIsTheLastEntry(entries: seq<NoteEntry>, i: nat)
    requires i < |entries| && forall j | i < j < |entries| :: entries[j].key != entries[i].key
    ensures entries[i].key in DataOf(entries) && DataOf(entries)[entries[i].key] == entries[i].value
  {
    if i < |entries| - 1 {
      DataIsTheLastEntry(entries[..|entries| - 1], i);
    }
  }

  /** Two seeds hash alike exactly when they agree in root, gift, parent and note-data as a map. */
  lemma HashedAlike(s: Seed, t: Seed)
    ensures Hashed(s) == Hashed(t) <==>
              s.lockRoot == t.lockRoot && s.gift == t.gift && s.parentHash == t.parentHash
              && DataOf(s.noteData) == DataOf(t.noteData)
  {
  }

  function Hashed(s: Seed): Output {
    Output(s.lockRoot, DataOf(s.noteData), s.gift, s.parentHash)
  }

  /** A seed as the chain reads it. Two seeds are one element of a set when these agree, pin included. */
  datatype Landed = Landed(pin: Option<Source>, output: Output)

  function OnChain(s: Seed): Landed {
    Landed(s.outputSource, Hashed(s))
  }

  /** All seeds of a transaction, spend by spend. */
  function AllSeeds(spends: seq<(Name, Spend)>): seq<Seed> {
    if spends == [] then [] else spends[0].1.seeds + AllSeeds(spends[1..])
  }

  lemma {:induction false} AllSeedsConcat(a: seq<(Name, Spend)>, b: seq<(Name, Spend)>)
    ensures AllSeeds(a + b) == AllSeeds(a) + AllSeeds(b)
  {
    if a == [] {
      assert a + b == b;
    } else {
      AllSeedsConcat(a[1..], b);
      assert (a + b)[1..] == a[1..] + b;
    }
  }

  /** Every spend of either kind brings all its seeds, in order. */
  lemma AllSeedsOfOne(name: Name, noun: Noun, seeds: seq<Seed>, fee: u64)
    ensures AllSeeds([(name, WitnessSpend(noun, seeds, fee))]) == seeds
    ensures AllSeeds([(name, LegacySpend(noun, seeds, fee))]) == seeds
  {
  }
}
