/** The in-memory replay cache: a map swept by age, in two atomic steps a call. */
module ReplayCache {
  import opened Field

  type Key = seq<byte>

  /** Instants and durations in one unit. A later instant is no time before an earlier one. */
  function Since(now: nat, start: nat): nat {
    if now >= start then now - start else 0
  }

  function Stale(entries: map<Key, nat>, now: nat, ttl: nat): set<Key> {
    set k | k in entries && Since(now, entries[k]) > ttl
  }

  function Swept(entries: map<Key, nat>, now: nat, ttl: nat): map<Key, nat> {
    entries - Stale(entries, now, ttl)
  }

  predicate Live(entries: map<Key, nat>, key: Key, now: nat, ttl: nat) {
    key in entries && Since(now, entries[key]) <= ttl
  }

  function Checked(entries: map<Key, nat>, key: Key, now: nat, ttl: nat): map<Key, nat> {
    if Live(entries, key, now, ttl) then entries else entries[key := now]
  }

  class InMemoryReplayCache {
    var inner: map<Key, nat>

    constructor ()
      ensures inner == map[]
    {
      inner := map[];
    }

    /** One lock section: drop every entry older than the caller's ttl. */
    method Sweep(now: nat, ttl: nat)
      modifies this
      ensures inner == Swept(old(inner), now, ttl)
      ensures forall k :: k in inner <==> k in old(inner) && now <= old(inner)[k] + ttl
      ensures forall k | k in inner :: inner[k] == old(inner)[k]
    {
      var kept: map<Key, nat> := map[];
      var left := inner.Keys;
      while left != {}
        invariant inner == old(inner) && left <= inner.Keys
        invariant kept.Keys <= inner.Keys - left
        invariant forall k | k in inner && k !in left :: k in kept <==> Since(now, inner[k]) <= ttl
        invariant forall k | k in kept :: kept[k] == inner[k]
        decreases |left|
      {
        var k :| k in left;
        if Since(now, inner[k]) <= ttl {
          kept := kept[k := inner[k]];
        }
        left := left - {k};
      }
      inner := kept;
    }

    /** One lock section: report whether the nonce is live; record it if not. */
    method CheckAndInsert(nonce: Key, now: nat, ttl: nat) returns (seen: bool)
      modifies this
      ensures seen <==> Live(old(inner), nonce, now, ttl)
      ensures inner == Checked(old(inner), nonce, now, ttl)
      ensures seen <==> nonce in old(inner) && now <= old(inner)[nonce] + ttl
      ensures inner == if seen then old(inner) else old(inner)[nonce := now]
    {
      if nonce in inner && Since(now, inner[nonce]) <= ttl {
        return true;
      }
      inner := inner[nonce := now];
      return false;
    }

    /** One call run without interruption: a sweep, then a check. */
    method Seen(nonce: Key, now: nat, ttl: nat) returns (seen: bool)
      modifies this
      ensures seen <==> Live(old(inner), nonce, now, ttl)
      ensures inner == Checked(Swept(old(inner), now, ttl), nonce, now, ttl)
    {
      Sweep(now, ttl);
      seen := CheckAndInsert(nonce, now, ttl);
    }
  }

  // ----- Every interleaving of the atomic steps

  datatype Event = SweepEvent(now: nat, ttl: nat) | CheckEvent(key: Key, now: nat, ttl: nat)

  function Apply(entries: map<Key, nat>, e: Event): map<Key, nat> {
    match e
    case SweepEvent(now, ttl) => Swept(entries, now, ttl)
    case CheckEvent(key, now, ttl) => Checked(entries, key, now, ttl)
  }

  /** The cache after the first `n` events. */
  function After(events: seq<Event>, n: nat): map<Key, nat>
    requires n <= |events|
  {
    if n == 0 then map[] else Apply(After(events, n - 1), events[n - 1])
  }

  /** Event `i` checks the key and finds it not seen. */
  predicate FreshAt(events: seq<Event>, i: nat, key: Key)
    requires i < |events|
  {
    events[i].CheckEvent? && events[i].key == key && !Live(After(events, i), key, events[i].now, events[i].ttl)
  }

  predicate SeenAt(events: seq<Event>, i: nat, key: Key)
    requires i < |events|
  {
    events[i].CheckEvent? && events[i].key == key && Live(After(events, i), key, events[i].now, events[i].ttl)
  }

  /** Event `e` is a sweep, or a check of the key, for which the entry made at `start` is too old. */
  predicate Forgets(e: Event, key: Key, start: nat) {
    (e.CheckEvent? ==> e.key == key) && Since(e.now, start) > e.ttl
  }

  /** Event `i` recorded the key, and up to event `j`, that one included, nothing forgets the entry. */
  predicate KeptSince(events: seq<Event>, i: nat, j: nat, key: Key)
    requires i < j < |events|
  {
    FreshAt(events, i, key) && forall e | i < e <= j :: !Forgets(events[e], key, events[i].now)
  }

  /** An entry stays as long as nothing forgets it. */
  lemma {:induction false} EntryStays(events: seq<Event>, i: nat, n: nat, key: Key)
    requires i < n <= |events| && FreshAt(events, i, key)
    requires forall e | i < e < n :: !Forgets(events[e], key, events[i].now)
    ensures key in After(events, n) && After(events, n)[key] == events[i].now
  {
    if n > i + 1 {
      EntryStays(events, i, n - 1, key);
    }
  }

  /** Every entry was put there by a check that reported its key fresh, and nothing has forgotten it since. */
  lemma {:induction false} EntryHasAnOrigin(events: seq<Event>, n: nat, key: Key) returns (i: nat)
    requires n <= |events| && key in After(events, n)
    ensures i < n && FreshAt(events, i, key) && events[i].now == After(events, n)[key]
    ensures forall e | i < e < n :: !Forgets(events[e], key, events[i].now)
  {
    var e, before := events[n - 1], After(events, n - 1);
    if e.CheckEvent? && e.key == key && !Live(before, key, e.now, e.ttl) {
      i := n - 1;
    } else {
      i := EntryHasAnOrigin(events, n - 1, key);
    }
  }

  /** The cache exactly, for any ttls, any clock readings and any interleaving: a check reports its key as seen
      if and only if an earlier check recorded it and no sweep, and no check of that key, since then and up to
      this one found the entry older than its own ttl. */
  lemma SeenExactly(events: seq<Event>, j: nat, key: Key)
    requires j < |events| && events[j].CheckEvent? && events[j].key == key
    ensures SeenAt(events, j, key) <==> exists i | 0 <= i < j :: KeptSince(events, i, j, key)
  {
    if SeenAt(events, j, key) {
      var i := EntryHasAnOrigin(events, j, key);
      assert KeptSince(events, i, j, key);
    }
    if i :| 0 <= i < j && KeptSince(events, i, j, key) {
      EntryStays(events, i, j, key);
      assert !Forgets(events[j], key, events[i].now);
    }
  }

  /** So a key reported fresh twice was forgotten in between. */
  lemma FreshTwiceMeansForgotten(events: seq<Event>, i: nat, j: nat, key: Key)
    requires i < j < |events| && FreshAt(events, i, key) && FreshAt(events, j, key)
    ensures exists e | i < e <= j :: Forgets(events[e], key, events[i].now)
  {
    SeenExactly(events, j, key);
    assert !KeptSince(events, i, j, key);
  }

  // ----- Age alone

  /** No section before `j` was run with a later clock reading than `j`'s, nor with a shorter ttl. */
  predicate InOrder(events: seq<Event>, j: nat)
    requires j < |events|
  {
    forall e | 0 <= e < j :: events[e].now <= events[j].now && events[e].ttl >= events[j].ttl
  }

  /** `i` is a check of the key no more than `j`'s ttl before `j`. */
  predicate Within(events: seq<Event>, i: nat, j: nat, key: Key)
    requires i < |events| && j < |events|
  {
    events[i].CheckEvent? && events[i].key == key && Since(events[j].now, events[i].now) <= events[j].ttl
  }

  /** Where nothing ran out of order, age alone decides: seen means recorded no more than the ttl before. */
  lemma SeenByAge(events: seq<Event>, j: nat, key: Key)
    requires j < |events| && events[j].CheckEvent? && events[j].key == key && InOrder(events, j)
    ensures SeenAt(events, j, key) <==> exists i | 0 <= i < j :: FreshAt(events, i, key) && Within(events, i, j, key)
  {
    SeenExactly(events, j, key);
    if i :| 0 <= i < j && KeptSince(events, i, j, key) {
      assert !Forgets(events[j], key, events[i].now);
    }
    if i :| 0 <= i < j && FreshAt(events, i, key) && Within(events, i, j, key) {
      assert KeptSince(events, i, j, key);
    }
  }

  /** The trait's own contract at `j`: seen if and only if observed no more than the ttl before. */
  predicate TraitHolds(events: seq<Event>, j: nat, key: Key)
    requires j < |events|
  {
    SeenAt(events, j, key) <==> exists k | 0 <= k < j :: Within(events, k, j, key)
  }

  /** When the trait's contract holds, for any ttls, clocks and interleaving: a report of seen is always right, so
      it fails exactly where the key was observed within the ttl and no record of it was kept. */
  lemma TraitHoldsExactly(events: seq<Event>, j: nat, key: Key)
    requires j < |events| && events[j].CheckEvent? && events[j].key == key
    ensures TraitHolds(events, j, key) <==>
      ((exists k | 0 <= k < j :: Within(events, k, j, key)) ==> exists i | 0 <= i < j :: KeptSince(events, i, j, key))
  {
    SeenExactly(events, j, key);
    if i :| 0 <= i < j && KeptSince(events, i, j, key) {
      assert !Forgets(events[j], key, events[i].now);
      assert Within(events, i, j, key);
    }
  }

  /** And where nothing ran out of order it holds if and only if every replay within the ttl is of a record that
      is itself within the ttl: what the cache does not do is renew an entry that is replayed. */
  lemma TraitHoldsInOrder(events: seq<Event>, j: nat, key: Key)
    requires j < |events| && events[j].CheckEvent? && events[j].key == key && InOrder(events, j)
    ensures TraitHolds(events, j, key) <==>
      forall k | 0 <= k < j && SeenAt(events, k, key) && Within(events, k, j, key) ::
        exists i | 0 <= i < j :: FreshAt(events, i, key) && Within(events, i, j, key)
  {
    SeenByAge(events, j, key);
    if SeenAt(events, j, key) {
      assert exists k | 0 <= k < j :: Within(events, k, j, key);
    }
    forall k | 0 <= k < j && Within(events, k, j, key)
      ensures FreshAt(events, k, key) || SeenAt(events, k, key)
    {
    }
  }

  // ----- Calls

  /** A call reads the clock once. Its two sections, at later instants, both use that reading. */
  datatype Call = Call(read: nat, nonce: Key, ttl: nat)

  /** One section of one call, run at an instant. */
  datatype Section = Section(call: nat, check: bool, at: nat)

  function EventOf(calls: seq<Call>, s: Section): Event
    requires s.call < |calls|
  {
    var c := calls[s.call];
    if s.check then CheckEvent(c.nonce, c.read, c.ttl) else SweepEvent(c.read, c.ttl)
  }

  /** What one process can do: the sections run one at a time, each after its call's reading of the clock, each at
      most once, and a call's sweep before its check. */
  predicate Schedule(calls: seq<Call>, sections: seq<Section>) {
    && (forall e | 0 <= e < |sections| ::
          sections[e].call < |calls| && calls[sections[e].call].read <= sections[e].at)
    && (forall d, e | 0 <= d < e < |sections| :: sections[d].at <= sections[e].at)
    && (forall d, e | 0 <= d < e < |sections| && sections[d].call == sections[e].call ::
          !sections[d].check && sections[e].check)
    && (forall e | 0 <= e < |sections| && sections[e].check :: SweptBefore(sections, e))
  }

  predicate SweptBefore(sections: seq<Section>, e: nat)
    requires e < |sections|
  {
    exists d | 0 <= d < e :: sections[d].call == sections[e].call
  }

  function EventsOf(calls: seq<Call>, sections: seq<Section>): (r: seq<Event>)
    requires forall e | 0 <= e < |sections| :: sections[e].call < |calls|
    ensures |r| == |sections| && forall e | 0 <= e < |sections| :: r[e] == EventOf(calls, sections[e])
  {
    if sections == [] then [] else
      var n := |sections| - 1;
      EventsOf(calls, sections[..n]) + [EventOf(calls, sections[n])]
  }

  predicate TtlAtLeast(calls: seq<Call>, ttl: nat) {
    forall c | c in calls :: c.ttl >= ttl
  }

  /** In every schedule of calls whose ttls are `ttl` or more, two fresh reports of one key are more than `ttl`
      apart, from the first call's reading of the clock to the instant of the second report. */
  lemma {:induction false} FreshReportsAreApart(calls: seq<Call>, sections: seq<Section>, ttl: nat, i: nat, j: nat,
                                                key: Key)
    requires Schedule(calls, sections) && TtlAtLeast(calls, ttl)
    requires i < j < |sections|
    requires FreshAt(EventsOf(calls, sections), i, key) && FreshAt(EventsOf(calls, sections), j, key)
    ensures sections[j].at - calls[sections[i].call].read > ttl
  {
    var events := EventsOf(calls, sections);
    FreshTwiceMeansForgotten(events, i, j, key);
    var e :| i < e <= j && Forgets(events[e], key, events[i].now);
    assert calls[sections[e].call] in calls;
    assert calls[sections[e].call].read <= sections[e].at <= sections[j].at;
  }

  /** A check of a call that started when every section of the other calls before it had run. */
  predicate StartsLate(calls: seq<Call>, sections: seq<Section>, j: nat)
    requires Schedule(calls, sections) && j < |sections|
  {
    forall e | 0 <= e < j && sections[e].call != sections[j].call :: sections[e].at <= calls[sections[j].call].read
  }

  /** A call that starts after the others' sections, with the shortest ttl so far, is decided by age alone. */
  lemma LateCallsAreInOrder(calls: seq<Call>, sections: seq<Section>, j: nat)
    requires Schedule(calls, sections) && j < |sections| && StartsLate(calls, sections, j)
    requires forall e | 0 <= e < j :: calls[sections[e].call].ttl >= calls[sections[j].call].ttl
    ensures InOrder(EventsOf(calls, sections), j)
  {
  }

  // ----- Where the trait's contract fails

  /** The first call of a run, uninterrupted, records its key. */
  lemma FirstCall(events: seq<Event>, key: Key)
    requires |events| >= 2 && events[0].SweepEvent? && events[1].CheckEvent? && events[1].key == key
    ensures FreshAt(events, 1, key) && After(events, 2) == map[key := events[1].now]
  {
    assert After(events, 0) == map[];
    assert After(events, 1) == map[];
  }

  /** A replay does not renew its entry. Of three calls one after another, at 0, `ttl` and `ttl + 1`, the last is
      reported fresh, though the key was observed one tick before. */
  lemma {:induction false} ReplayDoesNotRenew(events: seq<Event>, key: Key, ttl: nat)
    requires ttl >= 1
    requires events == [SweepEvent(0, ttl), CheckEvent(key, 0, ttl), SweepEvent(ttl, ttl), CheckEvent(key, ttl, ttl),
                        SweepEvent(ttl + 1, ttl), CheckEvent(key, ttl + 1, ttl)]
    ensures FreshAt(events, 1, key) && SeenAt(events, 3, key) && FreshAt(events, 5, key)
    ensures InOrder(events, 5) && !TraitHolds(events, 5, key)
  {
    FirstCall(events, key);
    assert After(events, 3) == After(events, 2);
    assert SeenAt(events, 3, key);
    assert After(events, 4) == After(events, 3);
    assert After(events, 5) == map[];
    assert Within(events, 3, 5, key);
  }

  /** The sweep of a call with a shorter ttl makes the cache forget a key inside the ttl of the call that asks. */
  lemma {:induction false} ShortSweepForgets(events: seq<Event>, key: Key, short: nat, long: nat)
    requires short < long
    requires events == [SweepEvent(0, long), CheckEvent(key, 0, long), SweepEvent(short + 1, short),
                        SweepEvent(short + 1, long), CheckEvent(key, short + 1, long)]
    ensures FreshAt(events, 1, key) && FreshAt(events, 4, key) && !TraitHolds(events, 4, key)
  {
    FirstCall(events, key);
    assert After(events, 3) == map[];
    assert After(events, 4) == map[];
    assert Within(events, 1, 4, key);
  }

  /** With one ttl: a call is overtaken by the sweep of a call that read the clock after it, and reports fresh a key
      recorded one tick before its own reading. */
  lemma {:induction false} OvertakenCallForgets(events: seq<Event>, key: Key, ttl: nat)
    requires ttl >= 1
    requires events == [SweepEvent(0, ttl), CheckEvent(key, 0, ttl), SweepEvent(1, ttl), SweepEvent(ttl + 1, ttl),
                        CheckEvent(key, 1, ttl)]
    ensures FreshAt(events, 1, key) && FreshAt(events, 4, key) && events[4].now - events[1].now == 1
    ensures !TraitHolds(events, 4, key)
  {
    FirstCall(events, key);
    assert After(events, 3) == After(events, 2);
    assert After(events, 4) == map[];
    assert Within(events, 1, 4, key);
  }

  /** And this is a run of three calls. */
  lemma {:induction false} OvertakenRun(calls: seq<Call>, sections: seq<Section>, key: Key, other: Key, ttl: nat)
    requires ttl >= 1
    requires calls == [Call(0, key, ttl), Call(1, key, ttl), Call(ttl + 1, other, ttl)]
    requires sections == [Section(0, false, 0), Section(0, true, 0), Section(1, false, 1),
                          Section(2, false, ttl + 1), Section(1, true, ttl + 1)]
    ensures Schedule(calls, sections)
    ensures EventsOf(calls, sections) == [SweepEvent(0, ttl), CheckEvent(key, 0, ttl), SweepEvent(1, ttl),
                                          SweepEvent(ttl + 1, ttl), CheckEvent(key, 1, ttl)]
  {
    OvertakenSections(sections, ttl);
    assert |EventsOf(calls, sections)| == 5;
  }

  lemma {:induction false} OvertakenSections(sections: seq<Section>, ttl: nat)
    requires sections == [Section(0, false, 0), Section(0, true, 0), Section(1, false, 1),
                          Section(2, false, ttl + 1), Section(1, true, ttl + 1)]
    ensures forall d, e | 0 <= d < e < |sections| && sections[d].call == sections[e].call ::
              !sections[d].check && sections[e].check
    ensures SweptBefore(sections, 1) && SweptBefore(sections, 4)
  {
    assert sections[0].call == sections[1].call && sections[2].call == sections[4].call;
  }

  // ----- Domains

  const COLON: byte := 58

  function Prefixed(domain: seq<byte>, nonce: seq<byte>): Key {
    domain + [COLON] + nonce
  }

  lemma FirstColon(d: seq<byte>, n: seq<byte>)
    requires COLON !in d
    ensures Prefixed(d, n)[|d|] == COLON && forall i | 0 <= i < |d| :: Prefixed(d, n)[i] != COLON
  {
    forall i | 0 <= i < |d| ensures Prefixed(d, n)[i] != COLON {
      assert Prefixed(d, n)[i] == d[i] && d[i] in d;
    }
  }

  /** Keys of colon-free domains are equal only for equal domains and equal nonces: no nonce of one domain
      can meet a nonce of another. */
  lemma PrefixedSeparatesDomains(d: seq<byte>, n: seq<byte>, e: seq<byte>, m: seq<byte>)
    requires COLON !in d && COLON !in e
    ensures Prefixed(d, n) == Prefixed(e, m) <==> d == e && n == m
    ensures |Prefixed(d, n)| == |d| + 1 + |n| && Prefixed(d, n)[|d|] == ':' as int
    ensures Prefixed(d, n)[..|d|] == d && Prefixed(d, n)[|d| + 1..] == n
  {
    var a, b := Prefixed(d, n), Prefixed(e, m);
    if a == b {
      FirstColon(d, n);
      FirstColon(e, m);
      assert |d| == |e|;
      assert d == a[..|d|] && e == b[..|e|] && n == a[|d| + 1..] && m == b[|e| + 1..];
    }
  }
}
