/** The settlement orchestrator's pre-flight checks and its bounded replay window. */
module SettleCache {
  import opened Wrappers
  import opened Field
  import opened MintGuard

  const SETTLED_IDS_CAP: nat := 1_000_000

  datatype NoteState = Pending | Verified | Settled

  datatype HullNote = HullNote(id: u64, hull: u64, root: Digest, state: NoteState)

  datatype GraftPayload = GraftPayload(note: HullNote, data: seq<byte>, expectedRoot: Digest)

  /** A domain verifier: its verdict, and whether it can build the settle poke. */
  datatype Verifier = Verifier(verify: (u64, seq<byte>, Digest) -> bool, pokeBuilds: GraftPayload -> bool)

  datatype SettleError = RootNotRegistered | Duplicate | NotPending | VerificationFailed | PokeFailed

  // ----- The window, on values

  /** The last `n` elements. */
  function Last<T>(s: seq<T>, n: nat): seq<T> {
    if |s| <= n then s else s[|s| - n..]
  }

  predicate NoDuplicates<T(==)>(s: seq<T>) {
    forall i, j | 0 <= i < j < |s| :: s[i] != s[j]
  }

  /** Two successes for one id have at least `cap` others between them. */
  predicate Spaced<T(==)>(history: seq<T>, cap: nat) {
    forall i, j | 0 <= i < j < |history| && history[i] == history[j] :: j - i - 1 >= cap
  }

  function Elements<T>(s: seq<T>): set<T> {
    set x | x in s
  }

  /** Inserting at the cap evicts the oldest. */
  function Admit<T>(order: seq<T>, id: T, cap: nat): seq<T> {
    (if |order| >= cap && order != [] then order[1..] else order) + [id]
  }

  lemma {:induction false} NoDuplicatesCardinality<T>(s: seq<T>)
    requires NoDuplicates(s)
    ensures |Elements(s)| == |s|
  {
    if s != [] {
      NoDuplicatesCardinality(s[1..]);
      assert Elements(s) == {s[0]} + Elements(s[1..]);
    }
  }

  lemma WindowIsDistinct<T>(history: seq<T>, cap: nat)
    requires Spaced(history, cap)
    ensures NoDuplicates(Last(history, cap))
  {
  }

  /** Admitting an id that is not in the window keeps the window the last `cap` successes, and keeps equal
      successes apart. */
  lemma AdmitKeepsWindow<T>(history: seq<T>, id: T, cap: nat)
    requires cap >= 1 && Spaced(history, cap) && id !in Last(history, cap)
    ensures Admit(Last(history, cap), id, cap) == Last(history + [id], cap)
    ensures Spaced(history + [id], cap)
  {
  }

  lemma LastMeans<T>(s: seq<T>, x: T, n: nat)
    ensures x in Last(s, n) <==> exists i | 0 <= i < |s| && |s| <= i + n :: s[i] == x
  {
    var window := Last(s, n);
    assert forall k | 0 <= k < |window| :: window[k] == s[k + |s| - |window|];
    if i :| 0 <= i < |s| && |s| <= i + n && s[i] == x {
      assert window[i - (|s| - |window|)] == x;
    }
  }

  // ----- The orchestrator

  class Settle {
    const guard: Guard
    const verifier: Verifier
    var settledIds: set<u64>
    var settledOrder: seq<u64>
    // Every call made so far, in order.
    ghost var calls: seq<Call>

    /** The window is what the calls so far leave. */
    ghost predicate Valid()
      reads this
    {
      settledOrder == Run(calls, SETTLED_IDS_CAP).order && settledIds == Elements(settledOrder)
    }

    constructor (guard: Guard, verifier: Verifier)
      ensures Valid() && calls == [] && this.guard == guard && this.verifier == verifier
    {
      this.guard := guard;
      this.verifier := verifier;
      settledIds := {};
      settledOrder := [];
      calls := [];
    }

    /** The pre-flight checks other than the duplicate one. */
    predicate Admissible(payload: GraftPayload)
      reads guard
    {
      && payload.expectedRoot in guard.roots
      && payload.note.state == Pending
      && verifier.verify(payload.note.id, payload.data, payload.expectedRoot)
      && verifier.pokeBuilds(payload)
    }

    /** The ids settled so far, in order. */
    ghost function History(): seq<u64>
      reads this
    {
      Run(calls, SETTLED_IDS_CAP).history
    }

    /** A call settles exactly when the payload is admissible and its id is not among the last
        `SETTLED_IDS_CAP` successes; a call that fails changes nothing but the record of calls. */
    method Settle(payload: GraftPayload) returns (r: Result<HullNote, SettleError>)
      requires Valid()
      modifies this
      ensures Valid() && calls == old(calls) + [Call(payload.note.id, old(Admissible(payload)))]
      ensures r.Success? <==> old(Admissible(payload)) && payload.note.id !in Last(old(History()), SETTLED_IDS_CAP)
      ensures r.Success?
        ==> History() == old(History()) + [payload.note.id] && r.value == payload.note.(state := Settled)
      ensures r.Failure?
        ==> History() == old(History()) && settledOrder == old(settledOrder) && settledIds == old(settledIds)
      ensures r.Success? <==>
                && payload.expectedRoot in old(guard.roots) && payload.note.state == Pending
                && verifier.verify(payload.note.id, payload.data, payload.expectedRoot)
                && verifier.pokeBuilds(payload)
                && forall i | 0 <= i < |old(History())| && |old(History())| <= i + 1_000_000 ::
                     old(History())[i] != payload.note.id
      ensures r == Failure(RootNotRegistered) <==> payload.expectedRoot !in old(guard.roots)
      ensures r == Failure(Duplicate) <==>
        payload.expectedRoot in old(guard.roots) && payload.note.id in Last(old(History()), SETTLED_IDS_CAP)
    {
      var id := payload.note.id;
      ghost var call := Call(id, Admissible(payload));
      OneMoreCall(calls, call, SETTLED_IDS_CAP);
      LastMeans(Run(calls, SETTLED_IDS_CAP).history, id, SETTLED_IDS_CAP);
      calls := calls + [call];
      if payload.expectedRoot !in guard.roots {
        return Failure(RootNotRegistered);
      }
      if id in settledIds {
        return Failure(Duplicate);
      }
      if payload.note.state != Pending {
        return Failure(NotPending);
      }
      if !verifier.verify(id, payload.data, payload.expectedRoot) {
        return Failure(VerificationFailed);
      }
      if !verifier.pokeBuilds(payload) {
        return Failure(PokeFailed);
      }
      NoDuplicatesCardinality(settledOrder);
      AdmittedSet(settledOrder, id, SETTLED_IDS_CAP);
      if |settledIds| >= SETTLED_IDS_CAP && settledOrder != [] {
        var oldest := settledOrder[0];
        settledOrder := settledOrder[1..];
        settledIds := settledIds - {oldest};
      }
      if id !in settledIds {
        settledIds := settledIds + {id};
        settledOrder := settledOrder + [id];
      }
      return Success(HullNote(payload.note.id, payload.note.hull, payload.note.root, Settled));
    }
  }

  /** What admission makes of the set beside the order. */
  lemma AdmittedSet<T>(order: seq<T>, id: T, cap: nat)
    requires cap >= 1 && NoDuplicates(order) && id !in order
    ensures Elements(Admit(order, id, cap)) ==
              (if |order| >= cap then Elements(order) - {order[0]} else Elements(order)) + {id}
  {
    if |order| >= cap {
      EvictOldest(order);
    }
  }

  lemma EvictOldest<T>(order: seq<T>)
    requires order != [] && NoDuplicates(order)
    ensures Elements(order[1..]) == Elements(order) - {order[0]}
  {
    assert order == [order[0]] + order[1..];
  }

  // ----- Over every sequence of calls

  /** One call: its id, and whether the payload was admissible when it was made. */
  datatype Call = Call(id: u64, admissible: bool)

  datatype Log = Log(history: seq<u64>, order: seq<u64>)

  function Step(log: Log, call: Call, cap: nat): Log {
    if call.admissible && call.id !in log.order then
      Log(log.history + [call.id], Admit(log.order, call.id, cap))
    else log
  }

  function Run(calls: seq<Call>, cap: nat): Log {
    if calls == [] then Log([], []) else Step(Run(calls[..|calls| - 1], cap), calls[|calls| - 1], cap)
  }

  lemma OneMoreCall(calls: seq<Call>, call: Call, cap: nat)
    requires cap >= 1
    ensures var log := Run(calls, cap);
            && log.order == Last(log.history, cap) && NoDuplicates(log.order)
            && Run(calls + [call], cap) == Step(log, call, cap)
  {
    WindowOverRuns(calls, cap);
    assert (calls + [call])[..|calls|] == calls;
  }

  /** After any calls, the order is duplicate-free and is the last `cap` successes; so two successes for one
      id always have at least `cap` other successes between them. */
  lemma {:induction false} WindowOverRuns(calls: seq<Call>, cap: nat)
    requires cap >= 1
    ensures var log := Run(calls, cap);
            log.order == Last(log.history, cap) && NoDuplicates(log.order) && Spaced(log.history, cap)
  {
    if calls != [] {
      var before, call := Run(calls[..|calls| - 1], cap), calls[|calls| - 1];
      WindowOverRuns(calls[..|calls| - 1], cap);
      if call.admissible && call.id !in before.order {
        AdmitKeepsWindow(before.history, call.id, cap);
        WindowIsDistinct(before.history + [call.id], cap);
      }
    }
  }

  /** The spacing is no wider: `cap` other successes are enough for an id to settle again. */
  lemma WindowForgets(calls: seq<Call>, cap: nat, i: nat)
    requires cap >= 1 && i < |Run(calls, cap).history|
    ensures var history := Run(calls, cap).history;
            (forall j | i < j < |history| :: history[j] != history[i])
            ==> (history[i] in Run(calls, cap).order <==> |history| - i <= cap)
  {
    WindowOverRuns(calls, cap);
    var history, order := Run(calls, cap).history, Run(calls, cap).order;
    assert forall k | 0 <= k < |order| :: order[k] == history[k + |history| - |order|];
    if |history| - i <= cap {
      assert order[i - (|history| - |order|)] == history[i];
    }
  }
}
