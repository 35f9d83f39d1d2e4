/** The escrow flow as a protocol: notes, heights, and spends that write whatever note their signers like. */
module EscrowFlow {
  import opened Wrappers
  import opened Field
  import opened Locks
  import opened JobLocks
  import opened Notes

  /** A note that landed at height `since`, seen at height `now`; or the money has left. */
  datatype State = Live(note: Note, since: nat, now: nat) | Closed(now: nat)

  /** What a spend pays into: any note that a constructor accepts, or something else. The chain asks no more of
      the signers than their branch does. */
  datatype Outcome = Written(note: Note) | Left

  datatype Step =
    | Wait(blocks: nat)
    | Spend(branch: nat, signers: set<Digest>, published: set<Digest>, outcome: Outcome)

  /** The flow's own notes: funding, also a check's, job, and provider note. */
  predicate InFlow(note: Note) {
    note.Funding? || note.CheckFunding? || note.Job? || note.Provider?
  }

  function Buyer(note: Note): Digest
    requires InFlow(note)
  {
    if note.Funding? || note.CheckFunding? then note.buyer else note.parties.buyer
  }

  function Platform(note: Note): Digest
    requires InFlow(note)
  {
    if note.Funding? || note.CheckFunding? then note.platform else note.parties.platform
  }

  /** The first height at which one party can act alone. */
  function Deadline(note: Note, since: nat): nat
    requires InFlow(note)
  {
    match note
    case Funding(_, _, df, _) => since + df
    case CheckFunding(_, _, df, _) => since + df
    case Job(_, dj, _) => since + dj + 1
    case Provider(_, c, _, _) => since + c
  }

  /** Who that is: the buyer of a funding or job note, the provider of a provider note. */
  function LoneParty(note: Note): Digest
    requires InFlow(note)
  {
    if note.Provider? then note.parties.provider else Buyer(note)
  }

  function LoneBranch(note: Note): nat {
    if note.Job? then 3 else if note.Provider? then 1 else 2
  }

  /** A step. A note of several branches is spent with a full lock proof, which the chain takes from `bythos` on. */
  predicate Next(bythos: nat, s: State, step: Step, s': State) {
    match step
    case Wait(blocks) => s.Live? && s' == s.(now := s.now + blocks)
    case Spend(branch, signers, published, outcome) =>
      && s.Live? && LockOf(s.note).Success?
      && 1 <= branch <= |Branches(s.note)|
      && Spendable(Branches(s.note)[branch - 1], signers, published, s.since, s.now)
      && (|Branches(s.note)| > 1 ==> s.now >= bythos)
      && match outcome
         case Left => s' == Closed(s.now)
         case Written(note) => LockOf(note).Success? && s' == Live(note, s.now, s.now)
  }

  /** A run starts when a note lands that a constructor accepts. */
  predicate Run(bythos: nat, states: seq<State>, steps: seq<Step>) {
    && |states| == |steps| + 1
    && states[0].Live? && LockOf(states[0].note).Success? && states[0].now == states[0].since
    && forall i | 0 <= i < |steps| :: Next(bythos, states[i], steps[i], states[i + 1])
  }

  lemma {:induction false} RunNotes(bythos: nat, states: seq<State>, steps: seq<Step>, i: nat)
    requires Run(bythos, states, steps) && i < |states|
    ensures states[i].Live? ==> LockOf(states[i].note).Success? && states[i].since <= states[i].now
  {
    if i > 0 {
      RunNotes(bythos, states, steps, i - 1);
      assert Next(bythos, states[i - 1], steps[i - 1], states[i]);
    }
  }

  /** Who can have signed a spend of a note of the flow: the platform with one other party of the note, or from the
      deadline on the lone party. */
  predicate SignedAsDue(note: Note, signers: set<Digest>, since: nat, now: nat)
    requires InFlow(note)
  {
    || (signers == {LoneParty(note)} && now >= Deadline(note, since))
    || (signers == {Platform(note), Buyer(note)} && Platform(note) != Buyer(note))
    || (note.Job? && signers == {Platform(note), note.parties.provider} && Platform(note) != note.parties.provider
        && now < Deadline(note, since))
  }

  /** Safety over every run, whatever was written before: a spend of a note of the flow carries the signatures of
      the platform and one other party of that note, or it comes at the deadline or later and is the lone party's.
      So before the deadline it takes exactly two different parties of the note. */
  lemma SpendsOfARun(bythos: nat, states: seq<State>, steps: seq<Step>, i: nat)
    requires Run(bythos, states, steps) && i < |steps| && steps[i].Spend?
    ensures states[i].Live?
    ensures InFlow(states[i].note) ==> SignedAsDue(states[i].note, steps[i].signers, states[i].since, states[i].now)
    ensures InFlow(states[i].note) && states[i].now < Deadline(states[i].note, states[i].since) ==>
      |steps[i].signers| == 2 && Platform(states[i].note) in steps[i].signers
  {
    RunNotes(bythos, states, steps, i);
    var s, step := states[i], steps[i];
    assert Next(bythos, s, step, states[i + 1]);
    if InFlow(s.note) {
      SpendTable(s.note, step.branch - 1, step.signers, step.published, s.since, s.now);
      PartiesDistinct(s.note);
      TwoWays(Buyer(s.note), Platform(s.note));
    }
  }

  lemma TwoWays(a: Digest, b: Digest)
    ensures {a, b} == {b, a}
  {
  }

  /** Out, by the lone party's signature alone, through some branch. */
  ghost predicate ExitsAlone(bythos: nat, s: State)
    requires s.Live? && InFlow(s.note)
  {
    exists branch, published ::
      Next(bythos, s, Spend(branch, {LoneParty(s.note)}, published, Left), Closed(s.now))
  }

  /** The exit over every run, whatever was written before: in every state at a note of the flow, the lone party's
      signature by itself takes the money out if and only if the deadline has come and bythos is active. */
  lemma LoneExitOverARun(bythos: nat, states: seq<State>, steps: seq<Step>, i: nat)
    requires Run(bythos, states, steps) && i < |states| && states[i].Live? && InFlow(states[i].note)
    ensures ExitsAlone(bythos, states[i]) <==>
              states[i].now >= Deadline(states[i].note, states[i].since) && states[i].now >= bythos
  {
    RunNotes(bythos, states, steps, i);
    var s := states[i];
    AsDrawn(s.note);
    PartiesDistinct(s.note);
    var none: set<Digest> := {};
    SpendTable(s.note, LoneBranch(s.note) - 1, {LoneParty(s.note)}, none, s.since, s.now);
    if s.now >= Deadline(s.note, s.since) && s.now >= bythos {
      assert Next(bythos, s, Spend(LoneBranch(s.note), {LoneParty(s.note)}, none, Left), Closed(s.now));
    } else {
      forall branch, published
        ensures !Next(bythos, s, Spend(branch, {LoneParty(s.note)}, published, Left), Closed(s.now))
      {
        NotYet(bythos, s, branch, published);
      }
    }
  }

  lemma NotYet(bythos: nat, s: State, branch: nat, published: set<Digest>)
    requires s.Live? && LockOf(s.note).Success? && InFlow(s.note)
    requires s.now < Deadline(s.note, s.since) || s.now < bythos
    ensures !Next(bythos, s, Spend(branch, {LoneParty(s.note)}, published, Left), Closed(s.now))
  {
    AsDrawn(s.note);
    if 1 <= branch <= |Branches(s.note)| && s.now < Deadline(s.note, s.since) {
      PartiesDistinct(s.note);
      SpendTable(s.note, branch - 1, {LoneParty(s.note)}, published, s.since, s.now);
      assert Platform(s.note) !in {LoneParty(s.note)};
      assert Platform(s.note) in {Buyer(s.note), Platform(s.note)};
      assert s.note.Job? ==> Platform(s.note) in {s.note.parties.platform, s.note.parties.provider};
    }
  }

  // ----- What a platform that keeps to the flow makes of every run

  /** The moves of the flow: FAST into a job note, CAPTURE into that job's provider note, for the same buyer, platform
      and facts. */
  predicate Follows(note: Note, branch: nat, written: Note) {
    || (note.Funding? && branch == 1 && written.Job? && written.facts == note.facts
        && written.parties.buyer == note.buyer && written.parties.platform == note.platform)
    || (note.Job? && branch == 2 && written.Job? && written.facts == note.facts
        && written.parties == note.parties.(provider := written.parties.provider))
    || (note.Job? && branch == 1 && written.Provider? && written.facts == note.facts && written.parties == note.parties)
  }

  /** The platform signs nothing that writes a note but the flow's own moves. Nobody else promises anything. */
  predicate PlatformKeeps(platform: Digest, states: seq<State>, steps: seq<Step>)
    requires |states| == |steps| + 1
  {
    forall i | 0 <= i < |steps| && states[i].Live? && steps[i].Spend? && platform in steps[i].signers ::
      steps[i].outcome.Written? ==> Follows(states[i].note, steps[i].branch, steps[i].outcome.note)
  }

  predicate LoneSpend(step: Step) {
    step.Spend? && |step.signers| == 1
  }

  predicate NoLoneSpend(steps: seq<Step>, n: nat)
    requires n <= |steps|
  {
    forall k | 0 <= k < n :: !LoneSpend(steps[k])
  }

  predicate FlowRun(bythos: nat, states: seq<State>, steps: seq<Step>) {
    Run(bythos, states, steps) && states[0].note.Funding? && PlatformKeeps(states[0].note.platform, states, steps)
  }

  predicate Kept(first: Note, s: State)
    requires first.Funding?
  {
    s.Live? ==>
      && (s.note.Funding? || s.note.Job? || s.note.Provider?)
      && Buyer(s.note) == first.buyer && Platform(s.note) == first.platform && s.note.facts == first.facts
  }

  /** One step of such a run that is no lone spend: a move of the flow, or out. */
  lemma FlowStep(bythos: nat, states: seq<State>, steps: seq<Step>, i: nat)
    requires FlowRun(bythos, states, steps) && i < |steps| && Kept(states[0].note, states[i]) && !LoneSpend(steps[i])
    ensures states[i].Live?
    ensures steps[i].Spend? && steps[i].outcome.Written? ==>
      Follows(states[i].note, steps[i].branch, steps[i].outcome.note) && states[i + 1].note == steps[i].outcome.note
    ensures Kept(states[0].note, states[i + 1])
  {
    assert Next(bythos, states[i], steps[i], states[i + 1]);
    if steps[i].Spend? {
      SpendsOfARun(bythos, states, steps, i);
      assert Platform(states[i].note) in steps[i].signers;
    }
  }

  /** The platform's own discipline is enough: as long as no party has exited alone, the buyer, the platform and the
      facts of every note are those of the funding note, whatever the others sign. */
  lemma {:induction false} RunKeeps(bythos: nat, states: seq<State>, steps: seq<Step>, i: nat)
    requires FlowRun(bythos, states, steps) && i < |states| && NoLoneSpend(steps, i)
    ensures Kept(states[0].note, states[i])
  {
    if i > 0 {
      RunKeeps(bythos, states, steps, i - 1);
      FlowStep(bythos, states, steps, i - 1);
    }
  }

  function Stage(s: State): nat {
    if s.Closed? then 3 else if s.note.Provider? then 2 else if s.note.Job? then 1 else 0
  }

  /** And the money only moves forward: funding, jobs, provider note, out. */
  lemma {:induction false} FlowMovesForward(bythos: nat, states: seq<State>, steps: seq<Step>, i: nat, j: nat)
    requires FlowRun(bythos, states, steps) && i <= j < |states| && NoLoneSpend(steps, j)
    ensures Stage(states[i]) <= Stage(states[j]) && states[i].now <= states[j].now
    decreases j - i
  {
    if i < j {
      FlowMovesForward(bythos, states, steps, i, j - 1);
      RunKeeps(bythos, states, steps, j - 1);
      FlowStep(bythos, states, steps, j - 1);
      assert Next(bythos, states[j - 1], steps[j - 1], states[j]);
    }
  }

  /** And a provider note appears only inside the capture window of its own job note, by the signatures of the
      platform and of that job's provider. */
  lemma CaptureInTime(bythos: nat, states: seq<State>, steps: seq<Step>, i: nat)
    requires FlowRun(bythos, states, steps) && i < |steps| && NoLoneSpend(steps, i + 1)
    requires Stage(states[i]) != 2 && Stage(states[i + 1]) == 2
    ensures states[i].Live? && states[i].note.Job? && states[i].now <= states[i].since + states[i].note.dj
    ensures steps[i].Spend? && steps[i].signers == {states[i].note.parties.platform, states[i].note.parties.provider}
    ensures states[i + 1].note.parties == states[i].note.parties && states[i + 1].since == states[i].now
  {
    RunKeeps(bythos, states, steps, i);
    FlowStep(bythos, states, steps, i);
    var s, step := states[i], steps[i];
    assert Next(bythos, s, step, states[i + 1]);
    SpendTable(s.note, step.branch - 1, step.signers, step.published, s.since, s.now);
  }
}
