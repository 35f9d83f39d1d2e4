/** Every note the constructors build, and what they promise together: who can spend what and when,
    that no two branches accept one signature map, and what an address binds. */
module Notes {
  import opened Wrappers
  import opened Field
  import opened Locks
  import opened JobLocks
  import opened CheckLocks
  import opened BondLocks

  datatype Note =
    | Funding(buyer: Digest, platform: Digest, df: u64, facts: JobFacts)
    | CheckFunding(buyer: Digest, platform: Digest, df: u64, checkFacts: CheckFacts)
    | Job(parties: JobParties, dj: u64, facts: JobFacts)
    | Provider(parties: JobParties, c: u64, facts: JobFacts, serve: ServeFacts)
    | Ticket(check: CheckParties, reportBy: u64, claimBy: u64, checkFacts: CheckFacts)
    | Vouch(check: CheckParties, nOrigin: u64, c: u64, saltedDigest: Digest, vouchedRoot: Digest)
    | Demand(provider: Digest, checker: Digest, answerBy: u64, saltedDigest: Digest, recordRoot: Digest, round: u64)
    | Slice(keys: SliceKeys, role: SliceRole, index: u64, tLife: u64, terms: Digest)
    | Held(holder: Digest, hold: u64, terms: Digest)
    | Reward(verdict: Digest, orderDigest: Digest, statement: Digest)

  function LockOf(note: Note): Result<Lock, LockError> {
    match note
    case Funding(buyer, platform, df, facts) => FundingLock(buyer, platform, df, facts)
    case CheckFunding(buyer, platform, df, facts) => CheckFundingLock(buyer, platform, df, facts)
    case Job(parties, dj, facts) => JobLock(parties, dj, facts)
    case Provider(parties, c, facts, serve) => ProviderNoteLock(parties, c, facts, serve)
    case Ticket(check, reportBy, claimBy, facts) => TicketLock(check, reportBy, claimBy, facts)
    case Vouch(check, nOrigin, c, salted, vouched) => VouchNoteLock(check, nOrigin, c, salted, vouched)
    case Demand(provider, checker, answerBy, salted, record, round) =>
      DemandLock(provider, checker, answerBy, salted, record, round)
    case Slice(keys, role, index, tLife, terms) => SliceLock(keys, role, index, tLife, terms)
    case Held(holder, hold, terms) => HeldLock(holder, hold, terms)
    case Reward(verdict, order, statement) => RewardLock(verdict, order, statement)
  }

  function Branches(note: Note): seq<SpendCondition>
    requires LockOf(note).Success?
  {
    Flatten(LockOf(note).value)
  }

  /** The protocol's own table: which signer sets may use which branch (1-based), at which heights, of a
      note that landed at height `since`. The sets are exact. */
  predicate Authorizes(note: Note, branch: nat, signers: set<Digest>, since: nat, now: nat) {
    match note
    case Funding(buyer, platform, df, _) =>
      || (branch == 1 && signers == {buyer, platform})
      || (branch == 2 && signers == {buyer} && now >= since + df)
    case CheckFunding(buyer, platform, df, _) =>
      || (branch == 1 && signers == {buyer, platform})
      || (branch == 2 && signers == {buyer} && now >= since + df)
    case Job(p, dj, _) =>
      || (branch == 1 && signers == {p.platform, p.provider} && now <= since + dj)
      || (branch == 2 && signers == {p.buyer, p.platform})
      || (branch == 3 && signers == {p.buyer} && now > since + dj)
    case Provider(p, c, _, _) =>
      || (branch == 1 && signers == {p.provider} && now >= since + c)
      || (branch == 2 && signers == {p.buyer, p.platform} && now < since + c)
    case Ticket(p, reportBy, claimBy, _) =>
      || (branch == 1 && signers == {p.platform, p.checker} && now <= reportBy)
      || (branch == 2 && signers == {p.verdict, p.checker} && now <= claimBy)
      || (branch == 3 && signers == {p.buyer} && now > reportBy)
    case Vouch(p, nOrigin, c, _, _) =>
      || (branch == 1 && signers == {p.checker} && now >= nOrigin + c)
      || (branch == 2 && signers == {p.buyer, p.platform} && now < nOrigin + c)
    case Demand(provider, checker, answerBy, _, _, _) =>
      || (branch == 1 && signers == {provider} && now <= since + answerBy)
      || (branch == 2 && signers == {checker} && now > since + answerBy)
    case Slice(k, _, _, tLife, _) =>
      || (branch == 1 && signers == {k.slasher, k.verdict})
      || (branch == 2 && signers == {k.holder, k.platform})
      || (branch == 3 && signers == {k.holder} && now >= since + tLife)
    case Held(holder, hold, _) =>
      branch == 1 && signers == {holder} && now >= since + hold
    case Reward(verdict, _, _) =>
      branch == 1 && signers == {verdict}
  }

  // ----- The branches, one by one

  lemma OneOf(a: Digest)
    ensures PkhConjunct(1, [a]) == Success(Pkh(1, {a}))
  {
    assert (set h | h in [a]) == {a};
  }

  lemma TwoOf(a: Digest, b: Digest)
    requires a != b
    ensures PkhConjunct(2, [a, b]) == Success(Pkh(2, {a, b}))
  {
    assert (set h | h in [a, b]) == {a, b};
    assert |{a, b}| == 2;
  }

  /** A full-threshold `%pkh` is met by its own key set and no other. */
  lemma ExactSigners(hashes: set<Digest>, signers: set<Digest>)
    ensures |signers| == |hashes| && signers <= hashes <==> signers == hashes
  {
    if |signers| == |hashes| && signers <= hashes {
      SubsetCardinality(signers, hashes);
    }
  }

  /** The two forms a branch takes: a full-threshold `%pkh`, perhaps under a timelock, or a burn. */
  predicate Regular(sc: SpendCondition) {
    || (1 <= |sc| <= 2 && sc[0].Pkh? && sc[0].m == |sc[0].hashes| && (|sc| == 2 ==> sc[1].Tim?))
    || (1 <= |sc| <= 2 && sc[0].Burn? && (|sc| == 2 ==> sc[1].Hax?))
  }

  predicate InWindow(sc: SpendCondition, since: nat, now: nat) {
    |sc| == 2 && sc[1].Tim? ==> TimOpen(sc[1], since, now)
  }

  lemma RegularBranch(sc: SpendCondition, signers: set<Digest>, published: set<Digest>, since: nat, now: nat)
    requires Regular(sc)
    ensures Spendable(sc, signers, published, since, now)
      <==> sc[0].Pkh? && signers == sc[0].hashes && InWindow(sc, since, now)
    ensures PkhSatisfied(sc, signers) <==> sc[0].Pkh? && signers == sc[0].hashes
    ensures BranchWindowOpen(sc, since, now) <==> InWindow(sc, since, now)
  {
    assert sc[0] in sc && (|sc| == 2 ==> sc[1] in sc);
    if sc[0].Pkh? {
      ExactSigners(sc[0].hashes, signers);
    }
    if Spendable(sc, signers, published, since, now) {
      assert Holds(sc[0], signers, published, since, now);
    }
  }

  // ----- Facts

  /** Facts that a lock can carry: every limb a field element, no two facts equal. */
  predicate FactsStand(facts: seq<Digest>) {
    && (forall i | 0 <= i < |facts| ::
          facts[i].l0 < PRIME && facts[i].l1 < PRIME && facts[i].l2 < PRIME && facts[i].l3 < PRIME && facts[i].l4 <
          PRIME)
    && (forall i, j | 0 <= i < j < |facts| :: facts[i] != facts[j])
  }

  lemma FactsExactly(facts: seq<Digest>)
    ensures FactsHax(facts).Success? <==> FactsStand(facts)
    ensures FactsHax(facts).Success? ==> FactsHax(facts).value == Hax(set f | f in facts)
  {
    assert forall i | 0 <= i < |facts| :: facts[i] in facts;
  }

  lemma OneFact(a: Digest)
    ensures FactsHax([a]).Success? <==> FactsStand([a])
    ensures FactsHax([a]).Success? ==> FactsHax([a]).value == Hax({a})
  {
    FactsExactly([a]);
    assert (set f | f in [a]) == {a};
  }

  lemma TwoFacts(a: Digest, b: Digest)
    ensures FactsHax([a, b]).Success? <==> FactsStand([a, b])
    ensures FactsHax([a, b]).Success? ==> FactsHax([a, b]).value == Hax({a, b})
  {
    FactsExactly([a, b]);
    assert (set f | f in [a, b]) == {a, b};
  }

  lemma ThreeFacts(a: Digest, b: Digest, c: Digest)
    ensures FactsHax([a, b, c]).Success? <==> FactsStand([a, b, c])
    ensures FactsHax([a, b, c]).Success? ==> FactsHax([a, b, c]).value == Hax({a, b, c})
  {
    FactsExactly([a, b, c]);
    assert (set f | f in [a, b, c]) == {a, b, c};
  }

  /** The seven facts of a served job, in the order its lock lists them. */
  function Served(facts: JobFacts, serve: ServeFacts): seq<Digest> {
    [facts.orderDigest, facts.weightRoot, serve.input, serve.ids, serve.anchor, serve.closing, serve.modelPin]
  }

  lemma SevenFacts(facts: JobFacts, serve: ServeFacts)
    ensures FactsHax(ServeFactsList(facts, serve)).Success? <==> FactsStand(Served(facts, serve))
    ensures FactsHax(ServeFactsList(facts, serve)).Success? ==>
              FactsHax(ServeFactsList(facts, serve)).value
              == Hax({facts.orderDigest, facts.weightRoot, serve.input, serve.ids, serve.anchor, serve.closing,
                  serve.modelPin})
  {
    var list := Served(facts, serve);
    assert ServeFactsList(facts, serve) == list;
    FactsExactly(list);
    assert (set f | f in list)
        == {facts.orderDigest, facts.weightRoot, serve.input, serve.ids, serve.anchor, serve.closing, serve.modelPin};
  }

  /** A demand's round and a slice's index, beside the words "demand-r", "slice-pv" and "slice-ck". */
  function RoundSlot(round: u64): Digest {
    Digest(0x722d_646e_616d_6564, round, 0, 0, 0)
  }

  function IndexSlot(role: SliceRole, index: u64): Digest {
    Digest(if role.ProviderRole? then 0x7670_2d65_6369_6c73 else 0x6b63_2d65_6369_6c73, index, 0, 0, 0)
  }

  /** Eight characters as a word, the first one lowest. */
  function Cord(s: string): nat
    requires |s| == 8
  {
    s[0] as nat + 0x100 * s[1] as nat + 0x1_0000 * s[2] as nat + 0x100_0000 * s[3] as nat
    + 0x1_0000_0000 * s[4] as nat + 0x100_0000_0000 * s[5] as nat + 0x1_0000_0000_0000 * s[6] as nat
    + 0x100_0000_0000_0000 * s[7] as nat
  }

  lemma SlotWords(round: u64, index: u64)
    ensures RoundSlot(round) == Digest(Cord("demand-r"), round, 0, 0, 0)
    ensures IndexSlot(ProviderRole, index) == Digest(Cord("slice-pv"), index, 0, 0, 0)
    ensures IndexSlot(CheckerRole, index) == Digest(Cord("slice-ck"), index, 0, 0, 0)
  {
  }

  /** The branches of a note as its header draws them. */
  function Drawn(note: Note): seq<SpendCondition>
    requires LockOf(note).Success?
  {
    match note
    case Funding(buyer, platform, df, facts) =>
      [[Pkh(2, {buyer, platform})], [Pkh(1, {buyer}), Tim(Range(Some(df), None), ANY_HEIGHT)],
       [Burn, Hax({facts.orderDigest, facts.weightRoot})], [Burn]]
    case CheckFunding(buyer, platform, df, facts) =>
      [[Pkh(2, {buyer, platform})], [Pkh(1, {buyer}), Tim(Range(Some(df), None), ANY_HEIGHT)],
       [Burn, Hax({facts.saltedDigest, facts.weightRoot})], [Burn]]
    case Job(p, dj, facts) =>
      [[Pkh(2, {p.platform, p.provider}), Tim(Range(None, Some(dj)), ANY_HEIGHT)], [Pkh(2, {p.buyer, p.platform})],
       [Pkh(1, {p.buyer}), Tim(Range(Some(dj + 1), None), ANY_HEIGHT)],
           [Burn, Hax({facts.orderDigest, facts.weightRoot})]]
    case Provider(p, c, facts, serve) =>
      [[Pkh(1, {p.provider}), Tim(Range(Some(c), None), ANY_HEIGHT)],
       [Pkh(2, {p.buyer, p.platform}), Tim(Range(None, Some(c - 1)), ANY_HEIGHT)],
       [Burn, Hax({facts.orderDigest, facts.weightRoot, serve.input, serve.ids, serve.anchor, serve.closing,
           serve.modelPin})], [Burn]]
    case Ticket(p, reportBy, claimBy, facts) =>
      [[Pkh(2, {p.platform, p.checker}), Tim(ANY_HEIGHT, Range(None, Some(reportBy)))],
       [Pkh(2, {p.verdict, p.checker}), Tim(ANY_HEIGHT, Range(None, Some(claimBy)))],
       [Pkh(1, {p.buyer}), Tim(ANY_HEIGHT, Range(Some(reportBy + 1), None))],
       [Burn, Hax({facts.saltedDigest, facts.weightRoot})]]
    case Vouch(p, nOrigin, c, salted, vouched) =>
      [[Pkh(1, {p.checker}), Tim(ANY_HEIGHT, Range(Some(nOrigin + c), None))],
       [Pkh(2, {p.buyer, p.platform}), Tim(ANY_HEIGHT, Range(None, Some(nOrigin + c - 1)))],
       [Burn, Hax({salted, vouched, p.checker})], [Burn]]
    case Demand(provider, checker, answerBy, salted, record, round) =>
      [[Pkh(1, {provider}), Tim(Range(None, Some(answerBy)), ANY_HEIGHT)],
       [Pkh(1, {checker}), Tim(Range(Some(answerBy + 1), None), ANY_HEIGHT)],
       [Burn, Hax({salted, record, RoundSlot(round)})], [Burn]]
    case Slice(k, role, index, tLife, terms) =>
      [[Pkh(2, {k.slasher, k.verdict})], [Pkh(2, {k.holder, k.platform})],
       [Pkh(1, {k.holder}), Tim(Range(Some(tLife), None), ANY_HEIGHT)],
       [Burn, Hax({terms, IndexSlot(role, index)})]]
    case Held(holder, hold, terms) =>
      [[Pkh(1, {holder}), Tim(Range(Some(hold), None), ANY_HEIGHT)], [Burn, Hax({terms})]]
    case Reward(verdict, order, statement) =>
      [[Pkh(1, {verdict})], [Burn, Hax({order, statement})]]
  }

  /** The parties are distinct wherever a note builds. */
  lemma PartiesDistinct(note: Note)
    requires LockOf(note).Success?
    ensures match note
            case Funding(buyer, platform, _, _) => buyer != platform
            case CheckFunding(buyer, platform, _, _) => buyer != platform
            case Job(p, _, _) => p.buyer != p.platform && p.provider != p.platform && p.provider != p.buyer
            case Provider(p, _, _, _) => p.buyer != p.platform && p.provider != p.platform && p.provider != p.buyer
            case Ticket(p, _, _, _) => |{p.buyer, p.platform, p.verdict, p.checker}| == 4
            case Vouch(p, _, _, _, _) => |{p.buyer, p.platform, p.verdict, p.checker}| == 4
            case Demand(provider, checker, _, _, _, _) => provider != checker
            case Slice(k, _, _, _, _) => |{k.holder, k.slasher, k.verdict, k.platform}| == 4
            case _ => true
  {
    match note
    case Ticket(p, _, _, _) => FourDistinct(p);
    case Vouch(p, _, _, _, _) => FourDistinct(p);
    case _ =>
  }

  lemma FourDistinct(p: CheckParties)
    requires RefuseDistinctCheckParties(p).Success?
    ensures p.buyer != p.platform && p.buyer != p.verdict && p.buyer != p.checker
    ensures p.platform != p.verdict && p.platform != p.checker && p.verdict != p.checker
    ensures |{p.buyer, p.platform, p.verdict, p.checker}| == 4
  {
    var all := [p.buyer, p.platform, p.verdict, p.checker];
    assert all[0] != all[1] && all[0] != all[2] && all[0] != all[3];
    assert all[1] != all[2] && all[1] != all[3] && all[2] != all[3];
  }

  function Assemble(d: seq<SpendCondition>): Lock
    requires |d| == 2 || |d| == 4
  {
    if |d| == 2 then Two(d[0], d[1]) else Four(d[0], d[1], d[2], d[3])
  }

  lemma DrawnFour(note: Note)
    requires LockOf(note).Success? && |Drawn(note)| == 4
    ensures Flatten(Assemble(Drawn(note))) == Drawn(note)
  {
    var d := Drawn(note);
    FlattenFour(d[0], d[1], d[2], d[3]);
    assert d == [d[0], d[1], d[2], d[3]];
  }

  lemma FundingAsDrawn(n: Note)
    requires n.Funding? && LockOf(n).Success?
    ensures LockOf(n).value == Assemble(Drawn(n)) && Branches(n) == Drawn(n)
  {
    TwoFacts(n.facts.orderDigest, n.facts.weightRoot);
    OneOf(n.buyer);
    TwoOf(n.buyer, n.platform);
    DrawnFour(n);
  }

  lemma CheckFundingAsDrawn(n: Note)
    requires n.CheckFunding? && LockOf(n).Success?
    ensures LockOf(n).value == Assemble(Drawn(n)) && Branches(n) == Drawn(n)
  {
    TwoFacts(n.checkFacts.saltedDigest, n.checkFacts.weightRoot);
    OneOf(n.buyer);
    TwoOf(n.buyer, n.platform);
    DrawnFour(n);
  }

  lemma JobAsDrawn(n: Note)
    requires n.Job? && LockOf(n).Success?
    ensures LockOf(n).value == Assemble(Drawn(n)) && Branches(n) == Drawn(n)
  {
    TwoFacts(n.facts.orderDigest, n.facts.weightRoot);
    OneOf(n.parties.buyer);
    TwoOf(n.parties.buyer, n.parties.platform);
    TwoOf(n.parties.platform, n.parties.provider);
    DrawnFour(n);
  }

  lemma ProviderAsDrawn(n: Note)
    requires n.Provider? && LockOf(n).Success?
    ensures LockOf(n).value == Assemble(Drawn(n)) && Branches(n) == Drawn(n)
  {
    SevenFacts(n.facts, n.serve);
    OneOf(n.parties.provider);
    TwoOf(n.parties.buyer, n.parties.platform);
    DrawnFour(n);
  }

  lemma TicketAsDrawn(n: Note)
    requires n.Ticket? && LockOf(n).Success?
    ensures LockOf(n).value == Assemble(Drawn(n)) && Branches(n) == Drawn(n)
  {
    TwoFacts(n.checkFacts.saltedDigest, n.checkFacts.weightRoot);
    FourDistinct(n.check);
    OneOf(n.check.buyer);
    TwoOf(n.check.platform, n.check.checker);
    TwoOf(n.check.verdict, n.check.checker);
    DrawnFour(n);
  }

  lemma VouchAsDrawn(n: Note)
    requires n.Vouch? && LockOf(n).Success?
    ensures LockOf(n).value == Assemble(Drawn(n)) && Branches(n) == Drawn(n)
  {
    ThreeFacts(n.saltedDigest, n.vouchedRoot, n.check.checker);
    FourDistinct(n.check);
    OneOf(n.check.checker);
    TwoOf(n.check.buyer, n.check.platform);
    DrawnFour(n);
  }

  lemma DemandAsDrawn(n: Note)
    requires n.Demand? && LockOf(n).Success?
    ensures LockOf(n).value == Assemble(Drawn(n)) && Branches(n) == Drawn(n)
  {
    ThreeFacts(n.saltedDigest, n.recordRoot, RoundSlot(n.round));
    OneOf(n.provider);
    OneOf(n.checker);
    DrawnFour(n);
  }

  lemma SliceAsDrawn(n: Note)
    requires n.Slice? && LockOf(n).Success?
    ensures LockOf(n).value == Assemble(Drawn(n)) && Branches(n) == Drawn(n)
  {
    TwoFacts(n.terms, IndexSlot(n.role, n.index));
    OneOf(n.keys.holder);
    TwoOf(n.keys.slasher, n.keys.verdict);
    TwoOf(n.keys.holder, n.keys.platform);
    DrawnFour(n);
  }

  lemma HeldAsDrawn(n: Note)
    requires n.Held? && LockOf(n).Success?
    ensures LockOf(n).value == Assemble(Drawn(n)) && Branches(n) == Drawn(n)
  {
    OneFact(n.terms);
    OneOf(n.holder);
    FlattenTwo(Drawn(n)[0], Drawn(n)[1]);
  }

  lemma RewardAsDrawn(n: Note)
    requires n.Reward? && LockOf(n).Success?
    ensures LockOf(n).value == Assemble(Drawn(n)) && Branches(n) == Drawn(n)
  {
    TwoFacts(n.orderDigest, n.statement);
    OneOf(n.verdict);
    FlattenTwo(Drawn(n)[0], Drawn(n)[1]);
  }

  /** Every constructor that accepts builds the branches its header draws. */
  lemma AsDrawn(note: Note)
    requires LockOf(note).Success?
    ensures |Drawn(note)| == 2 || |Drawn(note)| == 4
    ensures LockOf(note).value == Assemble(Drawn(note)) && Branches(note) == Drawn(note)
  {
    match note
    case Funding(_, _, _, _) => FundingAsDrawn(note);
    case CheckFunding(_, _, _, _) => CheckFundingAsDrawn(note);
    case Job(_, _, _) => JobAsDrawn(note);
    case Provider(_, _, _, _) => ProviderAsDrawn(note);
    case Ticket(_, _, _, _) => TicketAsDrawn(note);
    case Vouch(_, _, _, _, _) => VouchAsDrawn(note);
    case Demand(_, _, _, _, _, _) => DemandAsDrawn(note);
    case Slice(_, _, _, _, _) => SliceAsDrawn(note);
    case Held(_, _, _) => HeldAsDrawn(note);
    case Reward(_, _, _) => RewardAsDrawn(note);
  }

  lemma RegularNote(note: Note)
    requires LockOf(note).Success?
    ensures forall b | 0 <= b < |Branches(note)| :: Regular(Branches(note)[b])
  {
    AsDrawn(note);
    PartiesDistinct(note);
    match note
    case Ticket(p, _, _, _) => FourDistinct(p);
    case Vouch(p, _, _, _, _) => FourDistinct(p);
    case _ =>
  }

  // ----- Acceptance

  predicate Window(v: nat) {
    1 <= v < PRIME
  }

  /** The operands of a note that builds, written out. */
  predicate Acceptable(note: Note) {
    match note
    case Funding(buyer, platform, df, facts) =>
      buyer != platform && Window(df) && FactsStand([facts.orderDigest, facts.weightRoot])
    case CheckFunding(buyer, platform, df, facts) =>
      buyer != platform && Window(df) && FactsStand([facts.saltedDigest, facts.weightRoot])
    case Job(p, dj, facts) =>
      && p.buyer != p.platform && p.provider != p.platform && p.provider != p.buyer
      && Window(dj) && dj + 1 < PRIME && FactsStand([facts.orderDigest, facts.weightRoot])
    case Provider(p, c, facts, serve) =>
      && p.buyer != p.platform && p.provider != p.platform && p.provider != p.buyer
      && 2 <= c < PRIME && FactsStand(Served(facts, serve))
    case Ticket(p, reportBy, claimBy, facts) =>
      && p.buyer != p.platform && p.buyer != p.verdict && p.buyer != p.checker
      && p.platform != p.verdict && p.platform != p.checker && p.verdict != p.checker
      && 0 < reportBy < claimBy < PRIME && FactsStand([facts.saltedDigest, facts.weightRoot])
    case Vouch(p, nOrigin, c, salted, vouched) =>
      && p.buyer != p.platform && p.buyer != p.verdict && p.buyer != p.checker
      && p.platform != p.verdict && p.platform != p.checker && p.verdict != p.checker
      && 2 <= c && nOrigin + c < PRIME && FactsStand([salted, vouched, p.checker])
    case Demand(provider, checker, answerBy, salted, record, round) =>
      && provider != checker && Window(answerBy) && answerBy + 1 < PRIME
      && round < PRIME && FactsStand([salted, record, RoundSlot(round)])
    case Slice(k, role, index, tLife, terms) =>
      && k.holder != k.slasher && k.holder != k.verdict && k.holder != k.platform
      && k.slasher != k.verdict && k.slasher != k.platform && k.verdict != k.platform
      && Window(tLife) && index < PRIME && FactsStand([terms, IndexSlot(role, index)])
    case Held(_, hold, terms) =>
      Window(hold) && FactsStand([terms])
    case Reward(_, order, statement) =>
      FactsStand([order, statement])
  }

  /** Four keys are refused exactly when two of them are equal. */
  lemma FourApart(p: CheckParties)
    ensures RefuseDistinctCheckParties(p).Success? <==>
              p.buyer != p.platform && p.buyer != p.verdict && p.buyer != p.checker
              && p.platform != p.verdict && p.platform != p.checker && p.verdict != p.checker
  {
    var all := [p.buyer, p.platform, p.verdict, p.checker];
    assert AllDistinct(all) ==> all[0] != all[1] && all[0] != all[2] && all[0] != all[3];
    assert AllDistinct(all) ==> all[1] != all[2] && all[1] != all[3] && all[2] != all[3];
  }

  lemma FlowNoteBuilds(note: Note)
    requires note.Funding? || note.CheckFunding? || note.Job?
    ensures LockOf(note).Success? <==> Acceptable(note)
  {
    match note
    case Funding(buyer, platform, _, facts) =>
      TwoFacts(facts.orderDigest, facts.weightRoot);
      KeyRules(buyer, platform);
    case CheckFunding(buyer, platform, _, facts) =>
      TwoFacts(facts.saltedDigest, facts.weightRoot);
      KeyRules(buyer, platform);
    case Job(p, _, facts) =>
      TwoFacts(facts.orderDigest, facts.weightRoot);
      KeyRules(p.buyer, p.platform);
      KeyRules(p.platform, p.provider);
  }

  /** One key alone, or two different keys together, always make a rule. */
  lemma KeyRules(a: Digest, b: Digest)
    ensures PkhConjunct(1, [a]).Success? && PkhConjunct(1, [b]).Success?
    ensures a != b ==> PkhConjunct(2, [a, b]).Success?
  {
    OneOf(a);
    OneOf(b);
    if a != b {
      TwoOf(a, b);
    }
  }

  lemma ProviderNoteBuilds(note: Note)
    requires note.Provider?
    ensures LockOf(note).Success? <==> Acceptable(note)
  {
    SevenFacts(note.facts, note.serve);
    KeyRules(note.parties.buyer, note.parties.platform);
    KeyRules(note.parties.provider, note.parties.platform);
  }

  lemma CheckNoteBuilds(note: Note)
    requires note.Ticket? || note.Vouch?
    ensures LockOf(note).Success? <==> Acceptable(note)
  {
    var p := note.check;
    FourApart(p);
    KeyRules(p.platform, p.checker);
    KeyRules(p.verdict, p.checker);
    KeyRules(p.buyer, p.platform);
    if note.Ticket? {
      TwoFacts(note.checkFacts.saltedDigest, note.checkFacts.weightRoot);
    } else {
      ThreeFacts(note.saltedDigest, note.vouchedRoot, p.checker);
    }
  }

  lemma DemandBuilds(note: Note)
    requires note.Demand?
    ensures LockOf(note).Success? <==> Acceptable(note)
  {
    ThreeFacts(note.saltedDigest, note.recordRoot, RoundSlot(note.round));
    KeyRules(note.provider, note.checker);
  }

  lemma BondNoteBuilds(note: Note)
    requires note.Slice? || note.Held? || note.Reward?
    ensures LockOf(note).Success? <==> Acceptable(note)
  {
    match note
    case Slice(k, role, index, _, terms) =>
      TwoFacts(terms, IndexSlot(role, index));
      KeyRules(k.slasher, k.verdict);
      KeyRules(k.holder, k.platform);
    case Held(holder, _, terms) =>
      OneFact(terms);
      KeyRules(holder, holder);
    case Reward(verdict, order, statement) =>
      TwoFacts(order, statement);
      KeyRules(verdict, verdict);
  }

  /** Exact acceptance: a note builds if and only if its operands are the acceptable ones. */
  lemma BuildsExactly(note: Note)
    ensures LockOf(note).Success? <==> Acceptable(note)
  {
    match note
    case Provider(_, _, _, _) => ProviderNoteBuilds(note);
    case Ticket(_, _, _, _) => CheckNoteBuilds(note);
    case Vouch(_, _, _, _, _) => CheckNoteBuilds(note);
    case Demand(_, _, _, _, _, _) => DemandBuilds(note);
    case Slice(_, _, _, _, _) => BondNoteBuilds(note);
    case Held(_, _, _) => BondNoteBuilds(note);
    case Reward(_, _, _) => BondNoteBuilds(note);
    case _ => FlowNoteBuilds(note);
  }

  // ----- The theorems

  /** The spend table is exact: for every note that a constructor accepts, the chain lets a signer set
      through a branch at a height if and only if the table says so. Published preimages change nothing. */
  lemma SpendTable(note: Note, b: nat, signers: set<Digest>, published: set<Digest>, since: nat, now: nat)
    requires LockOf(note).Success? && b < |Branches(note)|
    ensures Spendable(Branches(note)[b], signers, published, since, now)
      <==> Authorizes(note, b + 1, signers, since, now)
  {
    AsDrawn(note);
    RegularNote(note);
    RegularBranch(Branches(note)[b], signers, published, since, now);
    DrawnTable(note, Drawn(note), b, signers, since, now);
  }

  lemma DrawnTable(note: Note, drawn: seq<SpendCondition>, b: nat, signers: set<Digest>, since: nat, now: nat)
    requires LockOf(note).Success? && drawn == Drawn(note) && b < |drawn| && drawn[b] != []
    ensures (drawn[b][0].Pkh? && signers == drawn[b][0].hashes && InWindow(drawn[b], since, now))
            <==> Authorizes(note, b + 1, signers, since, now)
  {
  }

  /** Branch isolation: no signature map satisfies the `%pkh` rule of two branches of one note. The
      signature does not cover the branch, so this is what keeps a co-signature on its own branch. */
  lemma BranchIsolation(note: Note, i: nat, j: nat, signers: set<Digest>)
    requires LockOf(note).Success? && i < j < |Branches(note)|
    ensures !(PkhSatisfied(Branches(note)[i], signers) && PkhSatisfied(Branches(note)[j], signers))
  {
    AsDrawn(note);
    RegularNote(note);
    PartiesDistinct(note);
    RegularBranch(Branches(note)[i], signers, {}, 0, 0);
    RegularBranch(Branches(note)[j], signers, {}, 0, 0);
    if Drawn(note)[i][0].Pkh? && Drawn(note)[j][0].Pkh? {
      DifferentKeySets(note, i, j);
    }
  }

  lemma DifferentKeySets(note: Note, i: nat, j: nat)
    requires LockOf(note).Success? && i < j < |Drawn(note)|
    requires Drawn(note)[i][0].Pkh? && Drawn(note)[j][0].Pkh?
    ensures Drawn(note)[i][0].hashes != Drawn(note)[j][0].hashes
  {
    PartiesDistinct(note);
    match note
    case Job(p, _, _) =>
      assert p.provider in {p.platform, p.provider} && p.provider !in {p.buyer, p.platform};
      assert p.platform in {p.platform, p.provider} && p.platform in {p.buyer, p.platform} && p.platform !in {p.buyer};
    case Ticket(p, _, _, _) =>
      FourDistinct(p);
      assert p.platform in {p.platform, p.checker} && p.platform !in {p.verdict, p.checker} && p.platform !in {p.buyer};
      assert p.verdict in {p.verdict, p.checker} && p.verdict !in {p.buyer};
    case Slice(k, _, _, _, _) =>
      SliceDistinct(k);
      assert k.slasher in {k.slasher, k.verdict} && k.slasher !in {k.holder, k.platform} && k.slasher !in {k.holder};
      assert k.platform in {k.holder, k.platform} && k.platform !in {k.holder};
    case Funding(buyer, platform, _, _) =>
      assert platform in {buyer, platform} && platform !in {buyer};
    case CheckFunding(buyer, platform, _, _) =>
      assert platform in {buyer, platform} && platform !in {buyer};
    case Provider(p, _, _, _) =>
      assert p.provider !in {p.buyer, p.platform};
    case Vouch(p, _, _, _, _) =>
      FourDistinct(p);
      assert p.checker !in {p.buyer, p.platform};
    case Demand(provider, checker, _, _, _, _) =>
      assert checker !in {provider};
    case _ =>
  }

  lemma SliceDistinct(k: SliceKeys)
    requires RefuseDistinctSliceKeys(k).Success?
    ensures k.slasher != k.verdict && k.holder != k.verdict && k.slasher != k.holder
    ensures k.slasher != k.platform && k.holder != k.platform && k.verdict != k.platform
  {
  }

  /** A slice cannot leave through EXIT or FALLBACK without its holder's own key, and before its life is
      over nobody moves it alone. */
  lemma SliceNeedsItsHolder(note: Note, signers: set<Digest>, published: set<Digest>, since: nat, now: nat)
    requires note.Slice? && LockOf(note).Success?
    ensures |Branches(note)| == 4
    ensures note.keys.holder !in signers
      ==> !PkhSatisfied(Branches(note)[1], signers) && !PkhSatisfied(Branches(note)[2], signers)
    ensures now < since + note.tLife && |signers| < 2 ==>
      forall b | 0 <= b < 4 :: !Spendable(Branches(note)[b], signers, published, since, now)
  {
    AsDrawn(note);
    RegularNote(note);
    RegularBranch(Branches(note)[1], signers, {}, 0, 0);
    RegularBranch(Branches(note)[2], signers, {}, 0, 0);
    SliceDistinct(note.keys);
    forall b | 0 <= b < 4
      ensures Spendable(Branches(note)[b], signers, published, since, now) && now < since + note.tLife
        ==> |signers| == 2
    {
      SpendTable(note, b, signers, published, since, now);
    }
  }

  /** Branch `branch` (1-based) is there and inside its window. */
  predicate Open(note: Note, branch: nat, since: nat, now: nat)
    requires LockOf(note).Success?
  {
    1 <= branch <= |Branches(note)| && BranchWindowOpen(Branches(note)[branch - 1], since, now)
  }

  /** The timed pairs split the heights without gap or overlap; CLAIM alone outlives RETURN's opening,
      by exactly the heights between the two deadlines. */
  lemma WindowsSplit(note: Note, since: nat, now: nat)
    requires LockOf(note).Success?
    ensures match note
            case Job(_, _, _) => Open(note, 1, since, now) <==> !Open(note, 3, since, now)
            case Provider(_, _, _, _) => Open(note, 1, since, now) <==> !Open(note, 2, since, now)
            case Ticket(_, reportBy, claimBy, _) =>
              && (Open(note, 1, since, now) <==> !Open(note, 3, since, now))
              && (Open(note, 2, since, now) && Open(note, 3, since, now) <==> reportBy < now <= claimBy)
            case Vouch(_, _, _, _, _) => Open(note, 1, since, now) <==> !Open(note, 2, since, now)
            case Demand(_, _, _, _, _, _) => Open(note, 1, since, now) <==> !Open(note, 2, since, now)
            case _ => true
  {
    AsDrawn(note);
    RegularNote(note);
    forall b | 0 <= b < |Branches(note)|
      ensures BranchWindowOpen(Branches(note)[b], since, now) <==> InWindow(Branches(note)[b], since, now)
    {
      RegularBranch(Branches(note)[b], {}, {}, since, now);
    }
  }

  /** The vouch note pays at exactly the heights the provider note it vouches for pays, wherever the
      vouch note itself lands; so do the two clawbacks. */
  lemma VouchFollowsProvider(provider: Note, vouch: Note, landed: nat, now: nat, b: nat)
    requires provider.Provider? && vouch.Vouch? && LockOf(provider).Success? && LockOf(vouch).Success?
    requires vouch.c == provider.c && b < 2
    ensures |Branches(vouch)| == |Branches(provider)| == 4
    ensures BranchWindowOpen(Branches(vouch)[b], landed, now)
      <==> BranchWindowOpen(Branches(provider)[b], vouch.nOrigin, now)
  {
    AsDrawn(provider);
    AsDrawn(vouch);
    RegularNote(provider);
    RegularNote(vouch);
    RegularBranch(Branches(vouch)[b], {}, {}, landed, now);
    RegularBranch(Branches(provider)[b], {}, {}, vouch.nOrigin, now);
  }

  // ----- What an address binds

  /** Everything a lock remembers of its parties, bounds and facts, and nothing else. A set is written
      where the lock keeps its members but not their roles. */
  datatype Binding =
    | FundingBinding(buyer: Digest, platform: Digest, df: nat, facts: set<Digest>)
    | JobBinding(buyer: Digest, platform: Digest, provider: Digest, dj: nat, facts: set<Digest>)
    | ProviderBinding(provider: Digest, clawback: set<Digest>, c: nat, facts: set<Digest>)
    | TicketBinding(parties: CheckParties, reportBy: nat, claimBy: nat, facts: set<Digest>)
    | VouchBinding(checker: Digest, clawback: set<Digest>, payFrom: nat, facts: set<Digest>)
    | DemandBinding(provider: Digest, checker: Digest, answerBy: nat, facts: set<Digest>)
    | SliceBinding(holder: Digest, platform: Digest, slash: set<Digest>, tLife: nat, facts: set<Digest>)
    | HeldBinding(holder: Digest, hold: nat, facts: set<Digest>)
    | RewardBinding(verdict: Digest, facts: set<Digest>)

  function BindingOf(note: Note): Binding
    requires LockOf(note).Success?
  {
    match note
    case Funding(buyer, platform, df, facts) =>
        FundingBinding(buyer, platform, df, {facts.orderDigest, facts.weightRoot})
    case CheckFunding(buyer, platform, df, facts) =>
      FundingBinding(buyer, platform, df, {facts.saltedDigest, facts.weightRoot})
    case Job(p, dj, facts) => JobBinding(p.buyer, p.platform, p.provider, dj, {facts.orderDigest, facts.weightRoot})
    case Provider(p, c, facts, serve) =>
      ProviderBinding(p.provider, {p.buyer, p.platform}, c,
          {facts.orderDigest, facts.weightRoot, serve.input, serve.ids, serve.anchor, serve.closing, serve.modelPin})
    case Ticket(p, reportBy, claimBy, facts) =>
      TicketBinding(p, reportBy, claimBy, {facts.saltedDigest, facts.weightRoot})
    case Vouch(p, nOrigin, c, salted, vouched) =>
      VouchBinding(p.checker, {p.buyer, p.platform}, nOrigin + c, {salted, vouched, p.checker})
    case Demand(provider, checker, answerBy, salted, record, round) =>
      DemandBinding(provider, checker, answerBy, {salted, record, RoundSlot(round)})
    case Slice(k, role, index, tLife, terms) =>
      SliceBinding(k.holder, k.platform, {k.slasher, k.verdict}, tLife, {terms, IndexSlot(role, index)})
    case Held(holder, hold, terms) => HeldBinding(holder, hold, {terms})
    case Reward(verdict, order, statement) => RewardBinding(verdict, {order, statement})
  }

  lemma OtherOfPair(a: Digest, b: Digest, c: Digest)
    ensures {a, b} == {a, c} <==> b == c
    ensures {b, a} == {c, a} <==> b == c
  {
    if {a, b} == {a, c} || {b, a} == {c, a} {
      assert b in {a, b} && c in {a, c} && b in {b, a} && c in {c, a};
    }
  }

  lemma OnlyOf(a: Digest, b: Digest)
    ensures {a} == {b} <==> a == b
  {
    if {a} == {b} {
      assert a in {b};
    }
  }

  /** The kind of note a list of branches can belong to, read off its shape. */
  function KindOf(d: seq<SpendCondition>): nat
    requires (|d| == 2 || |d| == 4) && Regular(d[0]) && d[0][0].Pkh?
  {
    if |d| == 2 then (if |d[0]| == 2 then 7 else 8)
    else if |d[0]| == 1 then (if |d[1]| == 1 then 6 else 0)
    else if d[0][0].m == 2 then (if d[0][1].rel.max.Some? then 1 else 3)
    else if d[0][1].abs.min.Some? then 4 else if d[0][1].rel.min.Some? then 2 else 5
  }

  /** The two funding notes are one kind: a check's job runs on the escrow flow. */
  function Kind(note: Note): nat {
    match note
    case Funding(_, _, _, _) => 0
    case CheckFunding(_, _, _, _) => 0
    case Job(_, _, _) => 1
    case Provider(_, _, _, _) => 2
    case Ticket(_, _, _, _) => 3
    case Vouch(_, _, _, _, _) => 4
    case Demand(_, _, _, _, _, _) => 5
    case Slice(_, _, _, _, _) => 6
    case Held(_, _, _) => 7
    case Reward(_, _, _) => 8
  }

  lemma KindShows(note: Note)
    requires LockOf(note).Success?
    ensures (|Drawn(note)| == 2 || |Drawn(note)| == 4) && Regular(Drawn(note)[0]) && Drawn(note)[0][0].Pkh?
    ensures KindOf(Drawn(note)) == Kind(note)
  {
    AsDrawn(note);
    RegularNote(note);
  }

  lemma FundingBinds(m: Note, n: Note)
    requires Kind(m) == 0 && Kind(n) == 0 && LockOf(m).Success? && LockOf(n).Success?
    ensures Drawn(m) == Drawn(n) <==> BindingOf(m) == BindingOf(n)
  {
    OnlyOf(m.buyer, n.buyer);
    OtherOfPair(m.buyer, m.platform, n.platform);
  }

  lemma JobBinds(m: Note, n: Note)
    requires m.Job? && n.Job? && LockOf(m).Success? && LockOf(n).Success?
    ensures Drawn(m) == Drawn(n) <==> BindingOf(m) == BindingOf(n)
  {
    OnlyOf(m.parties.buyer, n.parties.buyer);
    OtherOfPair(m.parties.buyer, m.parties.platform, n.parties.platform);
    OtherOfPair(m.parties.platform, m.parties.provider, n.parties.provider);
  }

  lemma ProviderBinds(m: Note, n: Note)
    requires m.Provider? && n.Provider? && LockOf(m).Success? && LockOf(n).Success?
    ensures Drawn(m) == Drawn(n) <==> BindingOf(m) == BindingOf(n)
  {
    OnlyOf(m.parties.provider, n.parties.provider);
  }

  lemma TicketBinds(m: Note, n: Note)
    requires m.Ticket? && n.Ticket? && LockOf(m).Success? && LockOf(n).Success?
    ensures Drawn(m) == Drawn(n) <==> BindingOf(m) == BindingOf(n)
  {
    OnlyOf(m.check.buyer, n.check.buyer);
    TicketKeys(m.check, n.check);
  }

  lemma VouchBinds(m: Note, n: Note)
    requires m.Vouch? && n.Vouch? && LockOf(m).Success? && LockOf(n).Success?
    ensures Drawn(m) == Drawn(n) <==> BindingOf(m) == BindingOf(n)
  {
    OnlyOf(m.check.checker, n.check.checker);
  }

  lemma DemandBinds(m: Note, n: Note)
    requires m.Demand? && n.Demand? && LockOf(m).Success? && LockOf(n).Success?
    ensures Drawn(m) == Drawn(n) <==> BindingOf(m) == BindingOf(n)
  {
    OnlyOf(m.provider, n.provider);
    OnlyOf(m.checker, n.checker);
  }

  lemma SliceBinds(m: Note, n: Note)
    requires m.Slice? && n.Slice? && LockOf(m).Success? && LockOf(n).Success?
    ensures Drawn(m) == Drawn(n) <==> BindingOf(m) == BindingOf(n)
  {
    OnlyOf(m.keys.holder, n.keys.holder);
    OtherOfPair(m.keys.holder, m.keys.platform, n.keys.platform);
  }

  lemma HeldBinds(m: Note, n: Note)
    requires m.Held? && n.Held? && LockOf(m).Success? && LockOf(n).Success?
    ensures Drawn(m) == Drawn(n) <==> BindingOf(m) == BindingOf(n)
  {
    OnlyOf(m.holder, n.holder);
  }

  lemma RewardBinds(m: Note, n: Note)
    requires m.Reward? && n.Reward? && LockOf(m).Success? && LockOf(n).Success?
    ensures Drawn(m) == Drawn(n) <==> BindingOf(m) == BindingOf(n)
  {
    OnlyOf(m.verdict, n.verdict);
  }

  lemma TicketKeys(p: CheckParties, q: CheckParties)
    requires RefuseDistinctCheckParties(p).Success? && RefuseDistinctCheckParties(q).Success?
    ensures {p.platform, p.checker} == {q.platform, q.checker} && {p.verdict, p.checker} == {q.verdict, q.checker}
            ==> p.platform == q.platform && p.verdict == q.verdict && p.checker == q.checker
  {
    FourDistinct(p);
    FourDistinct(q);
    if {p.platform, p.checker} == {q.platform, q.checker} && {p.verdict, p.checker} == {q.verdict, q.checker} {
      assert p.checker in {q.platform, q.checker} && p.checker in {q.verdict, q.checker};
      OtherOfPair(p.checker, p.platform, q.platform);
      OtherOfPair(p.checker, p.verdict, q.verdict);
    }
  }

  /** Exact address binding: two notes that build have one lock exactly when they bind the same things.
      So different kinds never share a lock, but for the two funding notes; bounds and fact sets are always
      bound; and where a key stands only in a pair, the lock keeps the pair and forgets who is who. */
  lemma AddressBinding(m: Note, n: Note)
    requires LockOf(m).Success? && LockOf(n).Success?
    ensures LockOf(m) == LockOf(n) <==> BindingOf(m) == BindingOf(n)
    ensures LockOf(m) == LockOf(n) ==> Kind(m) == Kind(n)
  {
    LocksAreDrawn(m, n);
    KindShows(m);
    KindShows(n);
    if Kind(m) == Kind(n) {
      SameKindBinds(m, n);
    }
  }

  lemma LocksAreDrawn(m: Note, n: Note)
    requires LockOf(m).Success? && LockOf(n).Success?
    ensures LockOf(m) == LockOf(n) <==> Drawn(m) == Drawn(n)
  {
    AsDrawn(m);
    AsDrawn(n);
  }

  lemma SameKindBinds(m: Note, n: Note)
    requires LockOf(m).Success? && LockOf(n).Success? && Kind(m) == Kind(n)
    ensures Drawn(m) == Drawn(n) <==> BindingOf(m) == BindingOf(n)
  {
    match m
    case Funding(_, _, _, _) => FundingBinds(m, n);
    case CheckFunding(_, _, _, _) => FundingBinds(m, n);
    case Job(_, _, _) => JobBinds(m, n);
    case Provider(_, _, _, _) => ProviderBinds(m, n);
    case Ticket(_, _, _, _) => TicketBinds(m, n);
    case Vouch(_, _, _, _, _) => VouchBinds(m, n);
    case Demand(_, _, _, _, _, _) => DemandBinds(m, n);
    case Slice(_, _, _, _, _) => SliceBinds(m, n);
    case Held(_, _, _) => HeldBinds(m, n);
    case Reward(_, _, _) => RewardBinds(m, n);
  }

  /** The one exception among the constructors: a check's funding note over a salted digest has the lock of the
      escrow flow's funding note over an equal order digest, and is refused with it. */
  lemma FundingNotesShareLocks(buyer: Digest, platform: Digest, df: u64, salted: Digest, weight: Digest)
    ensures LockOf(CheckFunding(buyer, platform, df, CheckFacts(salted, weight)))
         == LockOf(Funding(buyer, platform, df, JobFacts(salted, weight)))
  {
  }

  /** Slices of one posting never share an address, nor do a provider's and a checker's under one terms digest. */
  lemma SlicesHaveOwnAddresses(m: Note, n: Note)
    requires m.Slice? && n.Slice? && LockOf(m).Success? && LockOf(n).Success?
    requires m.terms == n.terms && LockOf(m) == LockOf(n)
    ensures m.role == n.role && m.index == n.index
  {
    AddressBinding(m, n);
    OtherOfPair(m.terms, IndexSlot(m.role, m.index), IndexSlot(n.role, n.index));
  }

  /** So the clawback's two parties can be exchanged without moving the note, and a vouch note's address
      says nothing of the verdict key. */
  lemma RolesForgotten(p: JobParties, c: u64, facts: JobFacts, serve: ServeFacts)
    requires LockOf(Provider(p, c, facts, serve)).Success?
    ensures LockOf(Provider(JobParties(p.platform, p.buyer, p.provider), c, facts, serve))
      == LockOf(Provider(p, c, facts, serve))
  {
    TwoOf(p.buyer, p.platform);
    TwoOf(p.platform, p.buyer);
    assert {p.buyer, p.platform} == {p.platform, p.buyer};
  }

  lemma VerdictForgotten(p: CheckParties, verdict: Digest, nOrigin: u64, c: u64, salted: Digest, vouched: Digest)
    requires LockOf(Vouch(p, nOrigin, c, salted, vouched)).Success?
    requires verdict !in {p.buyer, p.platform, p.checker}
    ensures LockOf(Vouch(p.(verdict := verdict), nOrigin, c, salted, vouched))
      == LockOf(Vouch(p, nOrigin, c, salted, vouched))
  {
    FourDistinct(p);
    assert AllDistinct([p.buyer, p.platform, verdict, p.checker]);
  }
}
