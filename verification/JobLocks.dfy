/** The escrow flow's three notes. */
module JobLocks {
  import opened Wrappers
  import opened Field
  import opened Locks

  datatype JobParties = JobParties(buyer: Digest, platform: Digest, provider: Digest)

  datatype JobFacts = JobFacts(orderDigest: Digest, weightRoot: Digest)

  datatype ServeFacts = ServeFacts(input: Digest, ids: Digest, anchor: Digest, closing: Digest, modelPin: Digest)

  function JobFactsList(facts: JobFacts): seq<Digest> {
    [facts.orderDigest, facts.weightRoot]
  }

  function ServeFactsList(facts: JobFacts, serve: ServeFacts): seq<Digest> {
    JobFactsList(facts) + [serve.input, serve.ids, serve.anchor, serve.closing, serve.modelPin]
  }

  function RefuseDistinctParties(p: JobParties): Result<(), LockError> {
    var _ :- RefuseSameKey(p.buyer, p.platform);
    var _ :- RefuseSameKey(p.provider, p.platform);
    RefuseSameKey(p.provider, p.buyer)
  }

  /** 1 FAST, 2 RECOVER, 3 TAG, 4 padding. */
  function FundingLock(buyer: Digest, platform: Digest, df: u64, facts: JobFacts): Result<Lock, LockError> {
    var _ :- RefuseSameKey(buyer, platform);
    var _ :- RefuseZeroWindow(df);
    var both :- PkhConjunct(2, [buyer, platform]);
    var alone :- PkhConjunct(1, [buyer]);
    var hax :- FactsHax(JobFactsList(facts));
    Success(Four([both], [alone, Relative(Some(df), None)], [Burn, hax], [Burn]))
  }

  /** 1 CAPTURE, 2 FAST, 3 RECOVER, 4 TAG. */
  function JobLock(parties: JobParties, dj: u64, facts: JobFacts): Result<Lock, LockError> {
    var _ :- RefuseDistinctParties(parties);
    var _ :- RefuseZeroWindow(dj);
    var _ :- Need(dj + 1 < PRIME, NoBlockLeft);
    var serving :- PkhConjunct(2, [parties.platform, parties.provider]);
    var both :- PkhConjunct(2, [parties.buyer, parties.platform]);
    var alone :- PkhConjunct(1, [parties.buyer]);
    var hax :- FactsHax(JobFactsList(facts));
    Success(Four([serving, Relative(None, Some(dj))], [both], [alone, Relative(Some(dj + 1), None)], [Burn, hax]))
  }

  /** 1 PAY, 2 CLAWBACK, 3 RESERVED, 4 padding. */
  function ProviderNoteLock(parties: JobParties, c: u64, facts: JobFacts, serve: ServeFacts): Result<Lock, LockError> {
    var _ :- RefuseDistinctParties(parties);
    var _ :- Need(c >= 2, WindowTooShort);
    var _ :- Need(c < PRIME, NotAFieldElement);
    var alone :- PkhConjunct(1, [parties.provider]);
    var both :- PkhConjunct(2, [parties.buyer, parties.platform]);
    var hax :- FactsHax(ServeFactsList(facts, serve));
    Success(Four([alone, Relative(Some(c), None)], [both, Relative(None, Some(c - 1))], [Burn, hax], [Burn]))
  }
}
