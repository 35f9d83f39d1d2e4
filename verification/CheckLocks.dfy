/** A re-check's notes, and the demand. */
module CheckLocks {
  import opened Wrappers
  import opened Field
  import opened Locks
  import opened JobLocks

  datatype CheckParties = CheckParties(buyer: Digest, platform: Digest, verdict: Digest, checker: Digest)

  datatype CheckFacts = CheckFacts(saltedDigest: Digest, weightRoot: Digest)

  function CheckFactsList(facts: CheckFacts): seq<Digest> {
    [facts.saltedDigest, facts.weightRoot]
  }

  // The cord "demand-r" as a little-endian word.
  const DEMAND_ROUND_CORD: u64 := 0x722d_646e_616d_6564

  function RefuseZeroHeight(v: u64): Result<(), LockError> {
    var _ :- Need(v != 0, ZeroWindow);
    Need(v < PRIME, NotAFieldElement)
  }

  function RefuseDistinctCheckParties(p: CheckParties): Result<(), LockError> {
    Need(AllDistinct([p.buyer, p.platform, p.verdict, p.checker]), SameKey)
  }

  /** The check's funding note is the escrow flow's, over the salted digest. */
  function CheckFundingLock(buyer: Digest, platform: Digest, df: u64, facts: CheckFacts): Result<Lock, LockError> {
    FundingLock(buyer, platform, df, JobFacts(facts.saltedDigest, facts.weightRoot))
  }

  /** 1 CAPTURE-CLEAN, 2 CLAIM, 3 RETURN, 4 TAG. */
  function TicketLock(parties: CheckParties, reportBy: u64, claimBy: u64, facts: CheckFacts): Result<Lock, LockError> {
    var _ :- RefuseDistinctCheckParties(parties);
    var _ :- RefuseZeroHeight(reportBy);
    var _ :- RefuseZeroHeight(claimBy);
    var _ :- Need(claimBy > reportBy, ClaimNotAfterReport);
    var _ :- Need(reportBy + 1 < PRIME, NoBlockLeft);
    var clean :- PkhConjunct(2, [parties.platform, parties.checker]);
    var fault :- PkhConjunct(2, [parties.verdict, parties.checker]);
    var alone :- PkhConjunct(1, [parties.buyer]);
    var hax :- FactsHax(CheckFactsList(facts));
    Success(Four([clean, Absolute(None, Some(reportBy))], [fault, Absolute(None, Some(claimBy))],
                 [alone, Absolute(Some(reportBy + 1), None)], [Burn, hax]))
  }

  /** 1 PAY, 2 CLAWBACK, 3 VOUCH-FRAUD, 4 padding. */
  function VouchNoteLock(parties: CheckParties, nOrigin: u64, c: u64, saltedDigest: Digest, vouchedRoot: Digest)
    : Result<Lock, LockError>
  {
    var _ :- RefuseDistinctCheckParties(parties);
    var _ :- Need(c >= 2, WindowTooShort);
    var _ :- Need(nOrigin + c < PRIME, NotAFieldElement);
    var payFrom: u64 := nOrigin + c;
    var alone :- PkhConjunct(1, [parties.checker]);
    var both :- PkhConjunct(2, [parties.buyer, parties.platform]);
    var hax :- FactsHax([saltedDigest, vouchedRoot, parties.checker]);
    Success(Four([alone, Absolute(Some(payFrom), None)], [both, Absolute(None, Some(payFrom - 1))],
                 [Burn, hax], [Burn]))
  }

  function DemandSlot(round: u64): Result<Digest, LockError> {
    var _ :- Need(round < PRIME, NotAFieldElement);
    Success(Digest(DEMAND_ROUND_CORD, round, 0, 0, 0))
  }

  /** 1 ANSWER, 2 EXPIRED, 3 RESERVED, 4 padding. */
  function DemandLock(provider: Digest, checker: Digest, answerBy: u64, saltedDigest: Digest, recordRoot: Digest,
                      round: u64)
    : Result<Lock, LockError>
  {
    var _ :- RefuseSameKey(provider, checker);
    var _ :- RefuseZeroWindow(answerBy);
    var _ :- Need(answerBy + 1 < PRIME, NoBlockLeft);
    var answer :- PkhConjunct(1, [provider]);
    var expired :- PkhConjunct(1, [checker]);
    var slot :- DemandSlot(round);
    var hax :- FactsHax([saltedDigest, recordRoot, slot]);
    Success(Four([answer, Relative(None, Some(answerBy))], [expired, Relative(Some(answerBy + 1), None)],
                 [Burn, hax], [Burn]))
  }
}
