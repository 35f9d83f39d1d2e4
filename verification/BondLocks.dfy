/** The bonds as slices, and the two notes a slash pays into. */
module BondLocks {
  import opened Wrappers
  import opened Field
  import opened Locks

  datatype SliceRole = ProviderRole | CheckerRole {
    /** The cords "slice-pv" and "slice-ck" as little-endian words. */
    function Cord(): u64 {
      if ProviderRole? then 0x7670_2d65_6369_6c73 else 0x6b63_2d65_6369_6c73
    }
  }

  datatype SliceKeys = SliceKeys(holder: Digest, slasher: Digest, verdict: Digest, platform: Digest)

  function SliceSlot(role: SliceRole, index: u64): Result<Digest, LockError> {
    var _ :- Need(index < PRIME, NotAFieldElement);
    Success(Digest(role.Cord(), index, 0, 0, 0))
  }

  function RefuseDistinctSliceKeys(k: SliceKeys): Result<(), LockError> {
    var _ :- RefuseSameKey(k.slasher, k.verdict);
    var _ :- RefuseSameKey(k.holder, k.verdict);
    var _ :- RefuseSameKey(k.slasher, k.holder);
    var _ :- RefuseSameKey(k.slasher, k.platform);
    var _ :- RefuseSameKey(k.holder, k.platform);
    RefuseSameKey(k.verdict, k.platform)
  }

  /** 1 SLASH, 2 EXIT, 3 FALLBACK, 4 RESERVED. */
  function SliceLock(keys: SliceKeys, role: SliceRole, index: u64, tLife: u64, terms: Digest): Result<Lock, LockError> {
    var _ :- RefuseDistinctSliceKeys(keys);
    var _ :- RefuseZeroWindow(tLife);
    var slash :- PkhConjunct(2, [keys.slasher, keys.verdict]);
    var exit :- PkhConjunct(2, [keys.holder, keys.platform]);
    var alone :- PkhConjunct(1, [keys.holder]);
    var slot :- SliceSlot(role, index);
    var hax :- FactsHax([terms, slot]);
    Success(Four([slash], [exit], [alone, Relative(Some(tLife), None)], [Burn, hax]))
  }

  /** 1 RELEASE, 2 TAG. */
  function HeldLock(holder: Digest, hold: u64, terms: Digest): Result<Lock, LockError> {
    var _ :- RefuseZeroWindow(hold);
    var alone :- PkhConjunct(1, [holder]);
    var hax :- FactsHax([terms]);
    Success(Two([alone, Relative(Some(hold), None)], [Burn, hax]))
  }

  /** 1 PAY, 2 TAG. */
  function RewardLock(verdict: Digest, orderDigest: Digest, statement: Digest): Result<Lock, LockError> {
    var alone :- PkhConjunct(1, [verdict]);
    var hax :- FactsHax([orderDigest, statement]);
    Success(Two([alone], [Burn, hax]))
  }
}
