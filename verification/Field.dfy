/** Machine words, the Goldilocks field and five-limb digests. */
module Field {
  import opened Wrappers

  type byte = x: int | 0 <= x < 256

  const U64_MAX: nat := 0xFFFF_FFFF_FFFF_FFFF

  /** The prime and the word size in full. */
  lemma Sizes()
    ensures U64_MAX + 1 == 18446744073709551616 && PRIME == U64_MAX + 1 - 4294967296 + 1
  {
  }

  type u64 = x: int | 0 <= x <= U64_MAX

  // The Goldilocks prime, 2^64 - 2^32 + 1.
  const PRIME: nat := 0xFFFF_FFFF_0000_0001

  function Pow2(k: nat): (p: nat)
    ensures p >= 1
  {
    if k == 0 then 1 else Pow2(k - 1) + Pow2(k - 1)
  }

  lemma EightMore(k: nat)
    ensures Pow2(k + 8) == 256 * Pow2(k)
  {
    assert Pow2(k + 2) == 4 * Pow2(k);
    assert Pow2(k + 4) == 4 * Pow2(k + 2);
    assert Pow2(k + 6) == 4 * Pow2(k + 4);
    assert Pow2(k + 8) == 4 * Pow2(k + 6);
  }

  lemma TwoTo64()
    ensures Pow2(64) == 0x1_0000_0000_0000_0000
  {
    var none: nat := 0;
    EightMore(none);
    EightMore(8);
    EightMore(16);
    EightMore(24);
    EightMore(32);
    EightMore(40);
    EightMore(48);
    EightMore(56);
  }

  /** Five raw 64-bit limbs, as read from a wire: not necessarily field elements. */
  datatype Digest = Digest(l0: u64, l1: u64, l2: u64, l3: u64, l4: u64) {
    function Limbs(): (r: seq<u64>)
      ensures |r| == 5
    {
      [l0, l1, l2, l3, l4]
    }
  }

  predicate Canonical(d: Digest) {
    d.l0 < PRIME && d.l1 < PRIME && d.l2 < PRIME && d.l3 < PRIME && d.l4 < PRIME
  }

  /** Screens a digest built from external bytes; the error names the first limb off the field. */
  method CheckTip5Limbs(d: Digest) returns (r: Result<(), u64>)
    ensures r.Success? <==> Canonical(d)
    ensures r == if d.l0 >= PRIME then Failure(d.l0) else if d.l1 >= PRIME then Failure(d.l1)
                 else if d.l2 >= PRIME then Failure(d.l2) else if d.l3 >= PRIME then Failure(d.l3)
                 else if d.l4 >= PRIME then Failure(d.l4) else Success(())
  {
    var limbs := d.Limbs();
    for i := 0 to |limbs|
      invariant forall j | 0 <= j < i :: limbs[j] < PRIME
    {
      if limbs[i] >= PRIME {
        assert i == 0 || i == 1 || i == 2 || i == 3 || i == 4;
        assert forall j | 0 <= j < i :: limbs[j] < PRIME;
        assert limbs[0] == d.l0 && limbs[1] == d.l1 && limbs[2] == d.l2 && limbs[3] == d.l3 && limbs[4] == d.l4;
        return Failure(limbs[i]);
      }
    }
    assert limbs[0] < PRIME && limbs[1] < PRIME && limbs[2] < PRIME && limbs[3] < PRIME && limbs[4] < PRIME;
    return Success(());
  }
}
