/** The base-P encoding of a digest as a little-endian atom. */
module DigestEncoding {
  import opened Field
  import opened LittleEndian

  const BUFFER: nat := 48
  const U128_MAX: nat := 0xFFFF_FFFF_FFFF_FFFF_FFFF_FFFF_FFFF_FFFF

  /** The polynomial limb[0] + limb[1]*P + limb[2]*P^2 + ... */
  function Polynomial(limbs: seq<u64>): nat {
    if limbs == [] then 0 else limbs[0] + PRIME * Polynomial(limbs[1..])
  }

  /** The part of the buffer past `len` is blank. */
  ghost predicate Blank(buf: seq<byte>, len: nat) {
    len <= |buf| && forall j | len <= j < |buf| :: buf[j] == 0
  }

  lemma {:induction false} ShiftScale(x: nat, k: nat)
    ensures Shift(x * PRIME, k) == Shift(x, k) * PRIME
  {
    if k > 0 {
      ShiftScale(x, k - 1);
    }
  }

  /** A value below 256^k leaves every byte from `k` on blank. */
  lemma BlankFromBound(buf: seq<byte>, k: nat)
    requires k <= |buf| && Value(buf) < Pow256(k)
    ensures Blank(buf, k)
  {
    forall j | k <= j < |buf| ensures buf[j] == 0 {
      if buf[j] != 0 {
        ValueAtLeast(buf, j);
        ShiftMonotone(1, 1, k, j);
      }
    }
  }

  /** One more carry step: `total` at place |written| splits into the byte written there and the carry. */
  lemma CarryStep(written: seq<byte>, total: nat, b: byte, carry: nat)
    requires total == 256 * carry + b
    ensures Value(written + [b]) + Shift(carry, |written| + 1) == Value(written) + Shift(total, |written|)
  {
    ValueAppend(written, b);
    ShiftUp(carry, |written|);
    ShiftAdd(b, 256 * carry, |written|);
  }

  /** The step of the multiply pass, on values. */
  lemma MultiplyStep(done: seq<byte>, source: seq<byte>, x: byte, carryIn: nat, b: byte, carry: nat)
    requires |done| == |source| && Value(done) + Shift(carryIn, |done|) == Value(source) * PRIME
    requires x * PRIME + carryIn == 256 * carry + b
    ensures Value(done + [b]) + Shift(carry, |done| + 1) == Value(source + [x]) * PRIME
  {
    CarryStep(done, x * PRIME + carryIn, b, carry);
    ValueAppend(source, x);
    ShiftScale(x, |done|);
    ShiftAdd(x * PRIME, carryIn, |done|);
  }

  /** The step of the add pass, on values. */
  lemma AddStep(done: seq<byte>, source: seq<byte>, x: byte, carryIn: nat, limb: nat, b: byte, carry: nat)
    requires |done| == |source| && Value(done) + Shift(carryIn, |done|) == Value(source) + limb
    requires x + carryIn == 256 * carry + b
    ensures Value(done + [b]) + Shift(carry, |done| + 1) == Value(source + [x]) + limb
  {
    CarryStep(done, x + carryIn, b, carry);
    ValueAppend(source, x);
    ShiftAdd(x, carryIn, |done|);
  }

  /** The last carry of the multiply pass, spilled byte by byte past `len`. A byte that found no room would
      be dropped; none is. */
  method SpillCarry(buf: array<byte>, len: nat, rest: nat, ghost goal: nat) returns (newLen: nat)
    requires Blank(buf[..], len) && (len == 0 ==> rest == 0)
    requires Value(buf[..len]) + Shift(rest, len) == goal < Pow256(buf.Length)
    modifies buf
    ensures Value(buf[..]) == goal
    ensures len <= newLen <= buf.Length && Blank(buf[..], newLen) && (len == 0 ==> newLen == 0)
  {
    var carry := rest;
    newLen := len;
    while carry > 0
      invariant len <= newLen <= buf.Length && Blank(buf[..], newLen) && (len == 0 ==> newLen == 0 && carry == 0)
      invariant Value(buf[..newLen]) + Shift(carry, newLen) == goal
      decreases carry
    {
      ShiftMonotone(1, carry, newLen, newLen);
      if newLen < buf.Length {
        ghost var done := buf[..newLen];
        CarryStep(done, carry, carry % 256, carry / 256);
        buf[newLen] := carry % 256;
        newLen := newLen + 1;
        assert buf[..newLen] == done + [carry % 256];
      }
      carry := carry / 256;
    }
    ShiftZero(newLen);
    ValueOfZeroTail(buf[..], newLen);
    assert buf[..][..newLen] == buf[..newLen];
  }

  /** The multiply pass: the buffer is multiplied by P in place, spilling the last carry past `len`. */
  method MultiplyByPrime(buf: array<byte>, len: nat) returns (newLen: nat)
    requires Blank(buf[..], len)
    requires Value(buf[..]) * PRIME < Pow256(buf.Length)
    modifies buf
    ensures Value(buf[..]) == old(Value(buf[..])) * PRIME
    ensures len <= newLen <= buf.Length && Blank(buf[..], newLen) && (len == 0 ==> newLen == 0)
  {
    ghost var before := buf[..];
    ghost var goal := Value(before) * PRIME;
    var carry: nat := 0;
    for i := 0 to len
      invariant carry < PRIME
      invariant buf[i..] == before[i..]
      invariant Value(buf[..i]) + Shift(carry, i) == Value(before[..i]) * PRIME
    {
      assert buf[i] == before[i];
      var prod := buf[i] * PRIME + carry;
      assert prod <= U128_MAX;
      var low, high := prod % 256, prod / 256;
      ghost var done := buf[..i];
      MultiplyStep(done, before[..i], before[i], carry, low, high);
      assert before[..i + 1] == before[..i] + [before[i]];
      buf[i] := low;
      carry := high;
      assert buf[..i + 1] == done + [low];
    }
    ValueOfZeroTail(before, len);
    assert Blank(buf[..], len) by {
      forall j | len <= j < buf.Length ensures buf[j] == 0 {
        assert buf[j] == buf[len..][j - len] == before[len..][j - len];
      }
    }
    newLen := SpillCarry(buf, len, carry, goal);
  }

  /** The add pass: one limb is added in place and the length grows over any byte it carried into. */
  method AddLimb(buf: array<byte>, len: nat, limb: u64) returns (newLen: nat)
    requires buf.Length >= 8 && Blank(buf[..], len) && (len == 0 || len >= 8)
    requires Value(buf[..]) + limb < Pow256(buf.Length)
    modifies buf
    ensures Value(buf[..]) == old(Value(buf[..])) + limb
    ensures newLen <= buf.Length && Blank(buf[..], newLen) && (newLen == 0 || newLen >= 8)
  {
    ghost var before := buf[..];
    var carry: nat := limb;
    var i := 0;
    while i < buf.Length && carry != 0
      invariant i <= buf.Length && carry <= U64_MAX
      invariant buf[i..] == before[i..]
      invariant Value(buf[..i]) + Shift(carry, i) == Value(before[..i]) + limb
    {
      assert buf[i] == before[i];
      var sum := buf[i] + carry;
      var low, high := sum % 256, sum / 256;
      ghost var done := buf[..i];
      AddStep(done, before[..i], before[i], carry, limb, low, high);
      assert before[..i + 1] == before[..i] + [before[i]];
      buf[i] := low;
      carry := high;
      i := i + 1;
      assert buf[..i] == done + [low];
    }
    AddedValue(buf[..], before, i, carry, limb);
    ValueBound(before[..len]);
    ValueOfZeroTail(before, len);
    newLen := GrowLength(buf, len, limb, Value(before));
  }

  /** The length after the add pass covers every byte it may have carried into. */
  method GrowLength(buf: array<byte>, len: nat, limb: u64, ghost was: nat) returns (newLen: nat)
    requires buf.Length >= 8 && len <= buf.Length && (len == 0 || len >= 8)
    requires was < Pow256(len) && Value(buf[..]) == was + limb
    ensures newLen <= buf.Length && Blank(buf[..], newLen) && (newLen == 0 || newLen >= 8)
  {
    newLen := len;
    if newLen == 0 && limb > 0 {
      newLen := 8;
    }
    SumFits(was, len, limb, newLen);
    if newLen < buf.Length {
      BlankFromBound(buf[..], newLen + 1);
    }
    while newLen < buf.Length && buf[newLen] != 0
      invariant newLen <= buf.Length && (newLen == 0 || newLen >= 8)
      invariant newLen < buf.Length ==> Blank(buf[..], newLen + 1)
    {
      newLen := newLen + 1;
    }
  }

  /** When the add pass stops, the whole buffer holds the sum. */
  lemma AddedValue(now: seq<byte>, before: seq<byte>, i: nat, carry: nat, limb: nat)
    requires |now| == |before| && i <= |now| && now[i..] == before[i..]
    requires i == |now| || carry == 0
    requires Value(now[..i]) + Shift(carry, i) == Value(before[..i]) + limb
    requires Value(before) + limb < Pow256(|before|)
    ensures Value(now) == Value(before) + limb
  {
    ShiftZero(i);
    if carry == 0 {
      SameTail(now, before, i);
    } else {
      assert now[..i] == now && before[..i] == before;
      ShiftMonotone(1, carry, i, i);
    }
  }

  lemma {:induction false} SameTail(a: seq<byte>, b: seq<byte>, i: nat)
    requires |a| == |b| && i <= |a| && a[i..] == b[i..]
    ensures Value(a) - Value(b) == Value(a[..i]) - Value(b[..i])
  {
    if i < |a| {
      var n := |a| - 1;
      assert a[n] == a[i..][n - i] && b[n] == b[i..][n - i];
      assert a[..n][i..] == a[i..][..n - i] && b[..n][i..] == b[i..][..n - i];
      SameTail(a[..n], b[..n], i);
      ValueAppend(a[..n], a[n]);
      ValueAppend(b[..n], b[n]);
      assert a == a[..n] + [a[n]] && b == b[..n] + [b[n]];
      assert a[..n][..i] == a[..i] && b[..n][..i] == b[..i];
    } else {
      assert a[..i] == a && b[..i] == b;
    }
  }

  lemma Pow256Eight()
    ensures Pow256(8) == U64_MAX + 1
  {
    assert Pow256(4) == 0x1_0000_0000;
    ShiftShift(1, 4, 4);
  }

  /** Adding one limb carries at most one byte past the length in use. */
  lemma SumFits(v: nat, len: nat, limb: u64, used: nat)
    requires v < Pow256(len) && (len == 0 || len >= 8)
    requires used == if len == 0 && limb > 0 then 8 else len
    ensures v + limb < Pow256(used + 1)
  {
    Pow256Eight();
    if used > 0 {
      ShiftMonotone(1, 1, 8, used);
      ShiftMonotone(1, 1, len, used);
    }
  }

  /** After `k` limbs the running value stays below 2^(64k): it never reaches the 48th byte. */
  lemma RunningBound(v: nat, k: nat, limb: u64)
    requires v < Pow256(8 * k)
    ensures v * PRIME + limb < Pow256(8 * k + 8)
  {
    Pow256Eight();
    var p := Pow256(8 * k);
    ShiftShift(1, 8, 8 * k);
    ShiftTimes(p, k);
    if k > 0 {
      ShiftMonotone(1, 1, 8, 8 * k);
    }
  }

  lemma ShiftTimes(p: nat, k: nat)
    requires p == Pow256(8 * k)
    ensures Pow256(8 * k + 8) == p * (U64_MAX + 1)
  {
    var j := 8 * k;
    assert Pow256(j + 2) == 256 * Pow256(j + 1) == 256 * 256 * p;
    assert Pow256(j + 4) == 256 * Pow256(j + 3) == 256 * 256 * Pow256(j + 2);
    assert Pow256(j + 6) == 256 * Pow256(j + 5) == 256 * 256 * Pow256(j + 4);
    assert Pow256(j + 8) == 256 * Pow256(j + 7) == 256 * 256 * Pow256(j + 6);
  }

  lemma LengthBound(bytes: seq<byte>, k: nat)
    requires NoTrailingZero(bytes) && Value(bytes) < Pow256(k)
    ensures |bytes| <= k
  {
    if |bytes| > k {
      ValueAtLeast(bytes, |bytes| - 1);
      ShiftMonotone(1, 1, k, |bytes| - 1);
    }
  }

  /** Horner's rule from the most significant limb down, in a blank buffer. */
  method Accumulate(hash: seq<u64>, buf: array<byte>)
    requires buf.Length >= 8 * |hash| && Blank(buf[..], 0)
    modifies buf
    ensures Value(buf[..]) == Polynomial(hash) < Pow256(8 * |hash|)
  {
    var len: nat := 0;
    ValueOfZeroTail(buf[..], 0);
    var k := 0;
    while k < |hash|
      invariant k <= |hash| && Blank(buf[..], len) && (len == 0 || len >= 8)
      invariant Value(buf[..]) == Polynomial(hash[|hash| - k..]) < Pow256(8 * k)
    {
      ghost var v := Value(buf[..]);
      var limb := hash[|hash| - 1 - k];
      RunningBound(v, k, limb);
      ShiftMonotone(1, 1, 8 * k + 8, buf.Length);
      PolynomialStep(hash, |hash| - 1 - k);
      len := MultiplyByPrime(buf, len);
      len := AddLimb(buf, len, limb);
      k := k + 1;
    }
    assert hash[0..] == hash;
  }

  lemma PolynomialStep(limbs: seq<u64>, i: nat)
    requires i < |limbs|
    ensures Polynomial(limbs[i..]) == limbs[i] + PRIME * Polynomial(limbs[i + 1..])
  {
    assert limbs[i..][1..] == limbs[i + 1..];
  }

  /** The shortest little-endian form of the digest's polynomial. */
  function Encoding(d: Digest): seq<byte> {
    LeBytes(Polynomial(d.Limbs()))
  }

  /** The polynomial of a digest, limb by limb. */
  lemma FiveLimbs(d: Digest)
    ensures Polynomial(d.Limbs()) == d.l0 + PRIME * (d.l1 + PRIME * (d.l2 + PRIME * (d.l3 + PRIME * d.l4)))
  {
    var limbs := d.Limbs();
    PolynomialStep(limbs, 4);
    PolynomialStep(limbs, 3);
    PolynomialStep(limbs, 2);
    PolynomialStep(limbs, 1);
    PolynomialStep(limbs, 0);
    assert limbs[5..] == [] && limbs[0..] == limbs;
  }

  /** `tip5_to_atom_le_bytes`: the buffer cut at its last non-zero byte. It is exact for every digest,
      in the field or not, and the shortest encoding there is. */
  method Tip5ToAtomLeBytes(hash: Digest) returns (bytes: seq<byte>)
    ensures bytes == Encoding(hash) && |bytes| <= 40
    ensures Value(bytes) == hash.l0 + PRIME * (hash.l1 + PRIME * (hash.l2 + PRIME * (hash.l3 + PRIME * hash.l4)))
    ensures bytes == [] || bytes[|bytes| - 1] != 0
  {
    var buf := new byte[BUFFER](_ => 0);
    var limbs := hash.Limbs();
    Accumulate(limbs, buf);
    var end := buf.Length;
    while end > 0 && buf[end - 1] == 0
      invariant 0 <= end <= buf.Length && Blank(buf[..], end)
    {
      end := end - 1;
    }
    ValueOfZeroTail(buf[..], end);
    assert buf[..][..end] == buf[..end];
    bytes := buf[..end];
    LeBytesOfValue(bytes);
    FiveLimbs(hash);
    LengthBound(bytes, 8 * |limbs|);
  }

  lemma {:induction false} PolynomialInjective(a: seq<u64>, b: seq<u64>)
    requires |a| == |b|
    requires forall i | 0 <= i < |a| :: a[i] < PRIME && b[i] < PRIME
    requires Polynomial(a) == Polynomial(b)
    ensures a == b
  {
    if a != [] {
      assert a[0] == Polynomial(a) % PRIME == b[0];
      PolynomialInjective(a[1..], b[1..]);
      assert a == [a[0]] + a[1..] && b == [b[0]] + b[1..];
    }
  }

  /** Distinct in-field digests get distinct atoms: the encoding loses nothing. */
  lemma EncodingInjective(a: Digest, b: Digest)
    requires Canonical(a) && Canonical(b)
    ensures Encoding(a) == Encoding(b) <==> a == b
  {
    ValueOfLeBytes(Polynomial(a.Limbs()));
    ValueOfLeBytes(Polynomial(b.Limbs()));
    if Encoding(a) == Encoding(b) {
      var x, y := a.Limbs(), b.Limbs();
      PolynomialInjective(x, y);
      assert x[0] == y[0] && x[1] == y[1] && x[2] == y[2] && x[3] == y[3] && x[4] == y[4];
    }
  }

  /** A limb off the field can be traded for one more in the next place. */
  lemma OffFieldAlias(a: Digest)
    requires a.l0 >= PRIME && a.l1 < U64_MAX
    ensures var b := Digest(a.l0 - PRIME, a.l1 + 1, a.l2, a.l3, a.l4);
            a != b && Encoding(a) == Encoding(b)
  {
    var b := Digest(a.l0 - PRIME, a.l1 + 1, a.l2, a.l3, a.l4);
    assert a.Limbs()[1..][1..] == b.Limbs()[1..][1..];
    PolynomialHead(a);
    PolynomialHead(b);
  }

  predicate LimbsBelow(d: Digest, n: nat) {
    d.l0 < n && d.l1 < n && d.l2 < n && d.l3 < n && d.l4 < n
  }

  ghost predicate InjectiveBelow(n: nat) {
    forall a, b | LimbsBelow(a, n) && LimbsBelow(b, n) && Encoding(a) == Encoding(b) :: a == b
  }

  /** The exact screen: of all bounds on the limbs, the prime is the largest under which no two digests share an
      encoding. */
  lemma ScreenIsExact(n: nat)
    ensures InjectiveBelow(n) <==> n <= PRIME
  {
    if n <= PRIME {
      forall a, b | LimbsBelow(a, n) && LimbsBelow(b, n) && Encoding(a) == Encoding(b) ensures a == b {
        EncodingInjective(a, b);
      }
    } else {
      var a, b := Digest(PRIME, 0, 0, 0, 0), Digest(0, 1, 0, 0, 0);
      OffFieldAlias(a);
      assert LimbsBelow(a, n) && LimbsBelow(b, n) && Encoding(a) == Encoding(b) && a != b;
    }
  }

  lemma PolynomialHead(d: Digest)
    ensures Polynomial(d.Limbs()) == d.l0 + PRIME * (d.l1 + PRIME * Polynomial(d.Limbs()[1..][1..]))
  {
    assert d.Limbs()[1..][0] == d.l1;
  }
}
