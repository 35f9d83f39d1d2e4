/** Splitting an atom's bytes into field elements, seven bytes at a time. */
module Belts {
  import opened Field
  import opened LittleEndian

  function Chunks(bytes: seq<byte>): seq<nat> {
    if bytes == [] then []
    else if |bytes| <= 7 then [Value(bytes)]
    else [Value(bytes[..7])] + Chunks(bytes[7..])
  }

  /** The belts of an atom; atom 0 is the single belt 0. */
  function BeltsOf(bytes: seq<byte>): seq<nat> {
    if Trim(bytes) == [] then [0] else Chunks(Trim(bytes))
  }

  /** The position after the last non-zero byte. */
  method TrimmedLength(bytes: seq<byte>) returns (len: nat)
    ensures len <= |bytes| && bytes[..len] == Trim(bytes)
  {
    len := |bytes|;
    assert bytes[..len] == bytes;
    while len > 0 && bytes[len - 1] == 0
      invariant len <= |bytes| && Trim(bytes[..len]) == Trim(bytes)
    {
      assert bytes[..len][..len - 1] == bytes[..len - 1];
      len := len - 1;
    }
  }

  /** One chunk as a word. The shifted bytes occupy disjoint bits, so or-ing them in is adding them. */
  method ChunkToBelt(chunk: seq<byte>) returns (val: u64)
    requires |chunk| <= 7
    ensures val == Value(chunk) < Pow256(7)
  {
    var sum: nat := 0;
    for i := 0 to |chunk|
      invariant sum == Value(chunk[..i])
    {
      ValueAppend(chunk[..i], chunk[i]);
      assert chunk[..i + 1] == chunk[..i] + [chunk[i]];
      sum := sum + Shift(chunk[i], i);
    }
    assert chunk[..|chunk|] == chunk;
    ValueBound(chunk);
    ShiftMonotone(1, 1, |chunk|, 7);
    val := sum;
  }

  /** `atom_bytes_to_belts`. */
  method AtomBytesToBelts(bytes: seq<byte>) returns (belts: seq<nat>)
    ensures belts == BeltsOf(bytes)
    ensures forall b | b in belts :: b < Pow256(7) < PRIME
  {
    var len := TrimmedLength(bytes);
    if len == 0 {
      return [0];
    }
    var rest := bytes[..len];
    belts := [];
    while rest != []
      invariant belts + Chunks(rest) == Chunks(bytes[..len])
      invariant forall b | b in belts :: b < Pow256(7)
      decreases |rest|
    {
      var n := if |rest| <= 7 then |rest| else 7;
      var val := ChunkToBelt(rest[..n]);
      assert rest[..|rest|] == rest;
      belts := belts + [val];
      rest := rest[n..];
    }
  }

  lemma {:induction false} ChunkCount(bytes: seq<byte>)
    ensures |Chunks(bytes)| == (|bytes| + 6) / 7
  {
    if |bytes| > 7 {
      ChunkCount(bytes[7..]);
    }
  }

  /** Chunking forgets nothing about a string without a trailing zero. */
  lemma {:induction false} ChunksInjective(s: seq<byte>, t: seq<byte>)
    requires NoTrailingZero(s) && NoTrailingZero(t) && Chunks(s) == Chunks(t)
    ensures s == t
  {
    if |s| <= 7 || |t| <= 7 {
      LeBytesOfValue(s);
      LeBytesOfValue(t);
      ChunkCount(s);
      ChunkCount(t);
    } else {
      assert Chunks(s)[0] == Chunks(t)[0] && Chunks(s)[1..] == Chunks(t)[1..];
      ValueInjective(s[..7], t[..7]);
      ChunksInjective(s[7..], t[7..]);
      assert s == s[..7] + s[7..] && t == t[..7] + t[7..];
    }
  }

  /** Two byte strings split into the same belts exactly when they are one atom,
      that is, when they agree up to trailing zero bytes. */
  lemma BeltsIdentifyAtoms(s: seq<byte>, t: seq<byte>)
    ensures BeltsOf(s) == BeltsOf(t) <==> Trim(s) == Trim(t)
    ensures BeltsOf(s) == BeltsOf(t) <==> Value(s) == Value(t)
  {
    TrimIsValue(s, t);
    TrimKeepsValue(s);
    TrimKeepsValue(t);
    if BeltsOf(s) == BeltsOf(t) {
      ZeroBelt(Trim(s));
      ZeroBelt(Trim(t));
      ChunksInjective(Trim(s), Trim(t));
    }
  }

  lemma ZeroBelt(s: seq<byte>)
    requires NoTrailingZero(s)
    ensures Chunks(s) != [0]
  {
    if s != [] {
      if |s| <= 7 {
        ValueAtLeast(s, |s| - 1);
      } else {
        ChunkCount(s);
      }
    }
  }
}
