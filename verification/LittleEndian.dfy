/** Little-endian byte strings and the numbers they stand for. */
module LittleEndian {
  import opened Field

  /** `x` moved up by `k` byte places. */
  function Shift(x: nat, k: nat): (r: nat)
    ensures r >= x
  {
    if k == 0 then x else 256 * Shift(x, k - 1)
  }

  /** 256^k. */
  function Pow256(k: nat): nat {
    Shift(1, k)
  }

  function Value(bytes: seq<byte>): nat {
    if bytes == [] then 0 else bytes[0] + 256 * Value(bytes[1..])
  }

  /** The shortest little-endian encoding of a number; atom 0 is the empty string. */
  function LeBytes(n: nat): seq<byte> {
    if n == 0 then [] else [n % 256] + LeBytes(n / 256)
  }

  predicate NoTrailingZero(bytes: seq<byte>) {
    bytes == [] || bytes[|bytes| - 1] != 0
  }

  function Trim(bytes: seq<byte>): seq<byte> {
    if bytes != [] && bytes[|bytes| - 1] == 0 then Trim(bytes[..|bytes| - 1]) else bytes
  }

  lemma {:induction false} ShiftAdd(x: nat, y: nat, k: nat)
    ensures Shift(x + y, k) == Shift(x, k) + Shift(y, k)
  {
    if k > 0 {
      ShiftAdd(x, y, k - 1);
    }
  }

  lemma {:induction false} ShiftUp(x: nat, k: nat)
    ensures Shift(256 * x, k) == Shift(x, k + 1)
  {
    if k > 0 {
      ShiftUp(x, k - 1);
    }
  }

  lemma {:induction false} ShiftShift(x: nat, a: nat, b: nat)
    ensures Shift(Shift(x, a), b) == Shift(x, a + b)
  {
    if b > 0 {
      ShiftShift(x, a, b - 1);
    }
  }

  lemma {:induction false} ShiftMonotone(x: nat, y: nat, a: nat, b: nat)
    requires x <= y && a <= b
    ensures Shift(x, a) <= Shift(y, b)
  {
    if a < b {
      ShiftMonotone(x, y, a, b - 1);
    } else if a > 0 {
      ShiftMonotone(x, y, a - 1, b - 1);
    }
  }

  lemma {:induction false} ValueAppend(s: seq<byte>, b: byte)
    ensures Value(s + [b]) == Value(s) + Shift(b, |s|)
  {
    if s == [] {
      assert Value([b][1..]) == 0;
    } else {
      ValueAppend(s[1..], b);
      assert (s + [b])[1..] == s[1..] + [b];
    }
  }

  lemma {:induction false} ValueBound(s: seq<byte>)
    ensures Value(s) < Pow256(|s|)
  {
    if s != [] {
      ValueBound(s[1..]);
    }
  }

  /** A byte that is not zero forces the value up to its place. */
  lemma {:induction false} ValueAtLeast(s: seq<byte>, k: nat)
    requires k < |s| && s[k] != 0
    ensures Value(s) >= Pow256(k)
  {
    if k > 0 {
      ValueAtLeast(s[1..], k - 1);
      assert s[k] == s[1..][k - 1];
    }
  }

  lemma {:induction false} ShiftZero(k: nat)
    ensures Shift(0, k) == 0
  {
    if k > 0 {
      ShiftZero(k - 1);
    }
  }

  /** Bytes at and past `k` that are all zero add nothing. */
  lemma {:induction false} ValueOfZeroTail(s: seq<byte>, k: nat)
    requires k <= |s| && forall j | k <= j < |s| :: s[j] == 0
    ensures Value(s) == Value(s[..k])
  {
    if k < |s| {
      var t := s[..|s| - 1];
      ValueAppend(t, s[|s| - 1]);
      ShiftZero(|t|);
      assert s == t + [s[|s| - 1]];
      ValueOfZeroTail(t, k);
      assert t[..k] == s[..k];
    } else {
      assert s[..k] == s;
    }
  }

  /** Strings of one length are equal when their values are. */
  lemma {:induction false} ValueInjective(s: seq<byte>, t: seq<byte>)
    requires |s| == |t| && Value(s) == Value(t)
    ensures s == t
  {
    if s != [] {
      ValueInjective(s[1..], t[1..]);
      assert s == [s[0]] + s[1..] && t == [t[0]] + t[1..];
    }
  }

  /** A string without a trailing zero is the encoding of its value: encodings are unique. */
  lemma {:induction false} LeBytesOfValue(s: seq<byte>)
    requires NoTrailingZero(s)
    ensures LeBytes(Value(s)) == s
  {
    if s != [] {
      ValueAtLeast(s, |s| - 1);
      LeBytesOfValue(s[1..]);
      assert Value(s) % 256 == s[0] && Value(s) / 256 == Value(s[1..]);
      assert s == [s[0]] + s[1..];
    }
  }

  lemma {:induction false} ValueOfLeBytes(n: nat)
    ensures Value(LeBytes(n)) == n && NoTrailingZero(LeBytes(n))
  {
    if n != 0 {
      ValueOfLeBytes(n / 256);
      assert LeBytes(n)[1..] == LeBytes(n / 256);
    }
  }

  lemma {:induction false} TrimKeepsValue(s: seq<byte>)
    ensures Value(Trim(s)) == Value(s) && NoTrailingZero(Trim(s))
  {
    if s != [] && s[|s| - 1] == 0 {
      var t := s[..|s| - 1];
      TrimKeepsValue(t);
      ValueAppend(t, 0);
      ShiftZero(|t|);
      assert s == t + [0];
    }
  }

  /** Trimming identifies exactly the strings that denote one atom. */
  lemma TrimIsValue(s: seq<byte>, t: seq<byte>)
    ensures Trim(s) == Trim(t) <==> Value(s) == Value(t)
  {
    TrimKeepsValue(s);
    TrimKeepsValue(t);
    LeBytesOfValue(Trim(s));
    LeBytesOfValue(Trim(t));
  }
}
