/**
 The variable-length integers of the svndiff format: seven bits a byte, most significant first,
 the high bit set on every byte but the last.
 */
module Base128 {
  import opened Bytes
  import opened SvndiffFormat
  import Arithmetic

  datatype UintError = IntegerOverflow

  /** The number spelled by the low seven bits of each byte, without any width limit. */
  function Value128(s: seq<byte>): nat {
    if s == [] then 0 else Value128(s[..|s| - 1]) * 128 + s[|s| - 1] % 128
  }

  /** Index of the first byte whose continuation bit is clear; |s| when there is none. */
  function FirstTerminator(s: seq<byte>): (k: nat)
    ensures k <= |s|
    ensures forall i :: 0 <= i < k ==> s[i] >= 128
    ensures k < |s| ==> s[k] < 128
  {
    if s == [] then 0 else if s[0] < 128 then 0 else 1 + FirstTerminator(s[1..])
  }

  /** What decoding `s` means: the value modulo 2^64 and the number of bytes it occupies. */
  function DecodedUint(s: seq<byte>): (r: Option<(u64, nat)>)
    ensures r.Some? ==> 1 <= r.value.1 <= |s|
  {
    var k := FirstTerminator(s);
    if k == |s| then None else Some((Value128(s[..k + 1]) % TWO_64, k + 1))
  }

  lemma TerminatorIs(s: seq<byte>, k: nat)
    requires k < |s| && s[k] < 128
    requires forall i :: 0 <= i < k ==> s[i] >= 128
    ensures FirstTerminator(s) == k
  {
  }

  lemma NoTerminator(s: seq<byte>)
    requires forall i :: 0 <= i < |s| ==> s[i] >= 128
    ensures DecodedUint(s) == None
  {
  }

  /** A decoded integer does not depend on what follows it. */
  lemma DecodeExtends(s: seq<byte>, more: seq<byte>)
    requires DecodedUint(s).Some?
    ensures DecodedUint(s + more) == DecodedUint(s)
  {
    var k := FirstTerminator(s);
    TerminatorIs(s + more, k);
    assert (s + more)[..k + 1] == s[..k + 1];
  }

  /** Nor does it need anything behind its last byte. */
  lemma DecodeNeedsOnly(s: seq<byte>, n: nat)
    requires DecodedUint(s).Some? && DecodedUint(s).value.1 <= n <= |s|
    ensures DecodedUint(s[..n]) == DecodedUint(s)
  {
    var k := FirstTerminator(s);
    TerminatorIs(s[..n], k);
    assert s[..n][..k + 1] == s[..k + 1];
  }

  /** Shifting a wrapped value and adding seven bits never carries past 2^64. */
  lemma ShiftWraps(v: nat, d: nat)
    requires d < 128
    ensures (v % TWO_64) * 128 % TWO_64 + d == (v * 128 + d) % TWO_64
  {
    var r := v % TWO_64;
    var q2, r2 := r * 128 / TWO_64, r * 128 % TWO_64;
    assert r2 == 128 * (r - q2 * 0x200_0000_0000_0000);
    WrapsTo(v * 128 + d, v / TWO_64 * 128 + q2, r2 + d);
  }

  lemma WrapsTo(a: int, k: int, r: int)
    requires a == k * TWO_64 + r && 0 <= r < TWO_64
    ensures a % TWO_64 == r
  {
  }

  /** One step of the scan, on wrapped values. */
  lemma ScanStep(input: seq<byte>, idx: nat)
    requires idx < |input|
    ensures Value128(input[..idx]) % TWO_64 * 128 % TWO_64 + input[idx] % 128 == Value128(input[..idx + 1]) % TWO_64
  {
    assert input[..idx + 1][..idx] == input[..idx];
    ShiftWraps(Value128(input[..idx]), input[idx] % 128);
  }

  lemma DecodedAt(s: seq<byte>, k: nat)
    requires k < |s| && s[k] < 128 && forall i :: 0 <= i < k ==> s[i] >= 128
    ensures DecodedUint(s) == Some((Value128(s[..k + 1]) % TWO_64, k + 1))
  {
    TerminatorIs(s, k);
  }

  lemma NothingScanned(input: seq<byte>)
    ensures Value128(input[..0]) % TWO_64 == 0
  {
  }

  /**
   The scanning loop. `checked_shl(7)` only refuses shift amounts of 64 or more, so it drops the
   high bits instead of failing, and the addition fills bits the shift has cleared.
   */
  method TryDecodeUint(input: seq<byte>) returns (r: Result<Option<(u64, nat)>, UintError>)
    ensures r == Ok(DecodedUint(input))
  {
    hide Value128, DecodedUint, FirstTerminator;
    var val: nat := 0;
    var idx := 0;
    NothingScanned(input);
    while idx < |input|
      invariant 0 <= idx <= |input|
      invariant forall k :: 0 <= k < idx ==> input[k] >= 128
      invariant val == Value128(input[..idx]) % TWO_64
    {
      var b := input[idx];
      ScanStep(input, idx);
      var shifted := val * 128 % TWO_64;
      if shifted + b % 128 >= TWO_64 {
        return Err(IntegerOverflow);
      }
      val := shifted + b % 128;
      if b < 128 {
        DecodedAt(input, idx);
        return Ok(Some((val, idx + 1)));
      }
      idx := idx + 1;
    }
    NoTerminator(input);
    return Ok(None);
  }

  // ----- encoding

  /** The leading bytes of an encoding, every one with its continuation bit set. */
  function Continued(v: nat): (s: seq<byte>)
    ensures |s| >= 1
    ensures forall i :: 0 <= i < |s| ==> s[i] >= 128
  {
    if v < 128 then [v + 128] else Continued(v / 128) + [v % 128 + 128]
  }

  function EncodedUint(v: nat): (s: seq<byte>)
    ensures |s| >= 1
    ensures forall i :: 0 <= i < |s| - 1 ==> s[i] >= 128
    ensures s[|s| - 1] < 128
  {
    if v < 128 then [v] else Continued(v / 128) + [v % 128]
  }

  lemma {:induction false} ContinuedValue(v: nat)
    ensures Value128(Continued(v)) == v
  {
    var s := Continued(v);
    if v >= 128 {
      ContinuedValue(v / 128);
      assert s[..|s| - 1] == Continued(v / 128);
    } else {
      assert s[..|s| - 1] == [];
    }
  }

  lemma EncodedValue(v: nat)
    ensures Value128(EncodedUint(v)) == v
  {
    var s := EncodedUint(v);
    if v >= 128 {
      ContinuedValue(v / 128);
      assert s[..|s| - 1] == Continued(v / 128);
    } else {
      assert s[..|s| - 1] == [];
    }
  }

  /** Decoding gives back every value, whatever follows it on the wire. */
  lemma UintRoundTrip(v: u64, rest: seq<byte>)
    ensures DecodedUint(EncodedUint(v) + rest) == Some((v, |EncodedUint(v)|))
  {
    var e := EncodedUint(v);
    TerminatorIs(e + rest, |e| - 1);
    assert (e + rest)[..|e|] == e;
    EncodedValue(v);
  }

  /** Values below 128 take one byte. */
  lemma SmallDecodes(v: byte, rest: seq<byte>)
    requires v < 128
    ensures DecodedUint([v] + rest) == Some((v, 1))
  {
    hide DecodedUint;
    assert EncodedUint(v) == [v];
    UintRoundTrip(v, rest);
  }

  /** No proper prefix of an encoding decodes. */
  lemma UintPrefixIncomplete(v: u64, n: nat)
    requires n < |EncodedUint(v)|
    ensures DecodedUint(EncodedUint(v)[..n]) == None
  {
    NoTerminator(EncodedUint(v)[..n]);
  }

  function Pow128(n: nat): (p: nat)
    ensures p > 0
  {
    if n == 0 then 1 else 128 * Pow128(n - 1)
  }

  lemma {:induction false} ContinuedLength(v: nat, n: nat)
    requires n >= 1 && v < Pow128(n)
    ensures |Continued(v)| <= n
    decreases n
  {
    if v >= 128 {
      assert Pow128(n) == 128 * Pow128(n - 1);
      ContinuedLength(v / 128, n - 1);
    }
  }

  lemma EncodedLength(v: nat, n: nat)
    requires n >= 1 && v < Pow128(n)
    ensures |EncodedUint(v)| <= n
  {
    if v >= 128 {
      assert Pow128(n) == 128 * Pow128(n - 1);
      ContinuedLength(v / 128, n - 1);
    }
  }

  lemma Pow128Values()
    ensures Pow128(1) == 0x80 && Pow128(3) == 0x20_0000
    ensures Pow128(10) == 0x40_0000_0000_0000_0000
  {
    assert Pow128(2) == 128 * Pow128(1);
    assert Pow128(3) == 128 * Pow128(2);
    assert Pow128(4) == 128 * Pow128(3);
    assert Pow128(5) == 128 * Pow128(4);
    assert Pow128(6) == 128 * Pow128(5);
    assert Pow128(7) == 128 * Pow128(6);
    assert Pow128(8) == 128 * Pow128(7);
    assert Pow128(9) == 128 * Pow128(8);
    assert Pow128(10) == 128 * Pow128(9);
  }

  /** A 64-bit value takes at most ten bytes. */
  lemma UintLength(v: u64)
    ensures |EncodedUint(v)| <= MAX_UINT_LEN
  {
    Pow128Values();
    EncodedLength(v, 10);
  }

  lemma DivStep(v: nat, p: nat)
    requires p > 0
    ensures v / 128 / p == v / (128 * p)
  {
    var q, r1, r0 := v / 128 / p, v / 128 % p, v % 128;
    Arithmetic.DivMod(v / 128, p);
    assert v == 128 * (q * p + r1) + r0;
    assert v == q * (128 * p) + (128 * r1 + r0);
    Arithmetic.DivMod(v, 128 * p);
    Arithmetic.DivisionIsUnique(q, 128 * r1 + r0, v / (128 * p), v % (128 * p), 128 * p);
  }

  lemma {:induction false} ContinuedGroups(v: nat, i: nat)
    requires i < |Continued(v)|
    ensures Continued(v)[i] == v / Pow128(|Continued(v)| - 1 - i) % 128 + 128
    decreases v
  {
    var n := |Continued(v)|;
    if i == n - 1 {
      assert Pow128(0) == 1;
    } else {
      ContinuedGroups(v / 128, i);
      assert Pow128(n - 1 - i) == 128 * Pow128(n - 2 - i);
      DivStep(v, Pow128(n - 2 - i));
    }
  }

  lemma {:induction false} ContinuedLeads(v: nat)
    requires v > 0
    ensures v >= Pow128(|Continued(v)| - 1)
  {
    if v >= 128 { ContinuedLeads(v / 128); }
  }

  /**
   The encoding spells the number in base 128, most significant group first and none to spare; every
   byte but the last has its high bit set.
   */
  lemma UintGroups(v: u64, i: nat)
    requires i < |EncodedUint(v)|
    ensures var s := EncodedUint(v);
      && s[i] == v / Pow128(|s| - 1 - i) % 128 + (if i < |s| - 1 then 128 else 0)
      && (|s| > 1 ==> v >= Pow128(|s| - 1))
  {
    var s := EncodedUint(v);
    assert Pow128(0) == 1;
    if v >= 128 {
      ContinuedLeads(v / 128);
      if i < |s| - 1 {
        ContinuedGroups(v / 128, i);
        assert Pow128(|s| - 1 - i) == 128 * Pow128(|s| - 2 - i);
        DivStep(v, Pow128(|s| - 2 - i));
      }
    }
  }

  /** `v >> (7 * n)`. */
  function Shr7(v: nat, n: nat): nat {
    if n == 0 then v else Shr7(v / 128, n - 1)
  }

  lemma {:induction false} Shr7Step(v: nat, n: nat)
    ensures Shr7(v, n + 1) == Shr7(v, n) / 128
  {
    if n > 0 {
      Shr7Step(v / 128, n - 1);
    }
  }

  /** The groups of `val` from group `n` up, each with its continuation bit. */
  function GroupsFrom(val: nat, n: nat): seq<byte> {
    if Shr7(val, n) == 0 then [] else Continued(Shr7(val, n))
  }

  lemma GroupMoved(val: nat, n: nat)
    requires Shr7(val, n) > 0
    ensures 0 <= Shr7(val, n) % 128 + 128 < 256
    ensures GroupsFrom(val, n) == GroupsFrom(val, n + 1) + [Shr7(val, n) % 128 + 128]
    ensures n > 0 ==> Shr7(val, n - 1) > 0
  {
    Shr7Step(val, n);
    if n > 0 {
      Shr7Step(val, n - 1);
    }
  }

  lemma LastGroup(val: nat)
    ensures Shr7(val, 1) == val / 128
    ensures EncodedUint(val) == GroupsFrom(val, 1) + [val % 128]
  {
    assert Shr7(val, 0) == val;
    Shr7Step(val, 0);
  }

  lemma NoGroups(val: nat, n: nat, start: seq<byte>)
    requires Shr7(val, n) == 0
    ensures start + GroupsFrom(val, n) == start
  {
  }

  /** The encoder: count the groups, emit all but the lowest with the continuation bit, then the last. */
  method EncodeUint(val: u64, out: OutBuf)
    modifies out
    ensures out.bytes == old(out.bytes) + EncodedUint(val)
  {
    hide EncodedUint, Continued, Shr7, GroupsFrom;
    LastGroup(val);
    var v := val / 128;
    var n := 1;
    while v > 0
      invariant n >= 1 && v == Shr7(val, n)
      invariant n > 1 ==> Shr7(val, n - 1) > 0
      invariant out.bytes == old(out.bytes)
      decreases v
    {
      Shr7Step(val, n);
      v := v / 128;
      n := n + 1;
    }
    NoGroups(val, n, out.bytes);
    while n > 1
      invariant n >= 1 && out.bytes == old(out.bytes) + GroupsFrom(val, n)
      invariant n > 1 ==> Shr7(val, n - 1) > 0
    {
      n := n - 1;
      GroupMoved(val, n);
      Regroup(old(out.bytes), GroupsFrom(val, n + 1), [Shr7(val, n) % 128 + 128]);
      out.Push(Shr7(val, n) % 128 + 128);
    }
    Regroup(old(out.bytes), GroupsFrom(val, 1), [val % 128]);
    out.Push(val % 128);
  }
}
