/** Decimal numerals. */
module Decimal {
  import opened Bytes

  const ZERO: byte := 48

  predicate IsDigit(b: byte) { 48 <= b <= 57 }

  function Numeral(n: nat): (s: seq<byte>)
    ensures s != []
    ensures forall i :: 0 <= i < |s| ==> IsDigit(s[i])
  {
    if n < 10 then [ZERO + n] else Numeral(n / 10) + [ZERO + n % 10]
  }

  /** The number a digit string spells when `acc` has been read before it. */
  function ReadOn(acc: nat, s: seq<byte>): nat
    requires forall i :: 0 <= i < |s| ==> IsDigit(s[i])
    decreases |s|
  {
    if s == [] then acc else assert IsDigit(s[0]); ReadOn(acc * 10 + (s[0] - ZERO), s[1..])
  }

  lemma {:induction false} ReadOnSnoc(acc: nat, s: seq<byte>, d: byte)
    requires forall i :: 0 <= i < |s| ==> IsDigit(s[i])
    requires IsDigit(d)
    ensures ReadOn(acc, s + [d]) == ReadOn(acc, s) * 10 + (d - ZERO)
    decreases |s|
  {
    if s == [] {
      assert [d][1..] == [];
      assert ReadOn(acc, [d]) == ReadOn(acc * 10 + (d - ZERO), []);
      assert s + [d] == [d];
    } else {
      assert IsDigit(s[0]);
      assert (s + [d])[1..] == s[1..] + [d];
      ReadOnSnoc(acc * 10 + (s[0] - ZERO), s[1..], d);
    }
  }

  lemma {:induction false} ReadNumeral(n: nat)
    ensures ReadOn(0, Numeral(n)) == n
  {
    if n >= 10 {
      ReadNumeral(n / 10);
      ReadOnSnoc(0, Numeral(n / 10), ZERO + n % 10);
    } else {
      ReadOnSnoc(0, [], ZERO + n);
      assert [] + [ZERO + n] == [ZERO + n];
    }
  }

  /** A numeral has no leading zero. */
  lemma {:induction false} NumeralLeads(n: nat)
    ensures n > 0 ==> Numeral(n)[0] != '0' as int
    ensures n == 0 ==> Numeral(n) == ['0' as int]
  {
    if n >= 10 { NumeralLeads(n / 10); }
  }

  /** Different numbers have different numerals. */
  lemma NumeralInjective(a: nat, b: nat)
    requires Numeral(a) == Numeral(b)
    ensures a == b
  {
    ReadNumeral(a);
    ReadNumeral(b);
  }

  function Pow10(n: nat): (p: nat)
    ensures p > 0
  {
    if n == 0 then 1 else 10 * Pow10(n - 1)
  }

  lemma Pow10Of20()
    ensures Pow10(20) == 100_000_000_000_000_000_000
  {
    assert Pow10(5) == 10 * Pow10(4) == 100 * Pow10(3) == 1000 * Pow10(2) == 10000 * Pow10(1) == 100000 * Pow10(0);
    assert Pow10(10) == 10 * Pow10(9) == 100 * Pow10(8) == 1000 * Pow10(7) == 10000 * Pow10(6) == 100000 * Pow10(5);
    assert Pow10(15) == 10 * Pow10(14) == 100 * Pow10(13) == 1000 * Pow10(12) == 10000 * Pow10(11) == 100000 * Pow10(10);
    assert Pow10(20) == 10 * Pow10(19) == 100 * Pow10(18) == 1000 * Pow10(17) == 10000 * Pow10(16) == 100000 * Pow10(15);
  }

  /** The digits of `val` are those of `n`, if any are left, followed by `done`; there is room for them. */
  ghost predicate LeftOver(val: nat, n: nat, done: seq<byte>, room: nat) {
    Numeral(val) == (if n == 0 then [] else Numeral(n)) + done && n < Pow10(room)
  }

  lemma DigitMoved(val: nat, n: nat, done: seq<byte>, room: nat)
    requires n > 0 && LeftOver(val, n, done, room)
    ensures room > 0 && n / 10 < n && 0 <= n % 10 < 10
    ensures LeftOver(val, n / 10, [ZERO + n % 10] + done, room - 1)
  {
    var front := if n < 10 then [] else Numeral(n / 10);
    assert Numeral(n) == front + [ZERO + n % 10];
    Regroup(front, [ZERO + n % 10], done);
  }

  lemma NothingDone(val: u64, buf: seq<byte>)
    requires val > 0 && buf == []
    ensures LeftOver(val, val, buf, 20)
  {
    Pow10Of20();
    assert Numeral(val) + [] == Numeral(val);
  }

  lemma NothingLeft(val: nat, done: seq<byte>, room: nat)
    requires LeftOver(val, 0, done, room)
    ensures Numeral(val) == done
  {
    assert [] + done == done;
  }

  lemma NumeralOfZero()
    ensures Numeral(0) == [ZERO]
  {
  }

  method PutBefore(buf: array<byte>, i: nat, b: byte)
    requires i < buf.Length
    modifies buf
    ensures buf[i..] == [b] + old(buf[i + 1..])
  {
    buf[i] := b;
  }

  /** Fills a 20-byte buffer from the back; 20 digits are enough for any 64-bit value. */
  method EncodeDecimal(val: u64, out: OutBuf)
    modifies out
    ensures out.bytes == old(out.bytes) + Numeral(val)
  {
    hide Numeral, Pow10, LeftOver;
    if val == 0 {
      NumeralOfZero();
      out.Push(ZERO);
      return;
    }
    var n: nat := val;
    var buf := new byte[20](_ => 0);
    var i: nat := 20;
    NothingDone(val, buf[i..]);
    while n > 0
      invariant 0 <= i <= 20 && LeftOver(val, n, buf[i..], i)
      invariant out.bytes == old(out.bytes)
      decreases n
    {
      DigitMoved(val, n, buf[i..], i);
      var digit := n % 10;
      n := n / 10;
      i := i - 1;
      PutBefore(buf, i, ZERO + digit);
    }
    NothingLeft(val, buf[i..], i);
    out.Extend(buf[i..]);
  }
}
