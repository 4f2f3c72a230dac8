/** Which bytes are which operations and sections of a delta, set out without reference to how they are read. */
module DeltaForms {
  import opened Bytes
  import opened SvndiffFormat
  import opened Sections
  import opened Instructions
  import Base128

  /** The bytes of one base-128 number, with any number of leading zero groups; the value is cut to 64 bits. */
  predicate NumberForm(s: seq<byte>, v: nat) {
    && s != [] && (forall i :: 0 <= i < |s| - 1 ==> s[i] >= 128) && s[|s| - 1] < 128
    && Base128.Value128(s) % 0x1_0000_0000_0000_0000 == v
  }

  function Action(op: Op): int {
    match op case CopySource(_, _) => 0 case CopyTarget(_, _) => 1 case CopyNew(_) => 2
  }

  /**
   A selector, a length and an offset: the action in the two high bits, the length in the other six or,
   when they are zero, in a number behind; never a length of zero; an offset for the two copies.
   */
  predicate OpForm(op: Op, b: byte, len: seq<byte>, off: seq<byte>) {
    && b / 64 == Action(op) && op.len > 0
    && (if b % 64 != 0 then len == [] && op.len == b % 64 else NumberForm(len, op.len))
    && (if op.CopyNew? then off == [] else NumberForm(off, op.offset))
  }

  ghost predicate ProgramForm(ops: seq<Op>, s: seq<byte>) {
    if ops == [] then s == []
    else exists i, j :: 1 <= i <= j <= |s| && OpForm(ops[0], s[0], s[1..i], s[i..j]) && ProgramForm(ops[1..], s[j..])
  }

  lemma NumberRead(s: seq<byte>)
    requires Base128.DecodedUint(s).Some?
    ensures var (v, used) := Base128.DecodedUint(s).value; used <= |s| && NumberForm(s[..used], v)
  {
    hide Base128.Value128;
  }

  lemma NumberReads(u: seq<byte>, v: nat, rest: seq<byte>)
    requires NumberForm(u, v)
    ensures v < TWO_64 && Base128.DecodedUint(u + rest) == Some((v, |u|))
  {
    hide Base128.Value128;
    var s := u + rest;
    Base128.DecodedAt(s, |u| - 1);
    assert s[..|u|] == u;
  }

  /** An operation that is read has this form. */
  lemma OpRead(s: seq<byte>) returns (i: nat, j: nat)
    requires s != [] && FirstOp(s).Some?
    ensures 1 <= i <= j <= |s| && OpForm(FirstOp(s).value.0, s[0], s[1..i], s[i..j]) && FirstOp(s).value.1 == s[j..]
  {
    hide Base128.DecodedUint, NumberForm;
    i := 1;
    if s[0] % 64 == 0 {
      NumberRead(s[1..]);
      i := 1 + Base128.DecodedUint(s[1..]).value.1;
      assert s[1..i] == s[1..][..i - 1];
    } else {
      assert s[1..i] == [];
    }
    j := i;
    if s[0] / 64 != 2 {
      NumberRead(s[i..]);
      var used := Base128.DecodedUint(s[i..]).value.1;
      j := i + used;
      assert s[i..j] == s[i..][..used] && s[i..][used..] == s[j..];
    } else {
      assert s[i..j] == [];
    }
  }

  /** What has this form is read as the operation. */
  lemma OpReads(op: Op, s: seq<byte>, i: nat, j: nat)
    requires 1 <= i <= j <= |s| && OpForm(op, s[0], s[1..i], s[i..j])
    ensures FirstOp(s) == Some((op, s[j..]))
  {
    hide Base128.DecodedUint, NumberForm;
    assert s[1..] == s[1..i] + s[i..] && s[i..] == s[i..j] + s[j..];
    if s[0] % 64 == 0 {
      NumberReads(s[1..i], op.len, s[i..]);
      assert s[1 + (i - 1)..] == s[i..];
    } else {
      assert i == 1;
    }
    LengthReads(op, s, i);
    if op.CopyNew? {
      assert j == i;
    } else {
      NumberReads(s[i..j], op.offset, s[j..]);
      assert s[i..][j - i..] == s[j..];
    }
  }

  lemma LengthReads(op: Op, s: seq<byte>, i: nat)
    requires 1 <= i <= |s| && s[0] / 64 == Action(op) && op.len > 0
    requires if s[0] % 64 != 0 then i == 1 && op.len == s[0] % 64 else Base128.DecodedUint(s[1..]) == Some((op.len, i - 1))
    ensures ReadLength(s) == Ok((op.len, s[i..]))
  {
    hide Base128.DecodedUint;
  }

  lemma {:induction false} DisassembledForm(s: seq<byte>)
    requires Disassemble(s).Some?
    ensures ProgramForm(Disassemble(s).value, s)
    decreases |s|
  {
    hide FirstOp, OpForm;
    if s != [] {
      var i, j := OpRead(s);
      var (op, rest) := FirstOp(s).value;
      DisassembledForm(rest);
      var ops := Disassemble(s).value;
      assert ops == [op] + Disassemble(rest).value && ops[1..] == Disassemble(rest).value;
    }
  }

  lemma {:induction false} FormDisassembles(ops: seq<Op>, s: seq<byte>)
    requires ProgramForm(ops, s)
    ensures Disassemble(s) == Some(ops)
    decreases |ops|
  {
    hide FirstOp, OpForm;
    if ops != [] {
      var i, j :| 1 <= i <= j <= |s| && OpForm(ops[0], s[0], s[1..i], s[i..j]) && ProgramForm(ops[1..], s[j..]);
      OpReads(ops[0], s, i, j);
      FormDisassembles(ops[1..], s[j..]);
      assert [ops[0]] + ops[1..] == ops;
    }
  }

  /** The interpreter takes a byte string for a list of operations exactly when it has the form of one. */
  lemma ReadsWhatIsFormed(ops: seq<Op>, s: seq<byte>)
    ensures Disassemble(s) == Some(ops) <==> ProgramForm(ops, s)
  {
    hide Disassemble, ProgramForm;
    if Disassemble(s) == Some(ops) { DisassembledForm(s); }
    if ProgramForm(ops, s) { FormDisassembles(ops, s); }
  }

  // ----- sections

  /**
   A section is its bytes in the first version, and a length and a body in the others: raw when the body
   is as long as that, and otherwise compressed, all of it used up, and as long as it says when unpacked.
   */
  lemma SectionReads(codecs: Codecs, number: seq<byte>, n: nat, body: seq<byte>, limit: nat)
    requires NumberForm(number, n)
    ensures DecodedSection(codecs, V0, number + body, limit) == Ok(number + body)
    ensures n > limit ==> forall v :: v != V0 ==> DecodedSection(codecs, v, number + body, limit) == Err(SectionTooLarge)
    ensures n <= limit && |body| == n ==> forall v :: v != V0 ==> DecodedSection(codecs, v, number + body, limit) == Ok(body)
    ensures n <= limit && |body| != n ==>
      var unpacked := codecs.inflate(body);
      forall data :: DecodedSection(codecs, V1, number + body, limit) == Ok(data) <==> unpacked == Some((data, |body|)) && |data| == n
    ensures n <= limit && |body| != n ==>
      var unpacked := codecs.lz4Decompress(body, n);
      forall data :: DecodedSection(codecs, V2, number + body, limit) == Ok(data) <==> unpacked == Some(data) && |data| == n
  {
    hide Base128.DecodedUint, NumberForm;
    NumberReads(number, n, body);
    assert (number + body)[|number|..] == body;
  }

  /** In the later versions a section without a length is refused. */
  lemma SectionWithoutLength(codecs: Codecs, wire: seq<byte>, limit: nat)
    requires forall i :: 0 <= i < |wire| ==> wire[i] >= 128
    ensures forall v :: v != V0 ==> DecodedSection(codecs, v, wire, limit) == Err(SectionMissingSize)
  {
    hide Base128.DecodedUint;
    Base128.NoTerminator(wire);
  }
}
