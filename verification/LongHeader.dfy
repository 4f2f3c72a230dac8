/** A stream that is accepted whole and refused when cut: one window whose header is padded to 53 bytes. */
module LongHeader {
  import opened Bytes
  import opened SvndiffFormat
  import opened StreamParser
  import opened Sections
  import opened Applier
  import opened SplitInvariance
  import Base128
  import Instructions
  import RoundTrip

  /** A zero written with `n` superfluous leading bytes. */
  function PaddedZero(n: nat): (s: seq<byte>)
    ensures |s| == n + 1
    ensures forall i :: 0 <= i < n ==> s[i] == 128
    ensures s[n] == 0
  {
    if n == 0 then [0] else [128] + PaddedZero(n - 1)
  }

  lemma {:induction false} PaddingIsZero(s: seq<byte>)
    requires forall i :: 0 <= i < |s| ==> s[i] == 128
    ensures Base128.Value128(s) == 0
  {
    if s != [] {
      PaddingIsZero(s[..|s| - 1]);
    }
  }

  lemma PaddedZeroDecodes(n: nat, rest: seq<byte>)
    ensures Base128.DecodedUint(PaddedZero(n) + rest) == Some((0, n + 1))
  {
    hide PaddedZero, Base128.Value128;
    var z := PaddedZero(n);
    var s := z + rest;
    assert forall i :: 0 <= i <= n ==> s[i] == z[i];
    Base128.TerminatorIs(s, n);
    assert s[..n + 1] == z;
    PaddedValue(n);
  }

  lemma PaddedValue(n: nat)
    ensures Base128.Value128(PaddedZero(n)) == 0
  {
    hide PaddedZero;
    var z := PaddedZero(n);
    assert z[..|z| - 1] == z[..n];
    PaddingIsZero(z[..n]);
  }

  /** Four empty fields behind the padded source offset; no sections. */
  function LongBody(): seq<byte> {
    PaddedZero(48) + [0, 0, 0, 0]
  }

  lemma LongBodyHeader()
    ensures HeaderOf(LongBody()) == Ok(Some(WindowHeader(0, 0, 0, 0, 0, 53))) && |LongBody()| == 53
  {
    hide Base128.DecodedUint, PaddedZero, Uints;
    var s := LongBody();
    PaddedZeroDecodes(48, [0, 0, 0, 0]);
    assert s[0..] == s && UintAt(s, 0) == Some((0, 49));
    forall at | 49 <= at < 53 ensures UintAt(s, at) == Some((0, at + 1)) {
      assert s[at..] == [0] + s[at + 1..] by { ZeroAt(at); }
      Base128.SmallDecodes(0, s[at + 1..]);
    }
    FieldsAre(s);
  }

  lemma ZeroAt(at: nat)
    requires 49 <= at < 53
    ensures LongBody()[at..] == [0] + LongBody()[at + 1..]
  {
  }

  lemma FieldsAre(s: seq<byte>)
    requires |s| == 53 && UintAt(s, 0) == Some((0, 49))
    requires forall at :: 49 <= at < 53 ==> UintAt(s, at) == Some((0, at + 1))
    ensures Uints(s, 5) == Some(([0, 0, 0, 0, 0], 53))
  {
    hide UintAt;
    assert Uints(s, 0) == Some(([], 0));
    assert [] + [0] == [0] && [0] + [0] == [0, 0] && [0, 0] + [0] == [0, 0, 0];
    assert [0, 0, 0] + [0] == [0, 0, 0, 0] && [0, 0, 0, 0] + [0] == [0, 0, 0, 0, 0];
    assert Uints(s, 1) == Some(([0], 49));
    assert Uints(s, 2) == Some(([0, 0], 50));
    assert Uints(s, 3) == Some(([0, 0, 0], 51));
    assert Uints(s, 4) == Some(([0, 0, 0, 0], 52));
  }

  lemma LongWindowTaken(codecs: Codecs, src: Source)
    ensures var v := StreamView(HeaderOfVersion(V0), LongBody(), 0, 0);
      NextOutput(codecs, src, v) == (StreamView(HeaderOfVersion(V0), [], 0, 0), Ok(Some([])))
  {
    hide HeaderOf, LongBody, Instructions.WindowResult;
    LongBodyHeader();
    var v := StreamView(HeaderOfVersion(V0), LongBody(), 0, 0);
    var h := WindowHeader(0, 0, 0, 0, 0, 53);
    assert v.unread[53..53] == [] && v.unread[53..] == [];
    assert Next(v) == (StreamView(HeaderOfVersion(V0), [], 0, 0), Ok(Some(ParsedWindow(V0, h, [], []))));
    assert SourceView(src, h) == Ok([]);
    RoundTrip.InsertionRoundTrip([], []);
  }

  /** Whatever the base, this stream is accepted in one piece, and refused in some other cut. */
  lemma CutsMatter(codecs: Codecs, src: Source) returns (chunks: seq<seq<byte>>)
    ensures var stream := HeaderOfVersion(V0) + LongBody();
      && Run(codecs, src, START, [stream]).err == None
      && LongestHeader(BodyOf(stream)) == 53
      && Flatten(chunks) == stream && Run(codecs, src, START, chunks).err.Some?
  {
    hide LongBody, NextOutput, HeaderOf, Run, Flatten;
    var stream := HeaderOfVersion(V0) + LongBody();
    var v := StreamView(HeaderOfVersion(V0), LongBody(), 0, 0);
    LongBodyHeader();
    LongWindowTaken(codecs, src);
    StartPushed(stream);
    assert stream[..SVNDIFF_HEADER_LEN] == HeaderOfVersion(V0) && BodyOf(stream) == LongBody();
    assert START.received + stream == stream;
    assert Reference(codecs, src, v) == Some([] + []);
    OneChunk(codecs, src, stream);
    LongestOfNothing();
    assert LongBody()[53..] == [];
    chunks := SomeCutFails(codecs, src, stream);
  }
}
