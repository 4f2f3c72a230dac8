/** A delta the file-backed applier takes and the in-memory one refuses: an empty source view beyond the base. */
module EmptyView {
  import opened Bytes
  import opened SvndiffFormat
  import opened StreamParser
  import opened Sections
  import opened Applier
  import opened SplitInvariance
  import opened FileRefinement
  import Base128
  import Instructions
  import RoundTrip

  /** One window of nothing, with an empty view that starts at byte 1 of the base. */
  const BODY: seq<byte> := [1, 0, 0, 0, 0]

  lemma BodyHeader()
    ensures HeaderOf(BODY) == Ok(Some(WindowHeader(1, 0, 0, 0, 0, 5)))
  {
    hide Base128.DecodedUint, Uints;
    forall at | 0 <= at < 5 ensures UintAt(BODY, at) == Some((BODY[at], at + 1)) {
      assert BODY[at..] == [BODY[at]] + BODY[at + 1..];
      Base128.SmallDecodes(BODY[at], BODY[at + 1..]);
    }
    FieldsAre();
  }

  lemma FieldsAre()
    requires forall at :: 0 <= at < 5 ==> UintAt(BODY, at) == Some((BODY[at], at + 1))
    ensures Uints(BODY, 5) == Some((BODY, 5))
  {
    hide UintAt;
    assert Uints(BODY, 0) == Some(([], 0));
    assert [] + [1] == [1] && [1] + [0] == [1, 0] && [1, 0] + [0] == [1, 0, 0];
    assert [1, 0, 0] + [0] == [1, 0, 0, 0] && [1, 0, 0, 0] + [0] == [1, 0, 0, 0, 0];
    assert Uints(BODY, 1) == Some(([1], 1));
    assert Uints(BODY, 2) == Some(([1, 0], 2));
    assert Uints(BODY, 3) == Some(([1, 0, 0], 3));
    assert Uints(BODY, 4) == Some(([1, 0, 0, 0], 4));
  }

  lemma WindowTaken()
    ensures forall codecs :: NextOutput(codecs, FileBacked(None), StreamView(HeaderOfVersion(V0), BODY, 0, 0))
                          == (StreamView(HeaderOfVersion(V0), [], 1, 0), Ok(Some([])))
  {
    hide HeaderOf, Instructions.WindowResult;
    BodyHeader();
    var v := StreamView(HeaderOfVersion(V0), BODY, 0, 0);
    var h := WindowHeader(1, 0, 0, 0, 0, 5);
    assert v.unread[5..5] == [] && v.unread[5..] == [];
    assert Next(v) == (StreamView(HeaderOfVersion(V0), [], 1, 0), Ok(Some(ParsedWindow(V0, h, [], []))));
    RoundTrip.InsertionRoundTrip([], []);
  }

  /** With no base file this stream succeeds against the file and is refused against memory. */
  lemma OnlyTheFileAccepts(codecs: Codecs)
    ensures var stream := HeaderOfVersion(V0) + BODY;
      && Run(codecs, FileBacked(None), START, [stream]).err == None
      && Run(codecs, Memory(None), START, [stream]).err.Some?
  {
    hide NextOutput, HeaderOf, Run, Flatten;
    var stream := HeaderOfVersion(V0) + BODY;
    var v := StreamView(HeaderOfVersion(V0), BODY, 0, 0);
    BodyHeader();
    WindowTaken();
    StartPushed(stream);
    assert stream[..SVNDIFF_HEADER_LEN] == HeaderOfVersion(V0) && BodyOf(stream) == BODY;
    assert START.received + stream == stream;
    assert Reference(codecs, FileBacked(None), v) == Some([] + []);
    OneChunk(codecs, FileBacked(None), stream);
    FlattenOne(stream);
    FileRefinesMemory(codecs, None, [stream]);
  }
}
