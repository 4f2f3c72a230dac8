/** Applying what the encoder writes gives back the text, however the bytes are cut. */
module RoundTrip {
  import opened Bytes
  import opened SvndiffFormat
  import opened StreamParser
  import opened Sections
  import opened Applier
  import opened SplitInvariance
  import opened Encoder
  import Base128
  import Instructions

  /** Decoding a section gives back its data: a compressed body is always shorter than the size prefix says. */
  lemma SectionRoundTrip(codecs: Codecs, version: Version, level: nat, data: seq<byte>, limit: nat)
    requires Faithful(codecs) && |data| <= limit < TWO_64
    ensures DecodedSection(codecs, version, EncodedSection(codecs, version, level, data), limit) == Ok(data)
  {
    hide Base128.DecodedUint, Base128.EncodedUint;
    if version != V0 {
      var prefix := Base128.EncodedUint(|data|);
      var wire := EncodedSection(codecs, version, level, data);
      var body := wire[|prefix|..];
      assert wire == prefix + body;
      Base128.UintRoundTrip(|data|, body);
    }
  }

  /**
   A section on the wire: the data as it is in the first version; a length and a body in the others. The
   body is the compressed data where that is shorter, and with zlib only from 512 bytes and level 1 on.
   */
  lemma SectionForms(codecs: Codecs, level: nat, data: seq<byte>)
    ensures EncodedSection(codecs, V0, level, data) == data
    ensures var z := codecs.deflate(level, data);
      EncodedSection(codecs, V1, level, data) == Base128.EncodedUint(|data|) + if |data| >= 512 && level >= 1 && |z| < |data| then z else data
    ensures var z := codecs.lz4Compress(data);
      EncodedSection(codecs, V2, level, data) == Base128.EncodedUint(|data|) + if |z| < |data| then z else data
  {
    hide Base128.EncodedUint;
  }

  /** The single insertion instruction copies all of the new data. */
  lemma InsertionRoundTrip(source: seq<byte>, data: seq<byte>)
    requires |data| < TWO_64
    ensures Instructions.WindowResult(source, |data|, InstructionsFor(data), data) == Ok(data)
  {
    if data != [] {
      var ins := InstructionsFor(data);
      InsertionLength(|data|);
      assert Instructions.ReadLength(ins) == Ok((|data|, []));
      assert ins[0] / 64 == 2;
      var s := Instructions.State([], 0);
      assert [] + data[0..|data|] == data;
      assert Instructions.Step(source, |data|, ins, data, s) == Ok((Instructions.State(data, |data|), []));
      assert Instructions.Exec(source, |data|, [], data, Instructions.State(data, |data|)) == Ok(data);
    }
  }

  lemma InsertionLength(len: nat)
    requires 0 < len < TWO_64
    ensures Instructions.ReadLength(EncodedNew(len)) == Ok((len, []))
  {
    hide Base128.DecodedUint, Base128.EncodedUint;
    if len >= 64 {
      var e := Base128.EncodedUint(len);
      Base128.UintRoundTrip(len, []);
      assert e + [] == e;
      assert EncodedNew(len)[1..] == e;
    }
  }

  lemma {:induction false} UintsRoundTrip(vs: seq<u64>, rest: seq<byte>)
    ensures Uints(EncodedUints(vs) + rest, |vs|) == Some((vs, |EncodedUints(vs)|))
  {
    hide Base128.DecodedUint, Base128.EncodedUint, EncodedUints;
    EncodedUnfolds(vs);
    if vs != [] {
      var before, last := vs[..|vs| - 1], vs[|vs| - 1];
      var front, e := EncodedUints(before), Base128.EncodedUint(last);
      Regroup(front, e, rest);
      UintsRoundTrip(before, e + rest);
      Base128.UintRoundTrip(last, rest);
      BehindFront(front, e + rest);
      assert vs == before + [last];
    }
  }

  lemma EncodedUnfolds(vs: seq<nat>)
    ensures vs == [] ==> EncodedUints(vs) == []
    ensures vs != [] ==> EncodedUints(vs) == EncodedUints(vs[..|vs| - 1]) + Base128.EncodedUint(vs[|vs| - 1])
  {
  }

  lemma BehindFront(front: seq<byte>, behind: seq<byte>)
    ensures (front + behind)[|front|..] == behind
  {
  }

  lemma {:induction false} UintsShort(vs: seq<u64>)
    ensures |EncodedUints(vs)| <= |vs| * MAX_UINT_LEN
  {
    if vs != [] {
      UintsShort(vs[..|vs| - 1]);
      Base128.UintLength(vs[|vs| - 1]);
    }
  }

  /** The header fields of an encoded window. */
  function Fields(codecs: Codecs, version: Version, level: nat, data: seq<byte>): seq<nat> {
    [0, 0, |data|, |EncodedSection(codecs, version, level, InstructionsFor(data))|, |EncodedSection(codecs, version, level, data)|]
  }

  /** The header of an encoded window reads back, or is refused because the window is too large. */
  lemma WindowHeaderRoundTrip(codecs: Codecs, version: Version, level: nat, data: seq<byte>, rest: seq<byte>)
    requires |data| < MAX_SLICE_LEN
    ensures var fields := Fields(codecs, version, level, data);
      var s := EncodedWindow(codecs, version, level, data) + rest;
      HeaderOf(s) == if |data| > DELTA_WINDOW_MAX then Err(TooLargeWindow)
                     else Ok(Some(WindowHeader(0, 0, |data|, fields[3], fields[4], |EncodedUints(fields)|)))
    ensures |EncodedUints(Fields(codecs, version, level, data))| <= MAX_PENDING_HEADER
  {
    hide EncodedSection, Uints, EncodedUints;
    var fields := Fields(codecs, version, level, data);
    InstructionsShort(data);
    SectionLength(codecs, version, level, data);
    SectionLength(codecs, version, level, InstructionsFor(data));
    var ins := EncodedSection(codecs, version, level, InstructionsFor(data));
    var data' := EncodedSection(codecs, version, level, data);
    assert EncodedWindow(codecs, version, level, data) + rest == EncodedUints(fields) + (ins + data' + rest);
    UintsRoundTrip(fields, ins + data' + rest);
    UintsShort(fields);
  }

  /** An encoded window of an acceptable size is taken whole and yields its data. */
  lemma WindowRoundTrip(codecs: Codecs, src: Source, v: StreamView, level: nat, data: seq<byte>, rest: seq<byte>)
    requires Faithful(codecs) && |data| <= DELTA_WINDOW_MAX
    requires VersionOf(v).Some? && v.unread == EncodedWindow(codecs, VersionOf(v).value, level, data) + rest
    ensures NextOutput(codecs, src, v) == (StreamView(v.received, rest, 0, 0), Ok(Some(data)))
    ensures v.unread != [] && LongestHeader(rest) <= MAX_PENDING_HEADER ==> LongestHeader(v.unread) <= MAX_PENDING_HEADER
  {
    hide EncodedSection, EncodedUints, HeaderOf, Faithful, DecodedSection, Instructions.WindowResult, InstructionsFor;
    var version := VersionOf(v).value;
    WindowHeaderRoundTrip(codecs, version, level, data, rest);
    var fields := Fields(codecs, version, level, data);
    var ins := EncodedSection(codecs, version, level, InstructionsFor(data));
    var data' := EncodedSection(codecs, version, level, data);
    var head := EncodedUints(fields);
    var h := WindowHeader(0, 0, |data|, |ins|, |data'|, |head|);
    assert v.unread == head + ins + data' + rest;
    assert v.unread[|head|..|head| + |ins|] == ins;
    assert v.unread[|head| + |ins|..Needed(h)] == data';
    assert v.unread[Needed(h)..] == rest;
    assert Next(v) == (StreamView(v.received, rest, 0, 0), Ok(Some(ParsedWindow(version, h, ins, data'))));
    InstructionsShort(data);
    SectionRoundTrip(codecs, version, level, InstructionsFor(data), MAX_INSTRUCTION_SECTION_LEN);
    SectionRoundTrip(codecs, version, level, data, DELTA_WINDOW_MAX);
    assert SourceView(src, h) == Ok([]);
    InsertionRoundTrip([], data);
  }

  predicate AllFit(pieces: seq<seq<byte>>) {
    forall k :: 0 <= k < |pieces| ==> |pieces[k]| <= DELTA_WINDOW_MAX
  }

  predicate Slices(pieces: seq<seq<byte>>) {
    forall k :: 0 <= k < |pieces| ==> |pieces[k]| < MAX_SLICE_LEN
  }

  lemma {:induction false} WindowsRoundTrip(codecs: Codecs, src: Source, v: StreamView, level: nat, pieces: seq<seq<byte>>)
    requires Faithful(codecs) && Slices(pieces)
    requires VersionOf(v).Some? && v.unread == EncodedWindows(codecs, VersionOf(v).value, level, pieces)
    ensures Reference(codecs, src, v) == if AllFit(pieces) then Some(Flatten(pieces)) else None
    ensures AllFit(pieces) ==> LongestHeader(v.unread) <= MAX_PENDING_HEADER
    decreases |pieces|
  {
    hide EncodedWindow, NextOutput, LongestHeader, Faithful;
    var version := VersionOf(v).value;
    if pieces == [] {
      LongestOfNothing();
    } else {
      var rest := EncodedWindows(codecs, version, level, pieces[1..]);
      assert AllFit(pieces) <==> |pieces[0]| <= DELTA_WINDOW_MAX && AllFit(pieces[1..]);
      if |pieces[0]| <= DELTA_WINDOW_MAX {
        WindowRoundTrip(codecs, src, v, level, pieces[0], rest);
        FirstWindow(codecs, src, v);
        WindowsRoundTrip(codecs, src, StreamView(v.received, rest, 0, 0), level, pieces[1..]);
      } else {
        WindowHeaderRoundTrip(codecs, version, level, pieces[0], rest);
        HeaderRefused(codecs, src, v);
      }
    }
  }

  lemma HeaderRefused(codecs: Codecs, src: Source, v: StreamView)
    requires HeaderOf(v.unread).Err? && VersionOf(v).Some?
    ensures Reference(codecs, src, v) == None
  {
    hide WindowOutput;
  }

  lemma StreamParts(codecs: Codecs, version: Version, level: nat, pieces: seq<seq<byte>>)
    ensures var stream := EncodedStream(codecs, version, level, pieces);
      && |stream| >= SVNDIFF_HEADER_LEN && stream[..SVNDIFF_HEADER_LEN] == HeaderOfVersion(version)
      && VersionOfHeader(HeaderOfVersion(version)) == Some(version)
      && BodyOf(stream) == EncodedWindows(codecs, version, level, pieces)
  {
    hide EncodedWindows;
  }

  /**
   Feeding an encoded list of pieces, cut in any way, to an applier over any base succeeds exactly
   when no piece is larger than a window may be, and then writes the pieces.
   */
  lemma StreamRoundTrip(codecs: Codecs, src: Source, version: Version, level: nat, pieces: seq<seq<byte>>, chunks: seq<seq<byte>>)
    requires Faithful(codecs) && Slices(pieces)
    requires Flatten(chunks) == EncodedStream(codecs, version, level, pieces)
    ensures var r := Run(codecs, src, START, chunks);
      && (r.err == None <==> AllFit(pieces))
      && (AllFit(pieces) ==> r.output == Flatten(pieces))
  {
    hide NextOutput, Reference, Drain, LongestHeader, Run, EncodedWindows, Faithful, Pushed, BodyOf, EncodedStream;
    var stream := Flatten(chunks);
    var body := EncodedWindows(codecs, version, level, pieces);
    StartPushed(stream);
    StreamParts(codecs, version, level, pieces);
    WindowsRoundTrip(codecs, src, StreamView(HeaderOfVersion(version), body, 0, 0), level, pieces);
    NoWindowBeforeHeader(codecs, src, START);
    RunAgainst(codecs, src, START, chunks);
  }

  /**
   The full-text round trip: for every version, level, base and cut, exactly when the window size
   is within the decoder's limit or the whole text fits one window.
   */
  lemma FulltextRoundTrip(codecs: Codecs, src: Source, version: Version, level: nat, contents: seq<byte>,
                          windowSize: nat, chunks: seq<seq<byte>>)
    requires Faithful(codecs) && |contents| < MAX_SLICE_LEN
    requires Flatten(chunks) == EncodedStream(codecs, version, level, Pieces(contents, windowSize))
    ensures var r := Run(codecs, src, START, chunks);
      && (r.err == None <==> windowSize <= DELTA_WINDOW_MAX || |contents| <= DELTA_WINDOW_MAX)
      && (r.err == None ==> r.output == contents)
  {
    hide Run, EncodedStream, Faithful;
    var pieces := Pieces(contents, windowSize);
    PiecesFit(contents, windowSize);
    StreamRoundTrip(codecs, src, version, level, pieces, chunks);
  }

  lemma PiecesFit(contents: seq<byte>, windowSize: nat)
    requires |contents| < MAX_SLICE_LEN
    ensures var pieces := Pieces(contents, windowSize);
      && Slices(pieces) && Flatten(pieces) == contents
      && (AllFit(pieces) <==> windowSize <= DELTA_WINDOW_MAX || |contents| <= DELTA_WINDOW_MAX)
  {
    var pieces := Pieces(contents, windowSize);
    if contents == [] {
      FlattenOne([]);
    } else {
      var size := if windowSize < 1 then 1 else windowSize;
      PiecesWithin(contents, size);
      assert |pieces[0]| == if |contents| < size then |contents| else size;
    }
  }

  lemma {:induction false} PiecesWithin(s: seq<byte>, size: nat)
    requires size > 0
    ensures forall k :: 0 <= k < |Chunks(s, size)| ==> |Chunks(s, size)[k]| <= |s|
    decreases |s|
  {
    if s != [] {
      var n := if |s| < size then |s| else size;
      PiecesWithin(s[n..], size);
    }
  }
}
