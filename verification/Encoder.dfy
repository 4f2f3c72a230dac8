/** The encoder: full texts as windows that only insert new data. */
module Encoder {
  import opened Bytes
  import opened SvndiffFormat
  import opened Sections
  import Base128

  const ZLIB_MIN_COMPRESS_SIZE := 512

  /** A Rust slice is shorter than this. */
  const MAX_SLICE_LEN := 0x8000_0000_0000_0000

  // ----- what the encoder writes

  /** The compressed form when it is strictly shorter, the data itself otherwise. */
  function Shorter(data: seq<byte>, compressed: seq<byte>): seq<byte> {
    if |compressed| >= |data| then data else compressed
  }

  function EncodedSection(codecs: Codecs, version: Version, level: nat, data: seq<byte>): seq<byte> {
    match version
    case V0 => data
    case V1 =>
      Base128.EncodedUint(|data|)
      + if |data| < ZLIB_MIN_COMPRESS_SIZE || level == 0 then data else Shorter(data, codecs.deflate(level, data))
    case V2 => Base128.EncodedUint(|data|) + Shorter(data, codecs.lz4Compress(data))
  }

  /** The single instruction of a window: take `len` bytes of new data. */
  function EncodedNew(len: nat): seq<byte> {
    if len < 64 then [0x80 + len] else [0x80] + Base128.EncodedUint(len)
  }

  function InstructionsFor(data: seq<byte>): seq<byte> {
    if data == [] then [] else EncodedNew(|data|)
  }

  /** Integers one after the other. */
  function EncodedUints(vs: seq<nat>): seq<byte> {
    if vs == [] then [] else EncodedUints(vs[..|vs| - 1]) + Base128.EncodedUint(vs[|vs| - 1])
  }

  function EncodedWindow(codecs: Codecs, version: Version, level: nat, data: seq<byte>): seq<byte> {
    var ins := EncodedSection(codecs, version, level, InstructionsFor(data));
    var data' := EncodedSection(codecs, version, level, data);
    EncodedUints([0, 0, |data|, |ins|, |data'|]) + ins + data'
  }

  function EncodedWindows(codecs: Codecs, version: Version, level: nat, pieces: seq<seq<byte>>): seq<byte> {
    if pieces == [] then []
    else EncodedWindow(codecs, version, level, pieces[0]) + EncodedWindows(codecs, version, level, pieces[1..])
  }

  function EncodedStream(codecs: Codecs, version: Version, level: nat, pieces: seq<seq<byte>>): seq<byte> {
    HeaderOfVersion(version) + EncodedWindows(codecs, version, level, pieces)
  }

  /** `slice::chunks`. */
  function Chunks(s: seq<byte>, size: nat): (r: seq<seq<byte>>)
    requires size > 0
    ensures Flatten(r) == s
    ensures forall k :: 0 <= k < |r| ==> 0 < |r[k]| <= size
    ensures r == [] <==> s == []
    decreases |s|
  {
    if s == [] then []
    else
      var n := if |s| < size then |s| else size;
      assert s == s[..n] + s[n..];
      [s[..n]] + Chunks(s[n..], size)
  }

  /** The windows of a full text; an empty file still gets one. */
  function Pieces(contents: seq<byte>, windowSize: nat): seq<seq<byte>> {
    if contents == [] then [[]] else Chunks(contents, if windowSize < 1 then 1 else windowSize)
  }

  // ----- the encoder

  method EncodeNewInstruction(len: nat, out: OutBuf)
    requires len < TWO_64
    modifies out
    ensures out.bytes == old(out.bytes) + EncodedNew(len)
  {
    hide *;
    NewIs(len, out.bytes);
    if len / 64 == 0 {
      out.Push(2 * 64 + len);
    } else {
      out.Push(2 * 64);
      Base128.EncodeUint(len, out);
    }
  }

  lemma NewIs(len: nat, start: seq<byte>)
    ensures len / 64 == 0 <==> len < 64
    ensures start + EncodedNew(len) == if len < 64 then start + [2 * 64 + len] else start + [2 * 64] + Base128.EncodedUint(len)
  {
    hide Base128.EncodedUint;
    if len >= 64 {
      Regroup(start, [2 * 64], Base128.EncodedUint(len));
    }
  }

  method CompressZlib(codecs: Codecs, data: seq<byte>, level: nat) returns (r: seq<byte>)
    requires |data| < MAX_SLICE_LEN
    ensures r == EncodedSection(codecs, V1, level, data)
  {
    hide Base128.EncodedUint;
    var out := new OutBuf();
    Base128.EncodeUint(|data|, out);
    if |data| < ZLIB_MIN_COMPRESS_SIZE || level == 0 {
      out.Extend(data);
      return out.bytes;
    }
    var compressed := codecs.deflate(level, data);
    if |compressed| >= |data| {
      out.Extend(data);
    } else {
      out.Extend(compressed);
    }
    return out.bytes;
  }

  method CompressLz4(codecs: Codecs, data: seq<byte>) returns (r: seq<byte>)
    requires |data| < MAX_SLICE_LEN
    ensures forall level :: r == EncodedSection(codecs, V2, level, data)
  {
    hide Base128.EncodedUint;
    var out := new OutBuf();
    Base128.EncodeUint(|data|, out);
    var compressed := codecs.lz4Compress(data);
    if |compressed| >= |data| {
      out.Extend(data);
    } else {
      out.Extend(compressed);
    }
    return out.bytes;
  }

  method EncodeInsertionWindow(codecs: Codecs, version: Version, newData: seq<byte>, level: nat, out: OutBuf)
    requires |newData| < MAX_SLICE_LEN
    modifies out
    ensures out.bytes == old(out.bytes) + EncodedWindow(codecs, version, level, newData)
  {
    hide EncodedNew, EncodedSection, Base128.EncodedUint, EncodedUints;
    var ins := new OutBuf();
    if newData != [] {
      EncodeNewInstruction(|newData|, ins);
    }
    var insWire, newWire := EncodeSections(codecs, version, ins.bytes, newData, level);
    EncodeWindowHeader(|newData|, |insWire|, |newWire|, out);
    out.Extend(insWire);
    out.Extend(newWire);
  }

  method EncodeWindowHeader(tviewLen: u64, insLen: u64, newLen: u64, out: OutBuf)
    modifies out
    ensures out.bytes == old(out.bytes) + EncodedUints([0, 0, tviewLen, insLen, newLen])
  {
    hide EncodedUints;
    EncodedNone();
    ghost var start := out.bytes;
    assert start + [] == start;
    assert [] + [0] == [0] && [0] + [0] == [0, 0] && [0, 0] + [tviewLen] == [0, 0, tviewLen];
    assert [0, 0, tviewLen] + [insLen] == [0, 0, tviewLen, insLen];
    assert [0, 0, tviewLen, insLen] + [newLen] == [0, 0, tviewLen, insLen, newLen];
    EncodeField(0, start, [], out);
    EncodeField(0, start, [0], out);
    EncodeField(tviewLen, start, [0, 0], out);
    EncodeField(insLen, start, [0, 0, tviewLen], out);
    EncodeField(newLen, start, [0, 0, tviewLen, insLen], out);
  }

  lemma EncodedNone()
    ensures EncodedUints([]) == []
  {
  }

  method EncodeField(v: u64, ghost start: seq<byte>, ghost before: seq<nat>, out: OutBuf)
    requires out.bytes == start + EncodedUints(before)
    modifies out
    ensures out.bytes == start + EncodedUints(before + [v])
  {
    hide Base128.EncodedUint;
    assert (before + [v])[..|before|] == before;
    Base128.EncodeUint(v, out);
  }

  method EncodeSections(codecs: Codecs, version: Version, ins: seq<byte>, newData: seq<byte>, level: nat)
    returns (insWire: seq<byte>, newWire: seq<byte>)
    requires |newData| < MAX_SLICE_LEN && ins == InstructionsFor(newData)
    ensures insWire == EncodedSection(codecs, version, level, ins)
    ensures newWire == EncodedSection(codecs, version, level, newData)
    ensures |insWire| < TWO_64 && |newWire| < TWO_64
  {
    InstructionsShort(newData);
    SectionLength(codecs, version, level, ins);
    SectionLength(codecs, version, level, newData);
    match version {
      case V0 =>
        insWire, newWire := ins, newData;
      case V1 =>
        insWire := CompressZlib(codecs, ins, level);
        newWire := CompressZlib(codecs, newData, level);
      case V2 =>
        insWire := CompressLz4(codecs, ins);
        newWire := CompressLz4(codecs, newData);
    }
  }

  lemma InstructionsShort(data: seq<byte>)
    requires |data| < MAX_SLICE_LEN
    ensures |InstructionsFor(data)| <= 11
  {
    Base128.UintLength(|data|);
  }

  /** A section is at most ten bytes longer than its data. */
  lemma SectionLength(codecs: Codecs, version: Version, level: nat, data: seq<byte>)
    requires |data| < MAX_SLICE_LEN
    ensures |EncodedSection(codecs, version, level, data)| <= |data| + MAX_UINT_LEN
  {
    Base128.UintLength(|data|);
  }

  method EncodeFulltextWithOptions(codecs: Codecs, version: Version, contents: seq<byte>, level: nat, windowSize: nat)
    returns (r: seq<byte>)
    requires |contents| < MAX_SLICE_LEN
    ensures r == EncodedStream(codecs, version, level, Pieces(contents, windowSize))
  {
    hide EncodedWindow, Chunks, EncodedWindows;
    var size := if windowSize < 1 then 1 else windowSize;
    var out := new OutBuf();
    out.Extend(HeaderOfVersion(version));
    var rest := contents;
    while rest != []
      invariant fresh(out) && |rest| < MAX_SLICE_LEN
      invariant out.bytes + EncodedWindows(codecs, version, level, Chunks(rest, size))
             == HeaderOfVersion(version) + EncodedWindows(codecs, version, level, Chunks(contents, size))
      decreases |rest|
    {
      var n := if |rest| < size then |rest| else size;
      ChunkStep(codecs, version, level, rest, size);
      ghost var before := out.bytes;
      EncodeInsertionWindow(codecs, version, rest[..n], level, out);
      assert out.bytes + EncodedWindows(codecs, version, level, Chunks(rest[n..], size))
          == before + (EncodedWindow(codecs, version, level, rest[..n]) + EncodedWindows(codecs, version, level, Chunks(rest[n..], size)));
      rest := rest[n..];
    }
    NoWindows(codecs, version, level);
    assert out.bytes + [] == out.bytes && HeaderOfVersion(version) + [] == HeaderOfVersion(version);
    if contents == [] {
      EncodeInsertionWindow(codecs, version, [], level, out);
    }
    return out.bytes;
  }

  lemma ChunkStep(codecs: Codecs, version: Version, level: nat, rest: seq<byte>, size: nat)
    requires rest != [] && size > 0
    ensures var n := if |rest| < size then |rest| else size;
      EncodedWindows(codecs, version, level, Chunks(rest, size))
      == EncodedWindow(codecs, version, level, rest[..n]) + EncodedWindows(codecs, version, level, Chunks(rest[n..], size))
  {
    hide EncodedWindow;
    assert Chunks(rest, size)[1..] == Chunks(rest[if |rest| < size then |rest| else size..], size);
  }

  lemma NoWindows(codecs: Codecs, version: Version, level: nat)
    ensures EncodedWindows(codecs, version, level, []) == []
    ensures EncodedWindows(codecs, version, level, [[]]) == EncodedWindow(codecs, version, level, [])
  {
    hide EncodedWindow;
    var single: seq<seq<byte>> := [[]];
    assert single[1..] == [];
    assert EncodedWindows(codecs, version, level, single) == EncodedWindow(codecs, version, level, []) + [];
  }
}
