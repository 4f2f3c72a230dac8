/** The two sections of a window on the wire: a size prefix, then raw or compressed bytes. */
module Sections {
  import opened Bytes
  import opened SvndiffFormat
  import Base128

  /** The compression libraries, as the functions this code calls. */
  datatype Codecs = Codecs(
    deflate: (nat, seq<byte>) -> seq<byte>,
    inflate: seq<byte> -> Option<(seq<byte>, nat)>,
    lz4Compress: seq<byte> -> seq<byte>,
    lz4Decompress: (seq<byte>, nat) -> Option<seq<byte>>)

  /** What is assumed of the libraries: each decompressor undoes its compressor. */
  ghost predicate Faithful(c: Codecs) {
    && (forall level, data :: c.inflate(c.deflate(level, data)) == Some((data, |c.deflate(level, data)|)))
    && (forall data :: c.lz4Decompress(c.lz4Compress(data), |data|) == Some(data))
  }

  function DecodedSection(codecs: Codecs, version: Version, wire: seq<byte>, limit: nat): Result<seq<byte>, DeltaError> {
    if version == V0 then Ok(wire)
    else match Base128.DecodedUint(wire)
      case None => Err(SectionMissingSize)
      case Some((size, used)) =>
        var data := wire[used..];
        if size > limit then Err(SectionTooLarge)
        else if |data| == size then Ok(data)
        else if version == V1 then
          match codecs.inflate(data)
          case None => Err(SectionCorrupt)
          case Some((out, consumed)) =>
            if consumed != |data| then Err(SectionTrailingData)
            else if |out| != size then Err(SectionLengthMismatch)
            else Ok(out)
        else
          match codecs.lz4Decompress(data, size)
          case None => Err(SectionCorrupt)
          case Some(out) => if |out| != size then Err(SectionLengthMismatch) else Ok(out)
  }
}
