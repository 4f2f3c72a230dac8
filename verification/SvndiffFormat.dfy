/** The constants, records and refusals shared by the svndiff decoder and encoder. */
module SvndiffFormat {
  import opened Bytes

  const SVNDIFF_HEADER_LEN := 4
  const MAX_UINT_LEN := 10
  const DELTA_WINDOW_MAX := 65536
  const MAX_INSTRUCTION_LEN := 2 * MAX_UINT_LEN + 1
  const MAX_INSTRUCTION_SECTION_LEN := DELTA_WINDOW_MAX * MAX_INSTRUCTION_LEN

  datatype Version = V0 | V1 | V2

  function HeaderOfVersion(v: Version): (h: seq<byte>)
    ensures |h| == SVNDIFF_HEADER_LEN
  {
    [83, 86, 78, match v case V0 => 0 case V1 => 1 case V2 => 2]
  }

  function VersionOfHeader(h: seq<byte>): (v: Option<Version>)
    ensures forall x :: v == Some(x) <==> h == HeaderOfVersion(x)
  {
    if h == HeaderOfVersion(V0) then Some(V0)
    else if h == HeaderOfVersion(V1) then Some(V1)
    else if h == HeaderOfVersion(V2) then Some(V2)
    else None
  }

  /** One case per message the decoder can raise. */
  datatype DeltaError =
    | InvalidHeader
    | TooLargeWindowHeader
    | TooLargeWindow
    | CorruptWindowHeader
    | BackwardsSlidingView
    | MissingHeader
    | TruncatedWindow
    | SectionMissingSize
    | SectionTooLarge
    | SectionCorrupt
    | SectionTrailingData
    | SectionLengthMismatch
    | SourceViewOutOfBounds
    | InvalidAction
    | TruncatedLength
    | ZeroLength
    | TargetOverflow
    | SourceMissingOffset
    | SourceOverflow
    | TargetMissingOffset
    | TargetOffsetBeyondPosition
    | NewDataOverflow
    | TargetNotFilled
    | NewDataLeftOver
    | UnexpectedInteger

  datatype WindowHeader = WindowHeader(
    sviewOffset: u64,
    sviewLen: nat,
    tviewLen: nat,
    insLen: nat,
    newLen: nat,
    headerLen: nat)
}
