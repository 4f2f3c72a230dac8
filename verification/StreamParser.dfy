/** The resumable svndiff parser: a compacting buffer, a four-byte header, then one window at a time. */
module StreamParser {
  import opened Bytes
  import opened SvndiffFormat
  import Base128

  const COMPACT_THRESHOLD := 4096
  const MAX_PENDING_HEADER := 5 * MAX_UINT_LEN

  // ----- window headers

  /** The integer at `at` and the position behind it. */
  function UintAt(s: seq<byte>, at: nat): (r: Option<(u64, nat)>)
    requires at <= |s|
    ensures r.Some? ==> at < r.value.1 <= |s|
  {
    match Base128.DecodedUint(s[at..])
    case None => None
    case Some((v, used)) => Some((v, at + used))
  }

  lemma UintAtExtends(s: seq<byte>, at: nat, more: seq<byte>)
    requires at <= |s| && UintAt(s, at).Some?
    ensures UintAt(s + more, at) == UintAt(s, at)
  {
    assert (s + more)[at..] == s[at..] + more;
    Base128.DecodeExtends(s[at..], more);
  }

  lemma UintAtNeedsOnly(s: seq<byte>, at: nat, m: nat)
    requires at <= |s| && UintAt(s, at).Some? && UintAt(s, at).value.1 <= m <= |s|
    ensures UintAt(s[..m], at) == UintAt(s, at)
  {
    assert s[..m][at..] == s[at..][..m - at];
    Base128.DecodeNeedsOnly(s[at..], m - at);
  }

  /** The first `n` integers of `s` and the bytes they occupy. */
  function Uints(s: seq<byte>, n: nat): (r: Option<(seq<u64>, nat)>)
    ensures r.Some? ==> |r.value.0| == n && n <= r.value.1 <= |s|
  {
    if n == 0 then Some(([], 0))
    else match Uints(s, n - 1)
      case None => None
      case Some((vs, at)) =>
        match UintAt(s, at)
        case None => None
        case Some((v, next)) => Some((vs + [v], next))
  }

  function CheckedHeader(vs: seq<u64>, headerLen: nat): (r: Result<WindowHeader, DeltaError>)
    requires |vs| == 5
    ensures r.Ok? ==> r.value.headerLen == headerLen
    ensures r.Ok? ==> r.value.sviewOffset + r.value.sviewLen < TWO_64
  {
    if vs[2] > DELTA_WINDOW_MAX || vs[1] > DELTA_WINDOW_MAX
      || vs[4] > DELTA_WINDOW_MAX + MAX_UINT_LEN || vs[3] > MAX_INSTRUCTION_SECTION_LEN
    then Err(TooLargeWindow)
    else if vs[0] + vs[1] >= TWO_64 then Err(CorruptWindowHeader)
    else Ok(WindowHeader(vs[0], vs[1], vs[2], vs[3], vs[4], headerLen))
  }

  /** The window header at the front of `s`: refused, incomplete, or complete. */
  function HeaderOf(s: seq<byte>): (r: Result<Option<WindowHeader>, DeltaError>)
    ensures r != Ok(None) ==> |s| >= 5
    ensures r.Ok? && r.value.Some? ==>
      5 <= r.value.value.headerLen <= |s| && r.value.value.sviewOffset + r.value.value.sviewLen < TWO_64
  {
    match Uints(s, 5)
    case None => Ok(None)
    case Some((vs, used)) =>
      match CheckedHeader(vs, used)
      case Err(e) => Err(e)
      case Ok(h) => Ok(Some(h))
  }

  lemma {:induction false} UintsExtend(s: seq<byte>, n: nat, more: seq<byte>)
    requires Uints(s, n).Some?
    ensures Uints(s + more, n) == Uints(s, n)
  {
    if n > 0 {
      UintsExtend(s, n - 1, more);
      UintAtExtends(s, Uints(s, n - 1).value.1, more);
    }
  }

  lemma {:induction false} UintsNeedOnly(s: seq<byte>, n: nat, m: nat)
    requires Uints(s, n).Some? && Uints(s, n).value.1 <= m <= |s|
    ensures Uints(s[..m], n) == Uints(s, n)
  {
    hide UintAt;
    if n > 0 {
      UintsNeedOnly(s, n - 1, m);
      UintAtNeedsOnly(s, Uints(s, n - 1).value.1, m);
    }
  }

  /** A header decodes as soon as its own bytes are there. */
  lemma HeaderNeedsOnly(s: seq<byte>, m: nat)
    requires HeaderOf(s).Ok? && HeaderOf(s).value.Some?
    requires HeaderOf(s).value.value.headerLen <= m <= |s|
    ensures HeaderOf(s[..m]) == HeaderOf(s)
  {
    UintsNeedOnly(s, 5, m);
  }

  lemma {:induction false} UintsStayIncomplete(s: seq<byte>, n: nat, m: nat)
    requires n <= m && Uints(s, n) == None
    ensures Uints(s, m) == None
  {
    hide UintAt;
    if n < m {
      UintsStayIncomplete(s, n, m - 1);
    }
  }

  /** A complete or refused header stays what it is when more input arrives. */
  lemma HeaderExtends(s: seq<byte>, more: seq<byte>)
    requires HeaderOf(s) != Ok(None)
    ensures HeaderOf(s + more) == HeaderOf(s)
  {
    UintsExtend(s, 5, more);
  }

  /** The five header fields, each decoded where the one before it ended. */
  method ReadFields(input: seq<byte>) returns (r: Option<(seq<u64>, nat)>)
    ensures r == Uints(input, 5)
  {
    hide Base128.DecodedUint;
    var vs: seq<u64>, at, n := [], 0, 0;
    while n < 5
      invariant 0 <= n <= 5
      invariant Uints(input, n) == Some((vs, at))
    {
      UintsStep(input, n, vs, at);
      var d := Base128.TryDecodeUint(input[at..]);
      if d.value.None? {
        UintsStayIncomplete(input, n + 1, 5);
        return None;
      }
      vs, at, n := vs + [d.value.value.0], at + d.value.value.1, n + 1;
    }
    return Some((vs, at));
  }

  lemma UintsStep(s: seq<byte>, n: nat, vs: seq<u64>, at: nat)
    requires Uints(s, n) == Some((vs, at))
    ensures UintAt(s, at) == None ==> Uints(s, n + 1) == None
    ensures UintAt(s, at).Some? ==> Uints(s, n + 1) == Some((vs + [UintAt(s, at).value.0], UintAt(s, at).value.1))
  {
    hide UintAt;
  }

  method TryParseWindowHeader(input: seq<byte>) returns (r: Result<Option<WindowHeader>, DeltaError>)
    ensures r == HeaderOf(input)
  {
    var fields := ReadFields(input);
    if fields.None? {
      return Ok(None);
    }
    var (vs, headerLen) := fields.value;
    var sviewOffset, sviewLen, tviewLen, insLen, newLen := vs[0], vs[1], vs[2], vs[3], vs[4];
    if tviewLen > DELTA_WINDOW_MAX
      || sviewLen > DELTA_WINDOW_MAX
      || newLen > DELTA_WINDOW_MAX + MAX_UINT_LEN
      || insLen > MAX_INSTRUCTION_SECTION_LEN
    {
      return Err(TooLargeWindow);
    }
    if sviewOffset + sviewLen >= TWO_64 {
      return Err(CorruptWindowHeader);
    }
    return Ok(Some(WindowHeader(sviewOffset, sviewLen, tviewLen, insLen, newLen, headerLen)));
  }

  // ----- the buffer

  /** Bytes received and not yet consumed, behind a start index that is compacted now and then. */
  class CursorBuf {
    var buf: seq<byte>
    var start: nat

    predicate Valid() reads this { start <= |buf| }

    function Available(): seq<byte>
      reads this
      requires Valid()
    {
      buf[start..]
    }

    constructor ()
      ensures Valid() && Available() == []
    {
      buf := [];
      start := 0;
    }

    method Push(bytes: seq<byte>)
      requires Valid()
      modifies this
      ensures Valid() && Available() == old(Available()) + bytes
    {
      if bytes != [] {
        buf := buf + bytes;
      }
    }

    method Consume(n: nat)
      requires Valid()
      modifies this
      ensures Valid()
      ensures Available() == if n <= |old(Available())| then old(Available())[n..] else []
    {
      start := start + n;
      if start >= |buf| {
        buf := [];
        start := 0;
        return;
      }
      if start > COMPACT_THRESHOLD && start * 2 > |buf| {
        buf := buf[start..];
        start := 0;
      }
    }
  }

  // ----- the parser

  /**
   What the parser has been fed, in logical terms: the header bytes received so far, the bytes
   behind them that no window has taken, and the source view of the last window.
   */
  datatype StreamView = StreamView(received: seq<byte>, unread: seq<byte>, lastOffset: nat, lastLen: nat)

  const START := StreamView([], [], 0, 0)

  /** Body bytes only arrive behind a complete header. */
  ghost predicate Sound(v: StreamView) {
    && |v.received| <= SVNDIFF_HEADER_LEN
    && (|v.received| < SVNDIFF_HEADER_LEN ==> v.unread == [])
  }

  function VersionOf(v: StreamView): Option<Version> {
    if |v.received| == SVNDIFF_HEADER_LEN then VersionOfHeader(v.received) else None
  }

  /** Receives a chunk: header bytes first, the rest behind the unread bytes. */
  function Pushed(v: StreamView, chunk: seq<byte>): (r: (StreamView, Option<DeltaError>))
    requires |v.received| <= SVNDIFF_HEADER_LEN
    ensures |r.0.received| <= SVNDIFF_HEADER_LEN
  {
    var needed := SVNDIFF_HEADER_LEN - |v.received|;
    var take := if needed <= |chunk| then needed else |chunk|;
    var v' := v.(received := v.received + chunk[..take]);
    if take > 0 && |v'.received| == SVNDIFF_HEADER_LEN && VersionOf(v').None? then (v', Some(InvalidHeader))
    else (v'.(unread := v.unread + chunk[take..]), None)
  }

  datatype ParsedWindow = ParsedWindow(version: Version, header: WindowHeader, insWire: seq<byte>, newWire: seq<byte>)

  function Needed(h: WindowHeader): nat {
    h.headerLen + h.insLen + h.newLen
  }

  /** A source view that starts or ends before the previous one. */
  predicate SlidesBack(h: WindowHeader, lastOffset: nat, lastLen: nat) {
    h.sviewLen > 0 && (h.sviewOffset < lastOffset || h.sviewOffset + h.sviewLen < lastOffset + lastLen)
  }

  /** Takes a complete window off the unread bytes. */
  function TakeWindow(v: StreamView, version: Version, h: WindowHeader): (r: (StreamView, Result<Option<ParsedWindow>, DeltaError>))
    requires 0 < h.headerLen && Needed(h) <= |v.unread|
    ensures r.0.unread == v.unread[Needed(h)..] && r.0.received == v.received
  {
    var v' := v.(unread := v.unread[Needed(h)..]);
    if SlidesBack(h, v.lastOffset, v.lastLen) then (v', Err(BackwardsSlidingView))
    else
      (v'.(lastOffset := h.sviewOffset, lastLen := h.sviewLen),
       Ok(Some(ParsedWindow(version, h, v.unread[h.headerLen..h.headerLen + h.insLen],
                            v.unread[h.headerLen + h.insLen..Needed(h)]))))
  }

  /** Takes the next complete window off the unread bytes. */
  function Next(v: StreamView): (r: (StreamView, Result<Option<ParsedWindow>, DeltaError>))
    ensures r.1.Ok? && r.1.value.Some? ==> |r.0.unread| < |v.unread|
    ensures r.0.received == v.received
  {
    match VersionOf(v)
    case None => (v, Ok(None))
    case Some(version) =>
      match HeaderOf(v.unread)
      case Err(e) => (v, Err(e))
      case Ok(None) => (v, if |v.unread| > MAX_PENDING_HEADER then Err(TooLargeWindowHeader) else Ok(None))
      case Ok(Some(h)) =>
        if |v.unread| < Needed(h) then (v, Ok(None))
        else TakeWindow(v, version, h)
  }

  /** Whether the input may end here. */
  function Finished(v: StreamView): Option<DeltaError> {
    if v.received == [] then None
    else if |v.received| < SVNDIFF_HEADER_LEN then Some(MissingHeader)
    else if v.unread != [] then Some(TruncatedWindow)
    else None
  }

  class SvndiffStream {
    var anyInput: bool
    var header: seq<byte>
    var version: Option<Version>
    const buf: CursorBuf
    var pendingWindow: Option<WindowHeader>
    var lastSviewOffset: nat
    var lastSviewLen: nat

    ghost predicate Valid()
      reads this, buf
    {
      && buf.Valid()
      && Sound(View())
      && anyInput == (header != [])
      && version == VersionOf(View())
      && (pendingWindow.Some? ==> version.Some? && HeaderOf(buf.Available()) == Ok(pendingWindow))
    }

    ghost function View(): StreamView
      reads this, buf
      requires buf.Valid()
    {
      StreamView(header, buf.Available(), lastSviewOffset, lastSviewLen)
    }

    constructor ()
      ensures Valid() && fresh(buf) && View() == START
    {
      anyInput, header, version, pendingWindow := false, [], None, None;
      lastSviewOffset, lastSviewLen := 0, 0;
      buf := new CursorBuf();
    }

    method Push(chunk: seq<byte>) returns (err: Option<DeltaError>)
      requires Valid()
      modifies this, buf
      ensures Valid() && (View(), err) == Pushed(old(View()), chunk)
    {
      if chunk == [] {
        assert header + chunk[..0] == header && buf.Available() + chunk[0..] == buf.Available();
        return None;
      }
      anyInput := true;
      var input := chunk;
      if |header| < SVNDIFF_HEADER_LEN {
        var needed := SVNDIFF_HEADER_LEN - |header|;
        var take := if needed <= |input| then needed else |input|;
        header := header + input[..take];
        input := input[take..];
        if |header| == SVNDIFF_HEADER_LEN {
          version := VersionOfHeader(header);
          if version.None? {
            return Some(InvalidHeader);
          }
        }
      } else {
        assert header + chunk[..0] == header && chunk[0..] == chunk;
      }
      if pendingWindow.Some? {
        HeaderExtends(buf.Available(), input);
      }
      if input != [] {
        buf.Push(input);
      } else {
        assert buf.Available() + input == buf.Available();
      }
      return None;
    }

    method IsIdentity() returns (b: bool)
      requires Valid()
      ensures b == (View().received == [])
    {
      return !anyInput;
    }

    method NextWindow() returns (r: Result<Option<ParsedWindow>, DeltaError>)
      requires Valid()
      modifies this, buf
      ensures Valid() && (View(), r) == Next(old(View()))
    {
      if version.None? {
        return Ok(None);
      }
      if pendingWindow.None? {
        var avail := buf.buf[buf.start..];
        var parsed := TryParseWindowHeader(avail);
        if parsed.Err? {
          return Err(parsed.error);
        }
        if parsed.value.None? {
          if |avail| > MAX_PENDING_HEADER {
            return Err(TooLargeWindowHeader);
          }
          return Ok(None);
        }
        pendingWindow := parsed.value;
      }

      var window := pendingWindow.value;
      var avail := buf.buf[buf.start..];
      var needed := window.headerLen + window.insLen + window.newLen;
      if |avail| < needed {
        return Ok(None);
      }
      r := Take(version.value, window);
    }

    /** The second half of `NextWindow`: the pending window is complete. */
    method Take(version: Version, window: WindowHeader) returns (r: Result<Option<ParsedWindow>, DeltaError>)
      requires Valid() && this.version == Some(version) && pendingWindow == Some(window)
      requires Needed(window) <= |buf.Available()|
      modifies this, buf
      ensures Valid() && (View(), r) == TakeWindow(old(View()), version, window)
    {
      hide HeaderOf, VersionOfHeader;
      var avail := buf.buf[buf.start..];
      var base := window.headerLen;
      var insWire := avail[base..base + window.insLen];
      var newWire := avail[base + window.insLen..base + window.insLen + window.newLen];
      buf.Consume(Needed(window));
      pendingWindow := None;

      if window.sviewLen > 0 {
        var end := window.sviewOffset + window.sviewLen;
        var lastEnd := lastSviewOffset + lastSviewLen;
        if window.sviewOffset < lastSviewOffset || end < lastEnd {
          return Err(BackwardsSlidingView);
        }
      }
      lastSviewOffset := window.sviewOffset;
      lastSviewLen := window.sviewLen;
      return Ok(Some(ParsedWindow(version, window, insWire, newWire)));
    }

    method Finish() returns (err: Option<DeltaError>)
      requires Valid()
      ensures err == Finished(View())
    {
      if !anyInput {
        return None;
      }
      if |header| < SVNDIFF_HEADER_LEN {
        return Some(MissingHeader);
      }
      if pendingWindow.Some? || buf.buf[buf.start..] != [] {
        return Some(TruncatedWindow);
      }
      return None;
    }
  }
}
