/** The streaming appliers: one over a base held in memory, one over a base file. */
module Applier {
  import opened Bytes
  import opened SvndiffFormat
  import opened StreamParser
  import opened Sections
  import Instructions

  /** Where a window's source view comes from. */
  datatype Source = InMemory(base: seq<byte>) | FileBacked(file: Option<seq<byte>>)

  function BaseBytes(src: Source): seq<byte> {
    match src
    case InMemory(base) => base
    case FileBacked(None) => []
    case FileBacked(Some(data)) => data
  }

  /** The file-backed reader never looks at the offset of an empty view; the in-memory one does. */
  function SourceView(src: Source, h: WindowHeader): Result<seq<byte>, DeltaError> {
    if src.FileBacked? && h.sviewLen == 0 then Ok([])
    else if h.sviewOffset + h.sviewLen > |BaseBytes(src)| then Err(SourceViewOutOfBounds)
    else Ok(BaseBytes(src)[h.sviewOffset..h.sviewOffset + h.sviewLen])
  }

  /** The target bytes of one parsed window. */
  function WindowOutput(codecs: Codecs, src: Source, w: ParsedWindow): Result<seq<byte>, DeltaError> {
    match DecodedSection(codecs, w.version, w.insWire, MAX_INSTRUCTION_SECTION_LEN)
    case Err(e) => Err(e)
    case Ok(instructions) =>
      match DecodedSection(codecs, w.version, w.newWire, DELTA_WINDOW_MAX)
      case Err(e) => Err(e)
      case Ok(newData) =>
        match SourceView(src, w.header)
        case Err(e) => Err(e)
        case Ok(view) => Instructions.WindowResult(view, w.header.tviewLen, instructions, newData)
  }

  /** What feeding does: the parser afterwards, the bytes written, and the failure, if any. */
  datatype Fed = Fed(view: StreamView, output: seq<byte>, err: Option<DeltaError>)

  function After(written: seq<byte>, f: Fed): Fed {
    f.(output := written + f.output)
  }

  /** The target bytes of the next complete window, if there is one. */
  function NextOutput(codecs: Codecs, src: Source, v: StreamView): (r: (StreamView, Result<Option<seq<byte>>, DeltaError>))
    ensures r.1.Ok? && r.1.value.Some? ==> |r.0.unread| < |v.unread|
    ensures r.0.received == v.received
  {
    match Next(v)
    case (v', Err(e)) => (v', Err(e))
    case (v', Ok(None)) => (v', Ok(None))
    case (v', Ok(Some(w))) =>
      match WindowOutput(codecs, src, w)
      case Err(e) => (v', Err(e))
      case Ok(data) => (v', Ok(Some(data)))
  }

  /** Applies every window that is complete. */
  function Drain(codecs: Codecs, src: Source, v: StreamView): (f: Fed)
    ensures f.view.received == v.received
    decreases |v.unread|
  {
    match NextOutput(codecs, src, v)
    case (v', Err(e)) => Fed(v', [], Some(e))
    case (v', Ok(None)) => Fed(v', [], None)
    case (v', Ok(Some(data))) => After(data, Drain(codecs, src, v'))
  }

  lemma AfterAfter(a: seq<byte>, b: seq<byte>, f: Fed)
    ensures After(a, After(b, f)) == After(a + b, f)
  {
    assert a + (b + f.output) == (a + b) + f.output;
  }

  function FeedChunk(codecs: Codecs, src: Source, v: StreamView, chunk: seq<byte>): (f: Fed)
    requires |v.received| <= SVNDIFF_HEADER_LEN
    ensures |f.view.received| <= SVNDIFF_HEADER_LEN
  {
    match Pushed(v, chunk)
    case (v', Some(e)) => Fed(v', [], Some(e))
    case (v', None) => Drain(codecs, src, v')
  }

  /** The end of the input: nothing received at all means the base unchanged. */
  function FinishFeed(src: Source, v: StreamView): Fed {
    if v.received == [] then Fed(v, BaseBytes(src), None) else Fed(v, [], Finished(v))
  }

  class TextDeltaApplierSync {
    const codecs: Codecs
    const base: seq<byte>
    const stream: SvndiffStream

    ghost predicate Valid()
      reads this, stream, stream.buf
    {
      stream.Valid()
    }

    constructor (codecs: Codecs, base: seq<byte>)
      ensures Valid() && fresh(stream) && fresh(stream.buf)
      ensures this.codecs == codecs && this.base == base && stream.View() == START
    {
      this.codecs, this.base := codecs, base;
      stream := new SvndiffStream();
    }

    method Push(chunk: seq<byte>, out: OutBuf) returns (err: Option<DeltaError>)
      requires Valid()
      modifies stream, stream.buf, out
      ensures Valid()
      ensures var f := FeedChunk(codecs, InMemory(base), old(stream.View()), chunk);
        stream.View() == f.view && out.bytes == old(out.bytes) + f.output && err == f.err
    {
      hide NextOutput, HeaderOf, VersionOf;
      err := stream.Push(chunk);
      if err.None? {
        err := DrainWindows(out);
      }
    }

    /** The loop in `Push`: applies and writes every window that is complete. */
    method DrainWindows(out: OutBuf) returns (err: Option<DeltaError>)
      requires Valid()
      modifies stream, stream.buf, out
      ensures Valid()
      ensures var f := Drain(codecs, InMemory(base), old(stream.View()));
        stream.View() == f.view && out.bytes == old(out.bytes) + f.output && err == f.err
    {
      hide NextOutput, HeaderOf, VersionOf;
      ghost var pushed := stream.View();
      ghost var written: seq<byte> := [];
      while true
        invariant Valid() && out.bytes == old(out.bytes) + written
        invariant After(written, Drain(codecs, InMemory(base), stream.View())) == Drain(codecs, InMemory(base), pushed)
        decreases |stream.View().unread|
      {
        var data := ApplyNext();
        if data.Err? {
          return Some(data.error);
        }
        if data.value.None? {
          return None;
        }
        out.Extend(data.value.value);
        AfterAfter(written, data.value.value, Drain(codecs, InMemory(base), stream.View()));
        written := written + data.value.value;
      }
    }

    /** One turn of the loop in `Push`, up to writing the window's bytes. */
    method ApplyNext() returns (r: Result<Option<seq<byte>>, DeltaError>)
      requires Valid()
      modifies stream, stream.buf
      ensures Valid() && (stream.View(), r) == NextOutput(codecs, InMemory(base), old(stream.View()))
    {
      hide Next, DecodedSection, Instructions.WindowResult;
      var next := stream.NextWindow();
      if next.Err? {
        return Err(next.error);
      }
      if next.value.None? {
        return Ok(None);
      }
      var w := next.value.value;
      var instructions := DecodedSection(codecs, w.version, w.insWire, MAX_INSTRUCTION_SECTION_LEN);
      if instructions.Err? {
        return Err(instructions.error);
      }
      var newData := DecodedSection(codecs, w.version, w.newWire, DELTA_WINDOW_MAX);
      if newData.Err? {
        return Err(newData.error);
      }
      var data := ApplyWindow(base, w.header, instructions.value, newData.value);
      if data.Err? {
        return Err(data.error);
      }
      return Ok(Some(data.value));
    }

    /** The loop of `apply_textdelta_sync` and the finish after it. */
    method PushAll(chunks: seq<seq<byte>>, out: OutBuf) returns (err: Option<DeltaError>)
      requires Valid()
      modifies stream, stream.buf, out
      ensures var f := Run(codecs, InMemory(base), old(stream.View()), chunks);
        out.bytes == old(out.bytes) + f.output && err == f.err
    {
      hide Run, FeedChunk, FinishFeed, HeaderOf, VersionOf;
      ghost var goal := Run(codecs, InMemory(base), stream.View(), chunks);
      ghost var written: seq<byte> := [];
      var rest := chunks;
      while rest != []
        invariant Valid()
        invariant out.bytes == old(out.bytes) + written
        invariant SameEnd(goal, written, Run(codecs, InMemory(base), stream.View(), rest))
        decreases |rest|
      {
        RunStep(codecs, InMemory(base), stream.View(), rest);
        ghost var f := FeedChunk(codecs, InMemory(base), stream.View(), rest[0]);
        err := Push(rest[0], out);
        written := written + f.output;
        if err.Some? {
          return;
        }
        rest := rest[1..];
      }
      RunStep(codecs, InMemory(base), stream.View(), []);
      err := Finish(out);
    }

    method Finish(out: OutBuf) returns (err: Option<DeltaError>)
      requires Valid()
      modifies out
      ensures var f := FinishFeed(InMemory(base), stream.View());
        out.bytes == old(out.bytes) + f.output && err == f.err
    {
      var identity := stream.IsIdentity();
      if identity {
        out.Extend(base);
        return None;
      }
      err := stream.Finish();
    }
  }

  /** A base file: its length is fixed while the delta is applied, its position moves. */
  class BaseFile {
    const data: seq<byte>
    var pos: nat

    constructor (data: seq<byte>)
      ensures this.data == data
    {
      this.data, pos := data, 0;
    }

    method Seek(to: nat)
      modifies this
      ensures pos == to
    {
      pos := to;
    }

    /** `read_exact`: fails at the end of the file. */
    method ReadExact(n: nat) returns (r: Option<seq<byte>>)
      modifies this
      ensures r == if old(pos) + n <= |data| then Some(data[old(pos)..old(pos) + n]) else None
    {
      if pos + n > |data| {
        return None;
      }
      r := Some(data[pos..pos + n]);
      pos := pos + n;
    }

    /** `io::copy` from the current position to the end. */
    method CopyRest(out: OutBuf)
      modifies this, out
      ensures out.bytes == old(out.bytes) + if old(pos) <= |data| then data[old(pos)..] else []
    {
      out.Extend(if pos <= |data| then data[pos..] else []);
      pos := if pos <= |data| then |data| else pos;
    }
  }

  class TextDeltaApplierFileSync {
    const codecs: Codecs
    const base: BaseFile?
    const baseLen: nat
    const stream: SvndiffStream

    ghost predicate Valid()
      reads this, stream, stream.buf
    {
      stream.Valid() && baseLen == |BaseBytes(Src())|
    }

    ghost function Src(): Source
      reads this
    {
      FileBacked(if base == null then None else Some(base.data))
    }

    constructor (codecs: Codecs, base: BaseFile?)
      ensures Valid() && fresh(stream) && fresh(stream.buf)
      ensures this.codecs == codecs && this.base == base && stream.View() == START
    {
      this.codecs, this.base := codecs, base;
      baseLen := if base == null then 0 else |base.data|;
      stream := new SvndiffStream();
    }

    method Push(chunk: seq<byte>, out: OutBuf) returns (err: Option<DeltaError>)
      requires Valid()
      modifies stream, stream.buf, out, base
      ensures Valid()
      ensures var f := FeedChunk(codecs, Src(), old(stream.View()), chunk);
        stream.View() == f.view && out.bytes == old(out.bytes) + f.output && err == f.err
    {
      hide NextOutput, HeaderOf, VersionOf;
      err := stream.Push(chunk);
      if err.None? {
        err := DrainWindows(out);
      }
    }

    /** The loop in `Push`: applies and writes every window that is complete. */
    method DrainWindows(out: OutBuf) returns (err: Option<DeltaError>)
      requires Valid()
      modifies stream, stream.buf, out, base
      ensures Valid()
      ensures var f := Drain(codecs, Src(), old(stream.View()));
        stream.View() == f.view && out.bytes == old(out.bytes) + f.output && err == f.err
    {
      hide NextOutput, HeaderOf, VersionOf;
      ghost var pushed := stream.View();
      ghost var written: seq<byte> := [];
      while true
        invariant Valid() && out.bytes == old(out.bytes) + written
        invariant After(written, Drain(codecs, Src(), stream.View())) == Drain(codecs, Src(), pushed)
        decreases |stream.View().unread|
      {
        var data := ApplyNext();
        if data.Err? {
          return Some(data.error);
        }
        if data.value.None? {
          return None;
        }
        out.Extend(data.value.value);
        AfterAfter(written, data.value.value, Drain(codecs, Src(), stream.View()));
        written := written + data.value.value;
      }
    }

    /** One turn of the loop in `Push`, up to writing the window's bytes. */
    method ApplyNext() returns (r: Result<Option<seq<byte>>, DeltaError>)
      requires Valid()
      modifies stream, stream.buf, base
      ensures Valid() && (stream.View(), r) == NextOutput(codecs, Src(), old(stream.View()))
    {
      hide Next, DecodedSection, Instructions.WindowResult;
      var next := stream.NextWindow();
      if next.Err? {
        return Err(next.error);
      }
      if next.value.None? {
        return Ok(None);
      }
      var w := next.value.value;
      var instructions := DecodedSection(codecs, w.version, w.insWire, MAX_INSTRUCTION_SECTION_LEN);
      if instructions.Err? {
        return Err(instructions.error);
      }
      var newData := DecodedSection(codecs, w.version, w.newWire, DELTA_WINDOW_MAX);
      if newData.Err? {
        return Err(newData.error);
      }
      var view := ReadSourceView(w.header);
      if view.Err? {
        return Err(view.error);
      }
      var data := Instructions.ApplyWindowSource(view.value, w.header.tviewLen, instructions.value, newData.value);
      if data.Err? {
        return Err(data.error);
      }
      return Ok(Some(data.value));
    }

    method ReadSourceView(h: WindowHeader) returns (r: Result<seq<byte>, DeltaError>)
      requires Valid()
      modifies base
      ensures r == SourceView(Src(), h)
    {
      if h.sviewLen == 0 {
        return Ok([]);
      }
      var end := h.sviewOffset + h.sviewLen;
      if end > baseLen {
        return Err(SourceViewOutOfBounds);
      }
      if base == null {
        return Err(SourceViewOutOfBounds);
      }
      base.Seek(h.sviewOffset);
      var data := base.ReadExact(h.sviewLen);
      return Ok(data.value);
    }

    method Finish(out: OutBuf) returns (err: Option<DeltaError>)
      requires Valid()
      modifies out, base
      ensures var f := FinishFeed(Src(), stream.View());
        out.bytes == old(out.bytes) + f.output && err == f.err
    {
      var identity := stream.IsIdentity();
      if identity {
        if base != null {
          base.Seek(0);
          base.CopyRest(out);
        }
        return None;
      }
      err := stream.Finish();
    }
  }

  /** Feeding a list of chunks from a given parser state and then finishing. */
  function Run(codecs: Codecs, src: Source, v: StreamView, chunks: seq<seq<byte>>): Fed
    requires |v.received| <= SVNDIFF_HEADER_LEN
    decreases |chunks|
  {
    if chunks == [] then FinishFeed(src, v)
    else
      var f := FeedChunk(codecs, src, v, chunks[0]);
      if f.err.Some? then f
      else After(f.output, Run(codecs, src, f.view, chunks[1..]))
  }

  /** `goal` is what follows `written` bytes and then `rest`. */
  ghost predicate SameEnd(goal: Fed, written: seq<byte>, rest: Fed) {
    goal.output == written + rest.output && goal.err == rest.err
  }

  lemma RunStep(codecs: Codecs, src: Source, v: StreamView, chunks: seq<seq<byte>>)
    requires |v.received| <= SVNDIFF_HEADER_LEN
    ensures chunks == [] ==> Run(codecs, src, v, chunks) == FinishFeed(src, v)
    ensures chunks != [] ==>
      var f := FeedChunk(codecs, src, v, chunks[0]);
      Run(codecs, src, v, chunks) == if f.err.Some? then f else After(f.output, Run(codecs, src, f.view, chunks[1..]))
  {
  }

  /** The convenience wrapper: a fresh applier fed chunk by chunk, stopping at the first failure. */
  method ApplyTextdeltaSync(codecs: Codecs, base: seq<byte>, chunks: seq<seq<byte>>, out: OutBuf)
    returns (err: Option<DeltaError>)
    modifies out
    ensures var f := Run(codecs, InMemory(base), START, chunks);
      out.bytes == old(out.bytes) + f.output && err == f.err
  {
    hide *;
    var applier := new TextDeltaApplierSync(codecs, base);
    err := applier.PushAll(chunks, out);
  }

  method ApplyWindow(base: seq<byte>, h: WindowHeader, instructions: seq<byte>, newData: seq<byte>)
    returns (r: Result<seq<byte>, DeltaError>)
    ensures match SourceView(InMemory(base), h)
      case Err(e) => r == Err(e)
      case Ok(view) => r == Instructions.WindowResult(view, h.tviewLen, instructions, newData)
  {
    var sviewEnd := h.sviewOffset + h.sviewLen;
    if sviewEnd > |base| {
      return Err(SourceViewOutOfBounds);
    }
    r := Instructions.ApplyWindowSource(base[h.sviewOffset..sviewEnd], h.tviewLen, instructions, newData);
  }
}
