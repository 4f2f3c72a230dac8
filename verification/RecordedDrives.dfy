/** What the recorder has after a drive whose files come one after the other: exactly their deltas. */
module RecordedDrives {
  import opened Bytes
  import opened DirChain
  import opened EditorCommands
  import opened EditorEvents
  import opened Recorder

  /** A delta on the wire: the checksum of its base, and its chunks. */
  datatype SentDelta = SentDelta(base: Option<Checksum>, chunks: seq<seq<byte>>)

  /** One file of a drive: opened or added, perhaps with a delta, its properties changed, and closed. */
  datatype SentFile = SentFile(
    entry: EditorCommand,
    delta: Option<SentDelta>,
    props: seq<(seq<byte>, Option<seq<byte>>)>,
    checksum: Option<Checksum>)

  predicate EntersFile(c: EditorCommand) { c.AddFile? || c.OpenFile? }

  /** A file, or an event that concerns no file. */
  datatype Part = File(file: SentFile) | Aside(event: EditorEvent)

  predicate IsAside(e: EditorEvent) {
    match e
    case TargetRev(_) => true
    case RevProps(_) => true
    case FinishReplay => false
    case Received(c) =>
      c.OpenRoot? || c.DeleteEntry? || c.AddDir? || c.OpenDir? || c.ChangeDirProp? || c.CloseDir? || c.AbsentDir? || c.AbsentFile?
  }

  ghost predicate ProperPart(p: Part) {
    match p
    case File(f) => EntersFile(f.entry)
    case Aside(e) => IsAside(e)
  }

  // ----- the events of a drive

  function ChunkEvents(token: Token, chunks: seq<seq<byte>>): seq<EditorEvent> {
    if chunks == [] then []
    else ChunkEvents(token, chunks[..|chunks| - 1]) + [Received(TextDeltaChunk(token, chunks[|chunks| - 1]))]
  }

  function PropEvents(token: Token, props: seq<(seq<byte>, Option<seq<byte>>)>): seq<EditorEvent> {
    if props == [] then []
    else
      var p := props[|props| - 1];
      PropEvents(token, props[..|props| - 1]) + [Received(ChangeFileProp(token, p.0, p.1))]
  }

  function FileEvents(f: SentFile): seq<EditorEvent>
    requires EntersFile(f.entry)
  {
    var token := f.entry.fileToken;
    [Received(f.entry)]
    + (match f.delta
       case None => []
       case Some(d) => [Received(ApplyTextDelta(token, d.base))] + ChunkEvents(token, d.chunks) + [Received(TextDeltaEnd(token))])
    + PropEvents(token, f.props)
    + [Received(CloseFile(token, f.checksum))]
  }

  ghost function Events(parts: seq<Part>): seq<EditorEvent>
    requires forall p :: p in parts ==> ProperPart(p)
  {
    if parts == [] then []
    else
      var last := parts[|parts| - 1];
      assert ProperPart(last);
      Events(parts[..|parts| - 1]) + match last case File(f) => FileEvents(f) case Aside(e) => [e]
  }

  /** The record asked for: the path entered, the delta as it was sent, and the checksum of the close. */
  function RecordOf(f: SentFile): seq<RecordedTextDelta>
    requires EntersFile(f.entry)
  {
    match f.delta
    case None => []
    case Some(d) => [RecordedTextDelta(Some(f.entry.path), f.entry.fileToken, d.base, d.chunks, f.checksum)]
  }

  ghost function RecordsOf(parts: seq<Part>): seq<RecordedTextDelta>
    requires forall p :: p in parts ==> ProperPart(p)
  {
    if parts == [] then []
    else
      var last := parts[|parts| - 1];
      assert ProperPart(last);
      RecordsOf(parts[..|parts| - 1]) + match last case File(f) => RecordOf(f) case Aside(_) => []
  }

  /** The trace once these events have been given to the recorder. */
  function Traced(trace: seq<Mark>, events: seq<EditorEvent>): seq<Mark> {
    trace + seq(|events|, i requires 0 <= i < |events| => MarkOf(events[i]))
  }

  lemma TracedAppend(trace: seq<Mark>, a: seq<EditorEvent>, b: seq<EditorEvent>)
    ensures Traced(trace, a + b) == Traced(Traced(trace, a), b)
  {
  }

  lemma TracedOne(trace: seq<Mark>, e: EditorEvent)
    ensures Traced(trace, [e]) == trace + [MarkOf(e)]
    ensures Traced(trace, []) == trace
  {
  }

  // ----- one event after the other

  ghost predicate Sane(trace: seq<Mark>) { AcceptedTrace(trace) && SpansWhole(trace) }

  /** Every event was accepted, and no file but this one is open or being received. */
  ghost predicate Only(trace: seq<Mark>, token: Token, path: Option<Path>, pending: Option<PendingTextDelta>) {
    && Sane(trace) && PathAt(trace, token) == path && PendingFor(trace, token) == pending
    && forall t :: t != token ==> PathAt(trace, t).None? && PendingFor(trace, t).None?
  }

  /** A close of the token would complete the last record. */
  ghost predicate AwaitsEnd(trace: seq<Mark>, token: Token) {
    Ends(trace) != [] && Awaiting(trace, token) == Some(Ends(trace)[|Ends(trace)| - 1])
  }

  lemma SaneGrows(trace: seq<Mark>, m: Mark)
    requires Sane(trace) && Accepts(trace, m)
    ensures Sane(trace + [m])
  {
    hide OpenSpan, PathAt, Ends, AcceptedTrace, SpansWhole, Quiet;
    AcceptedGrows(trace, m);
    SpansStep(trace, m);
  }

  lemma QuietOnly(trace: seq<Mark>, token: Token)
    requires Sane(trace)
    ensures Quiet(trace) <==> Only(trace, token, None, None)
  {
    hide OpenSpan, PathAt, Sane, PendingFor;
    forall t ensures OpenSpan(trace, t).None? <==> PendingFor(trace, t).None? { SpanPending(trace, t); }
  }

  lemma EnteredStep(trace: seq<Mark>, token: Token, path: Path)
    requires Sane(trace) && Quiet(trace)
    ensures var t' := trace + [Entered(token, path)];
      Only(t', token, Some(path), None) && Awaiting(t', token) == None && Records(t') == Records(trace)
  {
    hide OpenSpan, PathAt, Sane, PendingFor, Ends, Awaiting, Records;
    var m := Entered(token, path);
    SaneGrows(trace, m);
    RecordsKept(trace, m) by { SaneSpans(trace); }
    AwaitingGrows(trace, m, token);
    QuietOnly(trace, token);
    forall t ensures PathAt(trace + [m], t) == (if t == token then Some(path) else None) && PendingFor(trace + [m], t) == None {
      TraceGrows(trace, m, t);
      PendingGrows(trace, m, t);
    }
  }

  lemma SaneSpans(trace: seq<Mark>)
    requires Sane(trace)
    ensures SpansWhole(trace)
  {
  }

  lemma BegunStep(trace: seq<Mark>, token: Token, path: Path, base: Option<Checksum>)
    requires Only(trace, token, Some(path), None)
    ensures var t' := trace + [Begun(token, base)];
      Only(t', token, Some(path), Some(PendingTextDelta(Some(path), base, []))) && Records(t') == Records(trace)
  {
    hide OpenSpan, PathAt, Sane, PendingFor, Ends, Awaiting, Records;
    var m := Begun(token, base);
    SpanPending(trace, token);
    SaneGrows(trace, m);
    RecordsKept(trace, m) by { SaneSpans(trace); }
    OthersStay(trace, m, token);
    TraceGrows(trace, m, token);
    PendingGrows(trace, m, token);
  }

  /** An event of this token leaves the others as they are. */
  lemma OthersStay(trace: seq<Mark>, m: Mark, token: Token)
    requires m.Entered? || m.Begun? || m.Chunk? || m.Ended? || m.Closed? ==> m.token == token
    requires !m.EditAborted?
    ensures forall t :: t != token ==> PathAt(trace + [m], t) == PathAt(trace, t) && PendingFor(trace + [m], t) == PendingFor(trace, t)
  {
    hide OpenSpan, PathAt, PendingFor;
    forall t | t != token ensures PathAt(trace + [m], t) == PathAt(trace, t) && PendingFor(trace + [m], t) == PendingFor(trace, t) {
      TraceGrows(trace, m, t);
      PendingGrows(trace, m, t);
    }
  }

  lemma ChunkStep(trace: seq<Mark>, token: Token, path: Path, d: PendingTextDelta, bytes: seq<byte>)
    requires Only(trace, token, Some(path), Some(d))
    ensures var t' := trace + [Chunk(token, bytes)];
      Only(t', token, Some(path), Some(d.(chunks := d.chunks + [bytes]))) && Records(t') == Records(trace)
  {
    hide OpenSpan, PathAt, Sane, PendingFor, Ends, Awaiting, Records;
    var m := Chunk(token, bytes);
    SpanPending(trace, token);
    SaneGrows(trace, m);
    RecordsKept(trace, m) by { SaneSpans(trace); }
    OthersStay(trace, m, token);
    TraceGrows(trace, m, token);
    PendingGrows(trace, m, token);
  }

  lemma {:induction false} ChunksStep(trace: seq<Mark>, token: Token, path: Path, base: Option<Checksum>, chunks: seq<seq<byte>>)
    requires Only(trace, token, Some(path), Some(PendingTextDelta(Some(path), base, [])))
    ensures var t' := Traced(trace, ChunkEvents(token, chunks));
      Only(t', token, Some(path), Some(PendingTextDelta(Some(path), base, chunks))) && Records(t') == Records(trace)
    decreases |chunks|
  {
    hide Only, Records, Traced;
    TracedOne(trace, FinishReplay);
    if chunks != [] {
      var before, last := chunks[..|chunks| - 1], chunks[|chunks| - 1];
      assert chunks == before + [last];
      ChunksStep(trace, token, path, base, before);
      var e := Received(TextDeltaChunk(token, last));
      TracedAppend(trace, ChunkEvents(token, before), [e]);
      TracedOne(Traced(trace, ChunkEvents(token, before)), e);
      ChunkStep(Traced(trace, ChunkEvents(token, before)), token, path, PendingTextDelta(Some(path), base, before), last);
    }
  }

  lemma EndedStep(trace: seq<Mark>, token: Token, path: Path, d: PendingTextDelta)
    requires Only(trace, token, Some(path), Some(d))
    ensures var t' := trace + [Ended(token)];
      && Only(t', token, Some(path), None) && AwaitsEnd(t', token)
      && Records(t') == Records(trace) + [RecordedTextDelta(d.path, token, d.baseChecksum, d.chunks, None)]
  {
    hide OpenSpan, PathAt, Sane, PendingFor, Ends, Awaiting, Records;
    var m := Ended(token);
    SpanPending(trace, token);
    SaneGrows(trace, m);
    RecordsEnded(trace, token) by { SaneSpans(trace); }
    OthersStay(trace, m, token);
    TraceGrows(trace, m, token);
    PendingGrows(trace, m, token);
    AwaitingGrows(trace, m, token);
    EndsGrow(trace, m);
  }

  lemma OtherStep(trace: seq<Mark>, token: Token, path: Option<Path>)
    requires Only(trace, token, path, None)
    ensures var t' := trace + [Other];
      && Only(t', token, path, None) && Records(t') == Records(trace)
      && (AwaitsEnd(trace, token) ==> AwaitsEnd(t', token)) && Awaiting(t', token) == Awaiting(trace, token)
  {
    hide OpenSpan, PathAt, Sane, PendingFor, Ends, Awaiting, Records;
    SaneGrows(trace, Other);
    RecordsKept(trace, Other) by { SaneSpans(trace); }
    OthersStay(trace, Other, token);
    TraceGrows(trace, Other, token);
    PendingGrows(trace, Other, token);
    AwaitingGrows(trace, Other, token);
    EndsGrow(trace, Other);
  }

  lemma {:induction false} PropsStep(trace: seq<Mark>, token: Token, path: Path, props: seq<(seq<byte>, Option<seq<byte>>)>)
    requires Only(trace, token, Some(path), None)
    ensures var t' := Traced(trace, PropEvents(token, props));
      && Only(t', token, Some(path), None) && Records(t') == Records(trace)
      && (AwaitsEnd(trace, token) ==> AwaitsEnd(t', token)) && Awaiting(t', token) == Awaiting(trace, token)
    decreases |props|
  {
    hide Only, Records, Traced, AwaitsEnd, Awaiting;
    TracedOne(trace, FinishReplay);
    if props != [] {
      var before, p := props[..|props| - 1], props[|props| - 1];
      PropsStep(trace, token, path, before);
      var e := Received(ChangeFileProp(token, p.0, p.1));
      TracedAppend(trace, PropEvents(token, before), [e]);
      TracedOne(Traced(trace, PropEvents(token, before)), e);
      OtherStep(Traced(trace, PropEvents(token, before)), token, Some(path));
    }
  }

  lemma ClosedStep(trace: seq<Mark>, token: Token, path: Path, checksum: Option<Checksum>)
    requires Only(trace, token, Some(path), None) && (AwaitsEnd(trace, token) || Awaiting(trace, token) == None)
    ensures var t' := trace + [Closed(token, checksum)];
      && Sane(t') && Quiet(t')
      && Records(t') == if checksum.None? || Awaiting(trace, token) == None then Records(trace)
                        else Completed(Records(trace), checksum)
  {
    hide OpenSpan, PathAt, Sane, PendingFor, Ends, Awaiting, Records, Quiet;
    var m := Closed(token, checksum);
    SpanPending(trace, token);
    SaneGrows(trace, m);
    RecordCount(trace);
    SaneSpans(trace);
    if checksum.Some? && Awaiting(trace, token).Some? {
      RecordsClosed(trace, token, checksum.value, |Ends(trace)| - 1);
    } else {
      RecordsKept(trace, m);
    }
    OthersStay(trace, m, token);
    TraceGrows(trace, m, token);
    PendingGrows(trace, m, token);
    QuietOnly(trace + [m], token);
  }

  /** The last record with its checksum. */
  function Completed(records: seq<RecordedTextDelta>, checksum: Option<Checksum>): seq<RecordedTextDelta> {
    if records == [] then [] else records[|records| - 1 := records[|records| - 1].(textChecksum := checksum)]
  }

  lemma CompletedLast(records: seq<RecordedTextDelta>, r: RecordedTextDelta, checksum: Option<Checksum>)
    ensures Completed(records + [r], checksum) == records + [r.(textChecksum := checksum)]
  {
  }

  /** One file more: its delta is recorded, with its own path and checksum. */
  lemma FileRecorded(trace: seq<Mark>, f: SentFile)
    requires Sane(trace) && Quiet(trace) && EntersFile(f.entry)
    ensures var t' := Traced(trace, FileEvents(f));
      Sane(t') && Quiet(t') && Records(t') == Records(trace) + RecordOf(f)
  {
    hide Only, Records, Traced, AwaitsEnd, Awaiting, Sane, Quiet, ChunkEvents, PropEvents;
    var token, path := f.entry.fileToken, f.entry.path;
    var entered := trace + [Entered(token, path)];
    TracedOne(trace, Received(f.entry));
    EnteredStep(trace, token, path);
    var written := match f.delta
      case None => []
      case Some(d) => [Received(ApplyTextDelta(token, d.base))] + ChunkEvents(token, d.chunks) + [Received(TextDeltaEnd(token))];
    TracedOne(entered, FinishReplay);
    if f.delta.Some? { DeltaRecorded(entered, token, path, f.delta.value); }
    var held := Traced(entered, written);
    PropsStep(held, token, path, f.props);
    var kept := Traced(held, PropEvents(token, f.props));
    TracedOne(kept, Received(CloseFile(token, f.checksum)));
    ClosedStep(kept, token, path, f.checksum);
    TracedAppend(trace, [Received(f.entry)], written);
    TracedAppend(trace, [Received(f.entry)] + written, PropEvents(token, f.props));
    TracedAppend(trace, [Received(f.entry)] + written + PropEvents(token, f.props), [Received(CloseFile(token, f.checksum))]);
    if f.delta.Some? {
      var d := f.delta.value;
      AwaitsSome(kept, token);
      CompletedLast(Records(trace), RecordedTextDelta(Some(path), token, d.base, d.chunks, None), f.checksum);
    } else {
      assert Records(trace) + [] == Records(trace);
    }
  }

  lemma AwaitsSome(trace: seq<Mark>, token: Token)
    requires AwaitsEnd(trace, token)
    ensures Awaiting(trace, token) != None
  {
  }

  lemma DeltaRecorded(trace: seq<Mark>, token: Token, path: Path, d: SentDelta)
    requires Only(trace, token, Some(path), None)
    ensures var t' := Traced(trace, [Received(ApplyTextDelta(token, d.base))] + ChunkEvents(token, d.chunks) + [Received(TextDeltaEnd(token))]);
      && Only(t', token, Some(path), None) && AwaitsEnd(t', token)
      && Records(t') == Records(trace) + [RecordedTextDelta(Some(path), token, d.base, d.chunks, None)]
  {
    hide Only, Records, Traced, AwaitsEnd, Awaiting, ChunkEvents;
    var begin, end := Received(ApplyTextDelta(token, d.base)), Received(TextDeltaEnd(token));
    TracedOne(trace, begin);
    BegunStep(trace, token, path, d.base);
    var begun := Traced(trace, [begin]);
    ChunksStep(begun, token, path, d.base, d.chunks);
    var sent := Traced(begun, ChunkEvents(token, d.chunks));
    TracedOne(sent, end);
    EndedStep(sent, token, path, PendingTextDelta(Some(path), d.base, d.chunks));
    TracedAppend(trace, [begin], ChunkEvents(token, d.chunks));
    TracedAppend(trace, [begin] + ChunkEvents(token, d.chunks), [end]);
  }

  // ----- the whole drive

  lemma AsideRecorded(trace: seq<Mark>, e: EditorEvent)
    requires Sane(trace) && Quiet(trace) && IsAside(e)
    ensures var t' := Traced(trace, [e]); Sane(t') && Quiet(t') && Records(t') == Records(trace)
  {
    hide Sane, Quiet, Records, Only;
    TracedOne(trace, e);
    QuietOnly(trace, []);
    OtherStep(trace, [], None);
    SaneGrows(trace, Other);
    QuietOnly(trace + [Other], []);
  }

  /**
   Given a drive whose files come one after the other, with whatever else in between, the recorder
   accepts every event; its records are the deltas sent, in order, each with the path and the checksum
   of its own file.
   */
  lemma {:induction false} DriveRecorded(parts: seq<Part>)
    requires forall p :: p in parts ==> ProperPart(p)
    ensures var trace := Traced([], Events(parts)); Sane(trace) && Quiet(trace) && Records(trace) == RecordsOf(parts)
    decreases |parts|
  {
    hide Sane, Quiet, Records, Traced, FileEvents, RecordOf;
    if parts == [] {
      NothingRecorded();
    } else {
      var before, last := parts[..|parts| - 1], parts[|parts| - 1];
      assert last in parts && forall p :: p in before ==> p in parts;
      DriveRecorded(before);
      var trace := Traced([], Events(before));
      match last
      case File(f) =>
        TracedAppend([], Events(before), FileEvents(f));
        FileRecorded(trace, f);
      case Aside(e) =>
        TracedAppend([], Events(before), [e]);
        AsideRecorded(trace, e);
        assert RecordsOf(before) + [] == RecordsOf(before);
    }
  }

  lemma NothingRecorded()
    ensures Sane(Traced([], [])) && Quiet(Traced([], [])) && Records(Traced([], [])) == []
  {
  }

  /** Such a drive may be closed or its replay finished, and the records stay; an abort throws them away. */
  lemma DriveEnds(parts: seq<Part>)
    requires forall p :: p in parts ==> ProperPart(p)
    ensures var trace := Traced([], Events(parts));
      && (forall e :: e in {Received(CloseEdit), FinishReplay} ==> Accepts(trace, MarkOf(e)) && Records(trace + [MarkOf(e)]) == RecordsOf(parts))
      && Accepts(trace, MarkOf(Received(AbortEdit))) && Records(trace + [MarkOf(Received(AbortEdit))]) == []
  {
    hide Sane, Quiet, Records, Traced;
    DriveRecorded(parts);
    var trace := Traced([], Events(parts));
    SaneSpans(trace);
    RecordsKept(trace, EditFinished);
    RecordsKept(trace, EditAborted);
  }

  /** While a file is open or a delta is being received, a drive can neither be closed nor its replay finished. */
  lemma UnfinishedRefused(trace: seq<Mark>, token: Token, e: EditorEvent)
    requires e in {Received(CloseEdit), FinishReplay} && (PathAt(trace, token).Some? || OpenSpan(trace, token).Some?)
    ensures !Accepts(trace, MarkOf(e))
  {
    hide PathAt, OpenSpan;
  }
}
