/**
 The text delta recorder. Its state is proved against the trace of events it has accepted, in terms
 of which every record is described on its own.
 */
module Recorder {
  import opened Bytes
  import opened DirChain
  import opened EditorEvents

  type Checksum = seq<byte>

  datatype RecordedTextDelta = RecordedTextDelta(
    path: Option<Path>,
    fileToken: Token,
    baseChecksum: Option<Checksum>,
    chunks: seq<seq<byte>>,
    textChecksum: Option<Checksum>)

  datatype PendingTextDelta = PendingTextDelta(path: Option<Path>, baseChecksum: Option<Checksum>, chunks: seq<seq<byte>>)

  datatype RecorderError = ReusedToken | DuplicateDelta | UnknownChunk | UnknownEnd | UnknownClose | UnfinishedDelta | UnclosedFile

  /** What an event means to the recorder; `Took` stands for a call of `take_completed`. */
  datatype Mark =
    | Entered(token: Token, path: Path)
    | Begun(token: Token, base: Option<Checksum>)
    | Chunk(token: Token, bytes: seq<byte>)
    | Ended(token: Token)
    | Closed(token: Token, checksum: Option<Checksum>)
    | EditAborted
    | EditFinished
    | Took
    | Other

  function MarkOf(event: EditorEvent): Mark {
    match event
    case Received(AddFile(path, _, token, _)) => Entered(token, path)
    case Received(OpenFile(path, _, token, _)) => Entered(token, path)
    case Received(ApplyTextDelta(token, base)) => Begun(token, base)
    case Received(TextDeltaChunk(token, chunk)) => Chunk(token, chunk)
    case Received(TextDeltaEnd(token)) => Ended(token)
    case Received(CloseFile(token, checksum)) => Closed(token, checksum)
    case Received(AbortEdit) => EditAborted
    case Received(CloseEdit) => EditFinished
    case FinishReplay => EditFinished
    case _ => Other
  }

  // ----- a trace, looked at from its end

  /** The path the token stands for: the last file entered under it and not closed since. */
  function PathAt(trace: seq<Mark>, token: Token): Option<Path> {
    if trace == [] then None
    else match trace[|trace| - 1]
      case Entered(t, path) => if t == token then Some(path) else PathAt(trace[..|trace| - 1], token)
      case Closed(t, _) => if t == token then None else PathAt(trace[..|trace| - 1], token)
      case EditAborted => None
      case _ => PathAt(trace[..|trace| - 1], token)
  }

  /** Where the delta now being received for the token began. */
  function OpenSpan(trace: seq<Mark>, token: Token): (r: Option<nat>)
    ensures r.Some? ==> r.value < |trace| && trace[r.value].Begun? && trace[r.value].token == token
  {
    if trace == [] then None
    else match trace[|trace| - 1]
      case Begun(t, _) => if t == token then Some(|trace| - 1) else OpenSpan(trace[..|trace| - 1], token)
      case Ended(t) => if t == token then None else OpenSpan(trace[..|trace| - 1], token)
      case EditAborted => None
      case _ => OpenSpan(trace[..|trace| - 1], token)
  }

  /** The token's chunks in a stretch of the trace, in order. */
  function ChunksOf(stretch: seq<Mark>, token: Token): seq<seq<byte>> {
    if stretch == [] then []
    else
      var before, m := ChunksOf(stretch[..|stretch| - 1], token), stretch[|stretch| - 1];
      if m.Chunk? && m.token == token then before + [m.bytes] else before
  }

  /** Where deltas ended since the records were last taken or thrown away. */
  function Ends(trace: seq<Mark>): (r: seq<nat>)
    ensures forall k :: 0 <= k < |r| ==> r[k] < |trace| && trace[r[k]].Ended?
    ensures forall j, k :: 0 <= j < k < |r| ==> r[j] < r[k]
  {
    if trace == [] then []
    else match trace[|trace| - 1]
      case Ended(_) => Ends(trace[..|trace| - 1]) + [|trace| - 1]
      case EditAborted => []
      case Took => []
      case _ => Ends(trace[..|trace| - 1])
  }

  /** The end whose record a `close-file` of the token would still complete. */
  function Awaiting(trace: seq<Mark>, token: Token): (r: Option<nat>)
    ensures r.Some? ==> r.value < |trace| && trace[r.value] == Ended(token)
  {
    if trace == [] then None
    else match trace[|trace| - 1]
      case Ended(t) => if t == token then Some(|trace| - 1) else Awaiting(trace[..|trace| - 1], token)
      case Entered(t, _) => if t == token then None else Awaiting(trace[..|trace| - 1], token)
      case Closed(t, _) => if t == token then None else Awaiting(trace[..|trace| - 1], token)
      case EditAborted => None
      case EditFinished => None
      case Took => None
      case _ => Awaiting(trace[..|trace| - 1], token)
  }

  /** The checksum announced for the delta that ended at `end`. */
  function ChecksumFor(trace: seq<Mark>, end: nat): Option<Checksum>
    requires end < |trace| && trace[end].Ended?
  {
    if |trace| == end + 1 then None
    else
      var before, m := trace[..|trace| - 1], trace[|trace| - 1];
      if m.Closed? && m.checksum.Some? && Awaiting(before, m.token) == Some(end) then m.checksum
      else ChecksumFor(before, end)
  }

  /** The record of the delta that ended at `end`. */
  function RecordFor(trace: seq<Mark>, end: nat): RecordedTextDelta
    requires end < |trace| && trace[end].Ended?
  {
    var token := trace[end].token;
    match OpenSpan(trace[..end], token)
    case None => RecordedTextDelta(None, token, None, [], None)
    case Some(begin) =>
      RecordedTextDelta(PathAt(trace[..begin], token), token, trace[begin].base, ChunksOf(trace[begin..end], token),
                        ChecksumFor(trace, end))
  }

  function Records(trace: seq<Mark>): seq<RecordedTextDelta> {
    seq(|Ends(trace)|, k requires 0 <= k < |Ends(trace)| => RecordFor(trace, Ends(trace)[k]))
  }

  /** Nothing is being received, and no file is open. */
  ghost predicate Quiet(trace: seq<Mark>) {
    forall token :: OpenSpan(trace, token).None? && PathAt(trace, token).None?
  }

  /** The events the recorder accepts after a trace. */
  ghost predicate Accepts(trace: seq<Mark>, m: Mark) {
    match m
    case Entered(token, _) => OpenSpan(trace, token).None?
    case Begun(token, _) => OpenSpan(trace, token).None?
    case Chunk(token, _) => OpenSpan(trace, token).Some?
    case Ended(token) => OpenSpan(trace, token).Some?
    case Closed(token, _) => PathAt(trace, token).Some?
    case EditFinished => Quiet(trace)
    case _ => true
  }

  /** Why an event is refused; a delta not yet ended comes before a file not yet closed. */
  ghost function RefusalOf(trace: seq<Mark>, m: Mark): RecorderError {
    match m
    case Entered(_, _) => ReusedToken
    case Begun(_, _) => DuplicateDelta
    case Chunk(_, _) => UnknownChunk
    case Ended(_) => UnknownEnd
    case Closed(_, _) => UnknownClose
    case _ => if exists token :: OpenSpan(trace, token).Some? then UnfinishedDelta else UnclosedFile
  }

  // ----- one more event

  lemma TraceGrows(trace: seq<Mark>, m: Mark, token: Token)
    ensures PathAt(trace + [m], token) ==
      (match m
       case Entered(t, path) => if t == token then Some(path) else PathAt(trace, token)
       case Closed(t, _) => if t == token then None else PathAt(trace, token)
       case EditAborted => None
       case _ => PathAt(trace, token))
    ensures OpenSpan(trace + [m], token) ==
      (match m
       case Begun(t, _) => if t == token then Some(|trace|) else OpenSpan(trace, token)
       case Ended(t) => if t == token then None else OpenSpan(trace, token)
       case EditAborted => None
       case _ => OpenSpan(trace, token))
  {
    assert (trace + [m])[..|trace|] == trace;
  }

  lemma AwaitingGrows(trace: seq<Mark>, m: Mark, token: Token)
    ensures Awaiting(trace + [m], token) ==
      (match m
       case Ended(t) => if t == token then Some(|trace|) else Awaiting(trace, token)
       case Entered(t, _) => if t == token then None else Awaiting(trace, token)
       case Closed(t, _) => if t == token then None else Awaiting(trace, token)
       case EditAborted => None
       case EditFinished => None
       case Took => None
       case _ => Awaiting(trace, token))
  {
    assert (trace + [m])[..|trace|] == trace;
  }

  lemma EndsGrow(trace: seq<Mark>, m: Mark)
    ensures Ends(trace + [m]) ==
      (match m
       case Ended(_) => Ends(trace) + [|trace|]
       case EditAborted => []
       case Took => []
       case _ => Ends(trace))
  {
    assert (trace + [m])[..|trace|] == trace;
  }

  lemma ChunksGrow(trace: seq<Mark>, m: Mark, begin: nat, token: Token)
    requires begin <= |trace|
    ensures ChunksOf((trace + [m])[begin..], token)
         == if m.Chunk? && m.token == token then ChunksOf(trace[begin..], token) + [m.bytes] else ChunksOf(trace[begin..], token)
  {
    var stretch := trace[begin..];
    assert (trace + [m])[begin..] == stretch + [m];
    assert (stretch + [m])[..|stretch|] == stretch;
  }

  /** An earlier record is left as it is, unless it is the one a close completes. */
  lemma RecordKept(trace: seq<Mark>, m: Mark, end: nat)
    requires end < |trace| && trace[end].Ended?
    requires OpenSpan(trace[..end], trace[end].token).Some?
    ensures var r := RecordFor(trace, end);
      RecordFor(trace + [m], end)
      == if m.Closed? && m.checksum.Some? && Awaiting(trace, m.token) == Some(end) then r.(textChecksum := m.checksum) else r
  {
    hide OpenSpan, PathAt, ChunksOf;
    var t' := trace + [m];
    assert t'[..end] == trace[..end] && t'[..|trace|] == trace;
    var begin := OpenSpan(trace[..end], trace[end].token).value;
    assert begin < end by { SpanBefore(trace[..end], trace[end].token); }
    assert t'[..begin] == trace[..begin] && t'[begin..end] == trace[begin..end];
    assert t'[begin] == trace[begin];
  }

  lemma SpanBefore(trace: seq<Mark>, token: Token)
    ensures OpenSpan(trace, token).Some? ==> OpenSpan(trace, token).value < |trace|
  {
  }

  /** The record an end adds. */
  lemma RecordAdded(trace: seq<Mark>, token: Token)
    requires OpenSpan(trace, token).Some?
    ensures var begin := OpenSpan(trace, token).value;
      RecordFor(trace + [Ended(token)], |trace|)
      == RecordedTextDelta(PathAt(trace[..begin], token), token, trace[begin].base, ChunksOf(trace[begin..], token), None)
  {
    hide OpenSpan, PathAt, ChunksOf;
    var t' := trace + [Ended(token)];
    assert t'[..|trace|] == trace;
    var begin := OpenSpan(trace, token).value;
    SpanBefore(trace, token);
    assert t'[..begin] == trace[..begin] && t'[begin..|trace|] == trace[begin..] && t'[begin] == trace[begin];
  }

  // ----- the fields, read off the trace

  function Lookup<K, V>(m: map<K, V>, k: K): Option<V> {
    if k in m then Some(m[k]) else None
  }

  function PendingFor(trace: seq<Mark>, token: Token): Option<PendingTextDelta> {
    match OpenSpan(trace, token)
    case None => None
    case Some(begin) => Some(PendingTextDelta(PathAt(trace[..begin], token), trace[begin].base, ChunksOf(trace[begin..], token)))
  }

  ghost predicate PathsMatch(trace: seq<Mark>, paths: map<Token, Path>) {
    forall token :: PathAt(trace, token) == Lookup(paths, token)
  }

  ghost predicate PendingMatch(trace: seq<Mark>, pending: map<Token, PendingTextDelta>) {
    forall token :: PendingFor(trace, token) == Lookup(pending, token)
  }

  /** Each index names the record of the token's last use. */
  ghost predicate LastMatch(trace: seq<Mark>, last: map<Token, nat>) {
    forall token ::
      && (token in last <==> Awaiting(trace, token).Some?)
      && (token in last ==> last[token] < |Ends(trace)| && Ends(trace)[last[token]] == Awaiting(trace, token).value)
  }

  /** Every delta that ended had begun. */
  ghost predicate SpansWhole(trace: seq<Mark>) {
    forall k :: 0 <= k < |Ends(trace)| ==> OpenSpan(trace[..Ends(trace)[k]], trace[Ends(trace)[k]].token).Some?
  }

  lemma PathsStep(trace: seq<Mark>, m: Mark, paths: map<Token, Path>, paths': map<Token, Path>)
    requires PathsMatch(trace, paths)
    requires paths' == match m
      case Entered(t, path) => paths[t := path]
      case Closed(t, _) => paths - {t}
      case EditAborted => map[]
      case _ => paths
    ensures PathsMatch(trace + [m], paths')
  {
    hide PathAt, OpenSpan;
    forall token ensures PathAt(trace + [m], token) == Lookup(paths', token) {
      TraceGrows(trace, m, token);
    }
  }

  lemma PendingGrows(trace: seq<Mark>, m: Mark, token: Token)
    ensures PendingFor(trace + [m], token) ==
      (match m
       case Begun(t, base) => if t == token then Some(PendingTextDelta(PathAt(trace, token), base, [])) else PendingFor(trace, token)
       case Chunk(t, bytes) =>
         if t == token && PendingFor(trace, token).Some?
         then Some(PendingFor(trace, token).value.(chunks := PendingFor(trace, token).value.chunks + [bytes]))
         else PendingFor(trace, token)
       case Ended(t) => if t == token then None else PendingFor(trace, token)
       case EditAborted => None
       case _ => PendingFor(trace, token))
  {
    hide OpenSpan, PathAt, ChunksOf;
    TraceGrows(trace, m, token);
    var t' := trace + [m];
    if m.Begun? && m.token == token {
      assert t'[..|trace|] == trace && t'[|trace|..] == [m];
      NoChunks(m, token);
    } else if OpenSpan(trace, token).Some? {
      var begin := OpenSpan(trace, token).value;
      assert t'[..begin] == trace[..begin] && t'[begin] == trace[begin];
      ChunksGrow(trace, m, begin, token);
    }
  }

  lemma NoChunks(m: Mark, token: Token)
    requires !m.Chunk?
    ensures ChunksOf([m], token) == []
  {
    assert [m][..0] == [];
  }

  lemma PendingStep(trace: seq<Mark>, m: Mark, paths: map<Token, Path>, pending: map<Token, PendingTextDelta>,
                    pending': map<Token, PendingTextDelta>)
    requires PathsMatch(trace, paths) && PendingMatch(trace, pending) && (m.Chunk? ==> m.token in pending)
    requires pending' == match m
      case Begun(t, base) => pending[t := PendingTextDelta(Lookup(paths, t), base, [])]
      case Chunk(t, bytes) => pending[t := pending[t].(chunks := pending[t].chunks + [bytes])]
      case Ended(t) => pending - {t}
      case EditAborted => map[]
      case _ => pending
    ensures PendingMatch(trace + [m], pending')
  {
    hide PathAt, PendingFor;
    forall token ensures PendingFor(trace + [m], token) == Lookup(pending', token) {
      PendingGrows(trace, m, token);
      assert PendingFor(trace, token) == Lookup(pending, token);
      assert PathAt(trace, token) == Lookup(paths, token);
    }
  }

  lemma LastStep(trace: seq<Mark>, m: Mark, last: map<Token, nat>, last': map<Token, nat>)
    requires LastMatch(trace, last)
    requires last' == match m
      case Ended(t) => last[t := |Ends(trace)|]
      case Entered(t, _) => last - {t}
      case Closed(t, _) => last - {t}
      case EditAborted => map[]
      case EditFinished => map[]
      case Took => map[]
      case _ => last
    ensures LastMatch(trace + [m], last')
  {
    hide Awaiting, Ends;
    EndsGrow(trace, m);
    forall token
      ensures token in last' <==> Awaiting(trace + [m], token).Some?
      ensures token in last' ==> last'[token] < |Ends(trace + [m])| && Ends(trace + [m])[last'[token]] == Awaiting(trace + [m], token).value
    {
      AwaitingGrows(trace, m, token);
    }
  }

  lemma SpansStep(trace: seq<Mark>, m: Mark)
    requires SpansWhole(trace) && (m.Ended? ==> OpenSpan(trace, m.token).Some?)
    ensures SpansWhole(trace + [m])
  {
    hide OpenSpan, Ends;
    EndsGrow(trace, m);
    var t' := trace + [m];
    forall k | 0 <= k < |Ends(t')| ensures OpenSpan(t'[..Ends(t')[k]], t'[Ends(t')[k]].token).Some? {
      assert t'[..Ends(t')[k]] == trace[..Ends(t')[k]];
      if k == |Ends(trace)| {
        assert trace[..|trace|] == trace;
      }
    }
  }

  /** Events other than an end or a close with a checksum leave the records alone, or throw them away. */
  lemma RecordsKept(trace: seq<Mark>, m: Mark)
    requires SpansWhole(trace) && !m.Ended? && (m.Closed? ==> m.checksum.None? || Awaiting(trace, m.token).None?)
    ensures Records(trace + [m]) == if m.EditAborted? || m.Took? then [] else Records(trace)
  {
    hide RecordFor, OpenSpan, Ends, Awaiting;
    EndsGrow(trace, m);
    if !m.EditAborted? && !m.Took? {
      forall k | 0 <= k < |Ends(trace)| ensures RecordFor(trace + [m], Ends(trace)[k]) == RecordFor(trace, Ends(trace)[k]) {
        RecordKept(trace, m, Ends(trace)[k]);
      }
    }
  }

  lemma RecordsEnded(trace: seq<Mark>, token: Token)
    requires SpansWhole(trace) && PendingFor(trace, token).Some?
    ensures var p := PendingFor(trace, token).value;
      Records(trace + [Ended(token)]) == Records(trace) + [RecordedTextDelta(p.path, token, p.baseChecksum, p.chunks, None)]
  {
    hide RecordFor, OpenSpan, Ends, Awaiting, PathAt, ChunksOf;
    var m := Ended(token);
    EndsGrow(trace, m);
    RecordAdded(trace, token);
    forall k | 0 <= k < |Ends(trace)| ensures RecordFor(trace + [m], Ends(trace)[k]) == RecordFor(trace, Ends(trace)[k]) {
      RecordKept(trace, m, Ends(trace)[k]);
    }
  }

  lemma RecordsClosed(trace: seq<Mark>, token: Token, checksum: Checksum, idx: nat)
    requires SpansWhole(trace) && idx < |Ends(trace)| && Awaiting(trace, token) == Some(Ends(trace)[idx])
    ensures var r := Records(trace);
      Records(trace + [Closed(token, Some(checksum))]) == r[idx := r[idx].(textChecksum := Some(checksum))]
  {
    hide RecordFor, OpenSpan, Awaiting;
    var m := Closed(token, Some(checksum));
    EndsGrow(trace, m);
    EndsDistinct(trace, idx);
    forall k | 0 <= k < |Ends(trace)|
      ensures RecordFor(trace + [m], Ends(trace)[k])
           == if k == idx then RecordFor(trace, Ends(trace)[k]).(textChecksum := Some(checksum)) else RecordFor(trace, Ends(trace)[k])
    {
      RecordKept(trace, m, Ends(trace)[k]);
    }
  }

  lemma EndsDistinct(trace: seq<Mark>, idx: nat)
    requires idx < |Ends(trace)|
    ensures forall k :: 0 <= k < |Ends(trace)| && k != idx ==> Ends(trace)[k] != Ends(trace)[idx]
  {
  }

  /** Each event was accepted when it came. */
  ghost predicate AcceptedTrace(trace: seq<Mark>) {
    trace == [] || (AcceptedTrace(trace[..|trace| - 1]) && Accepts(trace[..|trace| - 1], trace[|trace| - 1]))
  }

  lemma AcceptedGrows(trace: seq<Mark>, m: Mark)
    requires AcceptedTrace(trace) && Accepts(trace, m)
    ensures AcceptedTrace(trace + [m])
  {
    hide Accepts;
    assert (trace + [m])[..|trace|] == trace;
  }

  // ----- the recorder

  class TextDeltaRecorder {
    var filePaths: map<Token, Path>
    var pending: map<Token, PendingTextDelta>
    var lastCompleted: map<Token, nat>
    var completed: seq<RecordedTextDelta>
    /** Everything accepted so far. */
    ghost var trace: seq<Mark>

    /** The records are those the trace describes, and each index in use names the right one. */
    ghost predicate Valid()
      reads this
    {
      && PathsMatch(trace, filePaths)
      && PendingMatch(trace, pending)
      && LastMatch(trace, lastCompleted)
      && SpansWhole(trace) && AcceptedTrace(trace)
      && completed == Records(trace)
    }

    constructor ()
      ensures Valid() && trace == []
    {
      filePaths, pending, lastCompleted, completed := map[], map[], map[], [];
      trace := [];
    }

    method TakeCompleted() returns (r: seq<RecordedTextDelta>)
      requires Valid()
      modifies this
      ensures Valid() && trace == old(trace) + [Took]
      ensures r == Records(old(trace)) && completed == []
    {
      hide PathsMatch, PendingMatch, LastMatch, SpansWhole, AcceptedTrace, Records;
      PathsStep(trace, Took, filePaths, filePaths);
      PendingStep(trace, Took, filePaths, pending, pending);
      LastStep(trace, Took, lastCompleted, map[]);
      SpansStep(trace, Took);
      AcceptedGrows(trace, Took);
      RecordsKept(trace, Took);
      lastCompleted := map[];
      r := completed;
      completed := [];
      trace := trace + [Took];
    }

    /** The mark was accepted and recorded, or refused and nothing changed. */
    twostate predicate Follows(new m: Mark, new err: Option<RecorderError>)
      reads this
    {
      && Valid()
      && (err == None <==> Accepts(old(trace), m)) && (err.Some? ==> err.value == RefusalOf(old(trace), m))
      && trace == (if err == None then old(trace) + [m] else old(trace))
      && (err != None ==>
            && filePaths == old(filePaths) && pending == old(pending)
            && lastCompleted == old(lastCompleted) && completed == old(completed))
    }

    method OnEntered(token: Token, path: Path) returns (err: Option<RecorderError>)
      requires Valid()
      modifies this
      ensures Follows(Entered(token, path), err)
    {
      hide PathsMatch, PendingMatch, LastMatch, SpansWhole, AcceptedTrace, Records, PathAt, OpenSpan;
      var m := Entered(token, path);
      PendingKnown(trace, pending, token);
      if token in pending {
        return Some(ReusedToken);
      }
      PathsStep(trace, m, filePaths, filePaths[token := path]);
      PendingStep(trace, m, filePaths, pending, pending);
      LastStep(trace, m, lastCompleted, lastCompleted - {token});
      SpansStep(trace, m);
      AcceptedGrows(trace, m);
      RecordsKept(trace, m);
      lastCompleted := lastCompleted - {token};
      filePaths := filePaths[token := path];
      trace := trace + [m];
      return None;
    }

    method OnBegun(token: Token, base: Option<Checksum>) returns (err: Option<RecorderError>)
      requires Valid()
      modifies this
      ensures Follows(Begun(token, base), err)
    {
      hide PathsMatch, PendingMatch, LastMatch, SpansWhole, AcceptedTrace, Records, PathAt, OpenSpan;
      var m := Begun(token, base);
      PendingKnown(trace, pending, token);
      if token in pending {
        return Some(DuplicateDelta);
      }
      var path := Lookup(filePaths, token);
      var delta := PendingTextDelta(path, base, []);
      PathsStep(trace, m, filePaths, filePaths);
      PendingStep(trace, m, filePaths, pending, pending[token := delta]);
      LastStep(trace, m, lastCompleted, lastCompleted);
      SpansStep(trace, m);
      AcceptedGrows(trace, m);
      RecordsKept(trace, m);
      pending := pending[token := delta];
      trace := trace + [m];
      return None;
    }

    method OnChunk(token: Token, bytes: seq<byte>) returns (err: Option<RecorderError>)
      requires Valid()
      modifies this
      ensures Follows(Chunk(token, bytes), err)
    {
      hide PathsMatch, PendingMatch, LastMatch, SpansWhole, AcceptedTrace, Records, PathAt, OpenSpan;
      var m := Chunk(token, bytes);
      PendingKnown(trace, pending, token);
      if token !in pending {
        return Some(UnknownChunk);
      }
      var delta := pending[token].(chunks := pending[token].chunks + [bytes]);
      PathsStep(trace, m, filePaths, filePaths);
      PendingStep(trace, m, filePaths, pending, pending[token := delta]);
      LastStep(trace, m, lastCompleted, lastCompleted);
      SpansStep(trace, m);
      AcceptedGrows(trace, m);
      RecordsKept(trace, m);
      pending := pending[token := delta];
      trace := trace + [m];
      return None;
    }

    method OnEnded(token: Token) returns (err: Option<RecorderError>)
      requires Valid()
      modifies this
      ensures Follows(Ended(token), err)
    {
      hide PathsMatch, PendingMatch, LastMatch, SpansWhole, AcceptedTrace, Ends, PathAt, OpenSpan, RecordFor, PendingFor;
      var m := Ended(token);
      PendingKnown(trace, pending, token);
      if token !in pending {
        return Some(UnknownEnd);
      }
      var delta := pending[token];
      var record := RecordedTextDelta(delta.path, token, delta.baseChecksum, delta.chunks, None);
      PathsStep(trace, m, filePaths, filePaths);
      PendingStep(trace, m, filePaths, pending, pending - {token});
      LastStep(trace, m, lastCompleted, lastCompleted[token := |completed|]);
      SpansStep(trace, m);
      AcceptedGrows(trace, m);
      RecordsEnded(trace, token);
      pending := pending - {token};
      completed := completed + [record];
      lastCompleted := lastCompleted[token := |completed| - 1];
      trace := trace + [m];
      return None;
    }

    method OnClosed(token: Token, checksum: Option<Checksum>) returns (err: Option<RecorderError>)
      requires Valid()
      modifies this
      ensures Follows(Closed(token, checksum), err)
    {
      hide PathsMatch, PendingMatch, LastMatch, SpansWhole, AcceptedTrace, Ends, PathAt, OpenSpan, RecordFor, Awaiting;
      var m := Closed(token, checksum);
      PathKnown(trace, filePaths, token);
      LastKnown(trace, lastCompleted, token);
      if token !in filePaths {
        return Some(UnknownClose);
      }
      PathsStep(trace, m, filePaths, filePaths - {token});
      PendingStep(trace, m, filePaths, pending, pending);
      LastStep(trace, m, lastCompleted, lastCompleted - {token});
      SpansStep(trace, m);
      AcceptedGrows(trace, m);
      filePaths := filePaths - {token};
      if checksum.Some? && token in lastCompleted && lastCompleted[token] < |completed| {
        var idx := lastCompleted[token];
        RecordsClosed(trace, token, checksum.value, idx);
        completed := completed[idx := completed[idx].(textChecksum := checksum)];
      } else {
        RecordsKept(trace, m);
      }
      lastCompleted := lastCompleted - {token};
      trace := trace + [m];
      return None;
    }

    method OnAborted() returns (err: Option<RecorderError>)
      requires Valid()
      modifies this
      ensures Follows(EditAborted, err)
    {
      hide PathsMatch, PendingMatch, LastMatch, SpansWhole, AcceptedTrace, Records;
      PathsStep(trace, EditAborted, filePaths, map[]);
      PendingStep(trace, EditAborted, filePaths, pending, map[]);
      LastStep(trace, EditAborted, lastCompleted, map[]);
      SpansStep(trace, EditAborted);
      AcceptedGrows(trace, EditAborted);
      RecordsKept(trace, EditAborted);
      filePaths, pending, lastCompleted, completed := map[], map[], map[], [];
      trace := trace + [EditAborted];
      return None;
    }

    method OnFinished() returns (err: Option<RecorderError>)
      requires Valid()
      modifies this
      ensures Follows(EditFinished, err)
    {
      hide PathsMatch, PendingMatch, LastMatch, SpansWhole, AcceptedTrace, Records, Quiet;
      QuietKnown(trace, filePaths, pending);
      UnfinishedFirst(trace, pending);
      if pending != map[] {
        return Some(UnfinishedDelta);
      }
      if filePaths != map[] {
        return Some(UnclosedFile);
      }
      PathsStep(trace, EditFinished, filePaths, filePaths);
      PendingStep(trace, EditFinished, filePaths, pending, pending);
      LastStep(trace, EditFinished, lastCompleted, map[]);
      SpansStep(trace, EditFinished);
      AcceptedGrows(trace, EditFinished);
      RecordsKept(trace, EditFinished);
      lastCompleted := map[];
      trace := trace + [EditFinished];
      return None;
    }

    method OnOther() returns (err: Option<RecorderError>)
      requires Valid()
      modifies this
      ensures Follows(Other, err)
    {
      hide PathsMatch, PendingMatch, LastMatch, SpansWhole, AcceptedTrace, Records;
      PathsStep(trace, Other, filePaths, filePaths);
      PendingStep(trace, Other, filePaths, pending, pending);
      LastStep(trace, Other, lastCompleted, lastCompleted);
      SpansStep(trace, Other);
      AcceptedGrows(trace, Other);
      RecordsKept(trace, Other);
      trace := trace + [Other];
      return None;
    }

    /** Accepts an event and records it, or refuses it and changes nothing. */
    method OnEvent(event: EditorEvent) returns (err: Option<RecorderError>)
      requires Valid()
      modifies this
      ensures Follows(MarkOf(event), err)
    {
      hide Accepts, RefusalOf, PathsMatch, PendingMatch, LastMatch, SpansWhole, AcceptedTrace, Records;
      match event {
        case Received(AddFile(path, _, token, _)) => err := OnEntered(token, path);
        case Received(OpenFile(path, _, token, _)) => err := OnEntered(token, path);
        case Received(ApplyTextDelta(token, base)) => err := OnBegun(token, base);
        case Received(TextDeltaChunk(token, chunk)) => err := OnChunk(token, chunk);
        case Received(TextDeltaEnd(token)) => err := OnEnded(token);
        case Received(CloseFile(token, checksum)) => err := OnClosed(token, checksum);
        case Received(AbortEdit) => err := OnAborted();
        case Received(CloseEdit) => err := OnFinished();
        case FinishReplay => err := OnFinished();
        case _ => err := OnOther();
      }
    }
  }

  lemma PendingKnown(trace: seq<Mark>, pending: map<Token, PendingTextDelta>, token: Token)
    requires PendingMatch(trace, pending)
    ensures token in pending <==> OpenSpan(trace, token).Some?
    ensures PendingFor(trace, token) == Lookup(pending, token)
  {
    hide OpenSpan;
    assert PendingFor(trace, token) == Lookup(pending, token);
  }

  lemma PathKnown(trace: seq<Mark>, paths: map<Token, Path>, token: Token)
    requires PathsMatch(trace, paths)
    ensures token in paths <==> PathAt(trace, token).Some?
  {
    hide PathAt;
    assert PathAt(trace, token) == Lookup(paths, token);
  }

  lemma LastKnown(trace: seq<Mark>, last: map<Token, nat>, token: Token)
    requires LastMatch(trace, last)
    ensures token in last <==> Awaiting(trace, token).Some?
    ensures token in last ==> last[token] < |Ends(trace)| && Awaiting(trace, token) == Some(Ends(trace)[last[token]])
  {
    hide Awaiting, Ends;
  }

  lemma QuietKnown(trace: seq<Mark>, paths: map<Token, Path>, pending: map<Token, PendingTextDelta>)
    requires PathsMatch(trace, paths) && PendingMatch(trace, pending)
    ensures Quiet(trace) <==> pending == map[] && paths == map[]
  {
    hide PathAt, OpenSpan, PendingMatch, PathsMatch;
    forall token ensures (token in pending <==> OpenSpan(trace, token).Some?) && (token in paths <==> PathAt(trace, token).Some?) {
      PendingKnown(trace, pending, token);
      PathKnown(trace, paths, token);
    }
    if Quiet(trace) {
      assert forall token :: token in pending ==> OpenSpan(trace, token).Some?;
      assert forall token :: token in paths ==> PathAt(trace, token).Some?;
      assert pending.Keys == {} && paths.Keys == {};
    }
  }

  lemma UnfinishedFirst(trace: seq<Mark>, pending: map<Token, PendingTextDelta>)
    requires PendingMatch(trace, pending)
    ensures RefusalOf(trace, EditFinished) == if pending != map[] then UnfinishedDelta else UnclosedFile
  {
    hide OpenSpan, PendingMatch;
    if pending != map[] {
      assert pending.Keys != {};
      var token :| token in pending.Keys;
      PendingKnown(trace, pending, token);
    } else if token :| OpenSpan(trace, token).Some? {
      PendingKnown(trace, pending, token);
    }
  }

  // ----- what the trace says about a record

  /** A checksum comes from a close of the record's own use of its token: nothing that ends that use lies between. */
  lemma {:induction false} ChecksumIsOwn(trace: seq<Mark>, end: nat) returns (close: nat)
    requires end < |trace| && trace[end].Ended? && ChecksumFor(trace, end).Some?
    ensures end < close < |trace| && trace[close] == Closed(trace[end].token, ChecksumFor(trace, end))
    ensures Awaiting(trace[..close], trace[end].token) == Some(end)
    ensures forall j :: end < j < close ==> !EndsUse(trace[j], trace[end].token)
    decreases |trace|
  {
    hide Awaiting, EndsUse;
    var before, m := trace[..|trace| - 1], trace[|trace| - 1];
    if m.Closed? && m.checksum.Some? && Awaiting(before, m.token) == Some(end) {
      close := |trace| - 1;
      assert before[end] == trace[end];
      AwaitedSince(before, m.token, end);
    } else {
      close := ChecksumIsOwn(before, end);
      assert before[..close] == trace[..close];
    }
  }

  /** After this the token's last record can no longer be completed. */
  predicate EndsUse(m: Mark, token: Token) {
    match m
    case Entered(t, _) => t == token
    case Ended(t) => t == token
    case Closed(t, _) => t == token
    case EditAborted => true
    case EditFinished => true
    case Took => true
    case _ => false
  }

  lemma {:induction false} AwaitedSince(trace: seq<Mark>, token: Token, end: nat)
    requires Awaiting(trace, token) == Some(end)
    ensures end < |trace| && trace[end] == Ended(token)
    ensures forall j :: end < j < |trace| ==> !EndsUse(trace[j], token)
    decreases |trace|
  {
    var before, m := trace[..|trace| - 1], trace[|trace| - 1];
    if !EndsUse(m, token) {
      AwaitedSince(before, token, end);
      assert forall j :: 0 <= j < |before| ==> before[j] == trace[j];
    }
  }

  // ----- interleaving

  predicate Concerns(m: Mark, token: Token) {
    match m
    case Entered(t, _) => t == token
    case Begun(t, _) => t == token
    case Chunk(t, _) => t == token
    case Ended(t) => t == token
    case Closed(t, _) => t == token
    case _ => true
  }

  /** The trace as one token sees it. */
  function Project(trace: seq<Mark>, token: Token): seq<Mark> {
    if trace == [] then []
    else
      var before, m := Project(trace[..|trace| - 1], token), trace[|trace| - 1];
      if Concerns(m, token) then before + [m] else before
  }

  function Own(records: seq<RecordedTextDelta>, token: Token): seq<RecordedTextDelta> {
    if records == [] then []
    else
      var before, r := Own(records[..|records| - 1], token), records[|records| - 1];
      if r.fileToken == token then before + [r] else before
  }

  lemma OwnSnoc(records: seq<RecordedTextDelta>, r: RecordedTextDelta, token: Token)
    ensures Own(records + [r], token) == if r.fileToken == token then Own(records, token) + [r] else Own(records, token)
  {
    assert (records + [r])[..|records|] == records;
  }

  /** Changing another token's record does not show. */
  lemma {:induction false} OwnElsewhere(records: seq<RecordedTextDelta>, idx: nat, r: RecordedTextDelta, token: Token)
    requires idx < |records| && records[idx].fileToken != token && r.fileToken != token
    ensures Own(records[idx := r], token) == Own(records, token)
    decreases |records|
  {
    var n := |records| - 1;
    if idx < n {
      assert records[idx := r][..n] == records[..n][idx := r];
      OwnElsewhere(records[..n], idx, r, token);
    } else {
      assert records[idx := r][..n] == records[..n];
    }
  }

  /** Changing the token's last record changes its last record. */
  lemma {:induction false} OwnLast(records: seq<RecordedTextDelta>, idx: nat, r: RecordedTextDelta, token: Token)
    requires idx < |records| && records[idx].fileToken == token && r.fileToken == token
    requires forall k :: idx < k < |records| ==> records[k].fileToken != token
    ensures Own(records, token) != [] && Own(records, token)[|Own(records, token)| - 1] == records[idx]
    ensures Own(records[idx := r], token) == Own(records, token)[|Own(records, token)| - 1 := r]
    decreases |records|
  {
    hide Own;
    var n := |records| - 1;
    var before, last := records[..n], records[n];
    assert records == before + [last];
    OwnSnoc(before, last, token);
    if idx < n {
      assert records[idx := r] == before[idx := r] + [last];
      OwnSnoc(before[idx := r], last, token);
      OwnLast(before, idx, r, token);
    } else {
      assert records[idx := r] == before + [r];
      OwnSnoc(before, r, token);
    }
  }

  /** The record a token's close would complete is the token's last one. */
  ghost predicate AwaitsLast(trace: seq<Mark>, token: Token) {
    Awaiting(trace, token).Some? ==> exists idx :: AwaitedAt(trace, token, idx)
  }

  ghost predicate AwaitedAt(trace: seq<Mark>, token: Token, idx: nat) {
    && idx < |Ends(trace)| && Awaiting(trace, token) == Some(Ends(trace)[idx])
    && forall k :: idx < k < |Ends(trace)| ==> trace[Ends(trace)[k]].token != token
  }

  lemma AwaitsLastStep(trace: seq<Mark>, m: Mark, token: Token)
    requires AwaitsLast(trace, token)
    ensures AwaitsLast(trace + [m], token)
  {
    hide Awaiting, Ends, AwaitedAt;
    AwaitingGrows(trace, m, token);
    var t' := trace + [m];
    if Awaiting(t', token).Some? {
      if m.Ended? && m.token == token {
        EndAwaited(trace, m);
      } else {
        var idx :| AwaitedAt(trace, token, idx);
        StillAwaited(trace, m, token, idx);
      }
    }
  }

  lemma EndAwaited(trace: seq<Mark>, m: Mark)
    requires m.Ended?
    ensures AwaitedAt(trace + [m], m.token, |Ends(trace)|)
  {
    hide Awaiting, Ends;
    AwaitingGrows(trace, m, m.token);
    EndsGrow(trace, m);
  }

  lemma StillAwaited(trace: seq<Mark>, m: Mark, token: Token, idx: nat)
    requires AwaitedAt(trace, token, idx) && Awaiting(trace + [m], token).Some? && !(m.Ended? && m.token == token)
    ensures AwaitedAt(trace + [m], token, idx)
  {
    hide Awaiting, Ends;
    AwaitingGrows(trace, m, token);
    EndsGrow(trace, m);
  }

  /** What is kept while a trace and its projection grow together. */
  ghost predicate Alike(trace: seq<Mark>, p: seq<Mark>, token: Token) {
    && PathAt(p, token) == PathAt(trace, token) && PendingFor(p, token) == PendingFor(trace, token)
    && (Awaiting(p, token).None? <==> Awaiting(trace, token).None?)
    && Records(p) == Own(Records(trace), token)
  }

  ghost predicate Sound(trace: seq<Mark>) {
    SpansWhole(trace) && forall t :: AwaitsLast(trace, t)
  }

  lemma {:induction false} AcceptedSound(trace: seq<Mark>)
    requires AcceptedTrace(trace)
    ensures Sound(trace)
    decreases |trace|
  {
    hide Awaiting, Ends, AwaitsLast, SpansWhole;
    if trace == [] {
      EmptySound();
    } else {
      var before, m := trace[..|trace| - 1], trace[|trace| - 1];
      assert trace == before + [m];
      AcceptedSound(before);
      SoundGrows(before, m);
    }
  }

  lemma EmptySound()
    ensures Sound([])
  {
  }

  lemma SoundGrows(trace: seq<Mark>, m: Mark)
    requires Sound(trace) && (m.Ended? ==> OpenSpan(trace, m.token).Some?)
    ensures Sound(trace + [m])
  {
    hide Awaiting, Ends, AwaitsLast, SpansWhole;
    SpansStep(trace, m);
    forall t ensures AwaitsLast(trace + [m], t) {
      AwaitsLastStep(trace, m, t);
    }
  }

  lemma RecordTokens(trace: seq<Mark>, k: nat)
    requires k < |Ends(trace)|
    ensures Records(trace)[k].fileToken == trace[Ends(trace)[k]].token
  {
    hide OpenSpan, Ends, PathAt, ChunksOf, ChecksumFor;
  }

  /** An event that is another token's does not show. */
  lemma OthersHidden(trace: seq<Mark>, m: Mark, token: Token)
    requires Sound(trace) && Accepts(trace, m) && !Concerns(m, token)
    ensures Own(Records(trace + [m]), token) == Own(Records(trace), token)
  {
    hide Records, Ends, Awaiting, SpansWhole, AwaitsLast, PendingFor, Own;
    if m.Ended? {
      SpanPending(trace, m.token);
      RecordsEnded(trace, m.token);
      var p := PendingFor(trace, m.token).value;
      OwnSnoc(Records(trace), RecordedTextDelta(p.path, m.token, p.baseChecksum, p.chunks, None), token);
    } else if m.Closed? && m.checksum.Some? && Awaiting(trace, m.token).Some? {
      var idx := AwaitedIndex(trace, m.token);
      RecordsClosed(trace, m.token, m.checksum.value, idx);
      RecordCount(trace);
      RecordTokens(trace, idx);
      OwnElsewhere(Records(trace), idx, Records(trace)[idx].(textChecksum := m.checksum), token);
    } else {
      RecordsKept(trace, m);
    }
  }

  lemma SpanPending(trace: seq<Mark>, token: Token)
    ensures PendingFor(trace, token).Some? <==> OpenSpan(trace, token).Some?
  {
    hide OpenSpan;
  }

  lemma RecordCount(trace: seq<Mark>)
    ensures |Records(trace)| == |Ends(trace)|
  {
    hide RecordFor, Ends;
  }

  lemma AwaitedIndex(trace: seq<Mark>, token: Token) returns (idx: nat)
    requires AwaitsLast(trace, token) && Awaiting(trace, token).Some?
    ensures AwaitedAt(trace, token, idx) && idx < |Ends(trace)| && trace[Ends(trace)[idx]] == Ended(token)
  {
    hide Awaiting, Ends;
    idx :| AwaitedAt(trace, token, idx);
  }

  /** A close of the token completes the last of its records, in the trace and in its projection alike. */
  lemma OwnClosed(trace: seq<Mark>, p: seq<Mark>, token: Token, checksum: Checksum)
    requires Sound(trace) && Sound(p) && Alike(trace, p, token) && Awaiting(trace, token).Some?
    ensures var m := Closed(token, Some(checksum)); Records(p + [m]) == Own(Records(trace + [m]), token)
  {
    hide Records, Ends, Awaiting, SpansWhole, AwaitsLast, PendingFor, Own, PathAt;
    var m := Closed(token, Some(checksum));
    var i := LastOwn(trace, token);
    var j := LastOwn(p, token);
    RecordsClosed(trace, token, checksum, i);
    RecordsClosed(p, token, checksum, j);
    var r := Records(trace)[i].(textChecksum := Some(checksum));
    OwnLast(Records(trace), i, r, token);
    OwnOfOwn(Records(trace), token);
    var q := Records(p)[j].(textChecksum := Some(checksum));
    OwnLast(Records(p), j, q, token);
    assert Own(Records(p), token) == Records(p);
    OwnAll(Records(p), j, token);
  }

  lemma LastOwn(trace: seq<Mark>, token: Token) returns (idx: nat)
    requires Sound(trace) && Awaiting(trace, token).Some?
    ensures idx < |Ends(trace)| && idx < |Records(trace)| && Awaiting(trace, token) == Some(Ends(trace)[idx])
    ensures Records(trace)[idx].fileToken == token
    ensures forall k :: idx < k < |Records(trace)| ==> Records(trace)[k].fileToken != token
  {
    hide Records, Ends, Awaiting, SpansWhole, AwaitsLast;
    idx := AwaitedIndex(trace, token);
    RecordCount(trace);
    RecordTokens(trace, idx);
    forall k | idx < k < |Records(trace)| ensures Records(trace)[k].fileToken != token {
      RecordTokens(trace, k);
    }
  }

  lemma {:induction false} OwnOfOwn(records: seq<RecordedTextDelta>, token: Token)
    ensures Own(Own(records, token), token) == Own(records, token)
    ensures forall k :: 0 <= k < |Own(records, token)| ==> Own(records, token)[k].fileToken == token
    decreases |records|
  {
    if records != [] {
      var before, r := records[..|records| - 1], records[|records| - 1];
      OwnOfOwn(before, token);
      OwnSnoc(Own(before, token), r, token);
    }
  }

  /** In a list of one token's records, the last of its own is the last. */
  lemma OwnAll(records: seq<RecordedTextDelta>, idx: nat, token: Token)
    requires idx < |records| && forall k :: idx < k < |records| ==> records[k].fileToken != token
    requires Own(records, token) == records
    ensures idx == |records| - 1
  {
    OwnOfOwn(records, token);
    assert records[|records| - 1].fileToken == token;
  }

  lemma OwnGrows(trace: seq<Mark>, p: seq<Mark>, m: Mark, token: Token)
    requires Sound(trace) && Sound(p) && Alike(trace, p, token) && Accepts(trace, m) && Concerns(m, token)
    ensures Records(p + [m]) == Own(Records(trace + [m]), token)
  {
    hide Records, Ends, Awaiting, SpansWhole, AwaitsLast, PendingFor, Own, PathAt;
    if m.Ended? {
      SpanPending(trace, token);
      RecordsEnded(trace, token);
      RecordsEnded(p, token);
      var d := PendingFor(trace, token).value;
      OwnSnoc(Records(trace), RecordedTextDelta(d.path, token, d.baseChecksum, d.chunks, None), token);
    } else if m.Closed? && m.checksum.Some? && Awaiting(trace, token).Some? {
      OwnClosed(trace, p, token, m.checksum.value);
    } else {
      RecordsKept(trace, m);
      RecordsKept(p, m);
      NothingOwn(token);
    }
  }

  lemma NothingOwn(token: Token)
    ensures Own([], token) == []
  {
  }

  lemma AlikeGrows(trace: seq<Mark>, p: seq<Mark>, m: Mark, token: Token)
    requires Sound(trace) && Sound(p) && Alike(trace, p, token) && Accepts(trace, m)
    ensures if Concerns(m, token) then Sound(p + [m]) && Alike(trace + [m], p + [m], token) else Alike(trace + [m], p, token)
  {
    hide Records, Ends, Awaiting, SpansWhole, AwaitsLast, PendingFor, Own, PathAt, Sound;
    TraceGrows(trace, m, token);
    PendingGrows(trace, m, token);
    AwaitingGrows(trace, m, token);
    if Concerns(m, token) {
      TraceGrows(p, m, token);
      PendingGrows(p, m, token);
      AwaitingGrows(p, m, token);
      SpanPending(trace, token);
      SpanPending(p, token);
      SoundGrows(p, m);
      OwnGrows(trace, p, m, token);
    } else {
      OthersHidden(trace, m, token);
    }
  }

  /**
   However the events of several files are interleaved, the records of one token are those of the
   trace with every other token's events struck out.
   */
  lemma {:induction false} Interleaving(trace: seq<Mark>, token: Token)
    requires AcceptedTrace(trace)
    ensures Alike(trace, Project(trace, token), token) && Sound(Project(trace, token))
    decreases |trace|
  {
    hide Records, Alike, Sound, Accepts;
    if trace == [] {
      EmptySound();
      EmptyAlike(token);
    } else {
      var before, m := trace[..|trace| - 1], trace[|trace| - 1];
      assert trace == before + [m];
      Interleaving(before, token);
      AcceptedSound(before);
      AlikeGrows(before, Project(before, token), m, token);
    }
  }

  lemma EmptyAlike(token: Token)
    ensures Alike([], [], token)
  {
  }
}
