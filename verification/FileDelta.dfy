/** Sending one file's contents as a streamed text delta, read by read. */
module FileDelta {
  import opened Bytes
  import opened SvndiffFormat
  import opened Sections
  import opened Encoder
  import opened DirChain
  import opened EditorCommands
  import opened TreeEditor
  import opened Drives

  const CHUNK_LEN := 64 * 1024

  /** What is sent of a delta at a time: 64 KiB, and what is left at the end. */
  lemma {:induction false} ChunksFull(delta: seq<byte>)
    ensures var chunks := Chunks(delta, CHUNK_LEN);
      && Flatten(chunks) == delta
      && forall k :: 0 <= k < |chunks| ==> if k < |chunks| - 1 then |chunks[k]| == 65536 else 0 < |chunks[k]| <= 65536
    decreases |delta|
  {
    if |delta| >= CHUNK_LEN { ChunksFull(delta[CHUNK_LEN..]); }
  }

  // ----- what the reader delivers

  /** What successive reads into a buffer of `size` bytes return: each run of bytes, cut to the buffer. */
  function Delivered(runs: seq<seq<byte>>, size: nat): seq<seq<byte>>
    requires size > 0
  {
    if runs == [] then [] else Chunks(runs[0], size) + Delivered(runs[1..], size)
  }

  /** The windows sent; an empty file still gets one. */
  function WindowsOf(runs: seq<seq<byte>>, size: nat): seq<seq<byte>>
    requires size > 0
  {
    if Delivered(runs, size) == [] then [[]] else Delivered(runs, size)
  }

  lemma {:induction false} DeliveredWhole(runs: seq<seq<byte>>, size: nat)
    requires size > 0
    ensures Flatten(Delivered(runs, size)) == Flatten(runs)
    ensures forall k :: 0 <= k < |Delivered(runs, size)| ==> 0 < |Delivered(runs, size)[k]| <= size
  {
    if runs != [] {
      DeliveredWhole(runs[1..], size);
      FlattenAppend(Chunks(runs[0], size), Delivered(runs[1..], size));
    }
  }

  lemma WindowsWhole(runs: seq<seq<byte>>, size: nat)
    requires size > 0
    ensures Flatten(WindowsOf(runs, size)) == Flatten(runs)
    ensures forall k :: 0 <= k < |WindowsOf(runs, size)| ==> |WindowsOf(runs, size)[k]| <= size
  {
    DeliveredWhole(runs, size);
    FlattenOne([]);
  }

  /** One read: at most `limit` bytes of the next run; nothing at the end. */
  method Read(pending: seq<seq<byte>>, limit: nat) returns (data: seq<byte>, rest: seq<seq<byte>>)
    requires limit > 0 && forall r :: r in pending ==> r != []
    ensures data == [] <==> pending == []
    ensures |data| <= limit && forall r :: r in rest ==> r != []
    ensures pending == [] ==> rest == [] && Delivered(pending, limit) == []
    ensures pending != [] ==>
      && Delivered(pending, limit) == [data] + Delivered(rest, limit)
      && |data| + |Flatten(rest)| == |Flatten(pending)|
  {
    if pending == [] {
      return [], [];
    }
    var run := pending[0];
    assert run in pending && pending == [run] + pending[1..];
    if |run| <= limit {
      data, rest := run, pending[1..];
      assert forall r :: r in rest ==> r in pending;
      ReadWhole(run, limit);
    } else {
      data, rest := run[..limit], [run[limit..]] + pending[1..];
      assert forall r :: r in rest ==> r == run[limit..] || r in pending;
      ReadPart(run, pending[1..], limit);
    }
  }

  lemma ReadWhole(run: seq<byte>, limit: nat)
    requires 0 < |run| <= limit
    ensures Chunks(run, limit) == [run]
  {
    assert run[..|run|] == run;
    if |run| == limit {
      assert Chunks(run[limit..], limit) == [];
    }
  }

  lemma ReadPart(run: seq<byte>, others: seq<seq<byte>>, limit: nat)
    requires 0 < limit < |run|
    ensures Delivered([run] + others, limit) == [run[..limit]] + Delivered([run[limit..]] + others, limit)
    ensures Delivered([run] + others, limit) == Chunks(run, limit) + Delivered(others, limit)
    ensures Flatten([run[limit..]] + others) == run[limit..] + Flatten(others)
  {
    assert ([run] + others)[1..] == others && ([run[limit..]] + others)[1..] == others;
  }

  // ----- the encoder's stream, window by window

  lemma {:induction false} WindowsSnoc(codecs: Codecs, version: Version, level: nat, done: seq<seq<byte>>, data: seq<byte>)
    ensures EncodedWindows(codecs, version, level, done + [data])
         == EncodedWindows(codecs, version, level, done) + EncodedWindow(codecs, version, level, data)
  {
    hide EncodedWindow;
    if done == [] {
      assert done + [data] == [data] && [data][1..] == [];
      assert EncodedWindows(codecs, version, level, [data]) == EncodedWindow(codecs, version, level, data) + [];
    } else {
      assert (done + [data])[1..] == done[1..] + [data];
      WindowsSnoc(codecs, version, level, done[1..], data);
    }
  }

  /** The chunks sent for these windows: each window encoded, the first behind the stream header, and cut up. */
  function SentChunks(codecs: Codecs, version: Version, level: nat, windows: seq<seq<byte>>): seq<seq<byte>> {
    if windows == [] then []
    else
      var before, data := windows[..|windows| - 1], windows[|windows| - 1];
      SentChunks(codecs, version, level, before)
      + Chunks((if before == [] then HeaderOfVersion(version) else []) + EncodedWindow(codecs, version, level, data), CHUNK_LEN)
  }

  lemma SentGrows(codecs: Codecs, version: Version, level: nat, done: seq<seq<byte>>, data: seq<byte>)
    ensures SentChunks(codecs, version, level, done + [data])
         == SentChunks(codecs, version, level, done)
            + Chunks((if done == [] then HeaderOfVersion(version) else []) + EncodedWindow(codecs, version, level, data), CHUNK_LEN)
  {
    hide EncodedWindow, Chunks;
    assert (done + [data])[..|done|] == done;
  }

  /** Together the chunks are the encoder's stream. */
  lemma {:induction false} SentIsStream(codecs: Codecs, version: Version, level: nat, windows: seq<seq<byte>>)
    requires windows != []
    ensures Flatten(SentChunks(codecs, version, level, windows)) == EncodedStream(codecs, version, level, windows)
    decreases |windows|
  {
    hide EncodedWindow, EncodedWindows, Chunks, SentChunks, Flatten, HeaderOfVersion;
    var before, data := windows[..|windows| - 1], windows[|windows| - 1];
    assert windows == before + [data];
    var piece := (if before == [] then HeaderOfVersion(version) else []) + EncodedWindow(codecs, version, level, data);
    SentGrows(codecs, version, level, before, data);
    FlattenAppend(SentChunks(codecs, version, level, before), Chunks(piece, CHUNK_LEN));
    WindowsSnoc(codecs, version, level, before, data);
    NoWindows(codecs, version, level);
    if before == [] {
      NothingSent(codecs, version, level, []);
    } else {
      SentIsStream(codecs, version, level, before);
      Regroup(HeaderOfVersion(version), EncodedWindows(codecs, version, level, before), EncodedWindow(codecs, version, level, data));
    }
  }

  // ----- sending it

  /** The content while the delta of the open file has come as far as `sent`. */
  function Receiving(x: Option<Content>, sent: seq<seq<byte>>): Option<Content> {
    if x.None? then None else Some(x.value.(delta := Some(sent)))
  }

  lemma ChunkSent(codecs: Codecs, base: Repo, cmds: seq<EditorCommand>, n: Nest, x: Option<Content>, sent: seq<seq<byte>>,
                  start: seq<Action>, token: Token, chunk: seq<byte>)
    requires InFile(n, token) && At(codecs, base, cmds, n, Receiving(x, sent))
    requires Actions(cmds) == start + ChunkActions(n.file.value.path, sent)
    ensures var c := TextDeltaChunk(token, chunk);
      && At(codecs, base, cmds + [c], n, Receiving(x, sent + [chunk]))
      && DirsOpened(cmds + [c]) == DirsOpened(cmds)
      && Actions(cmds + [c]) == start + ChunkActions(n.file.value.path, sent + [chunk])
  {
    hide At, DirsOpened, Actions, ChunkActions;
    var path := n.file.value.path;
    AtSent(codecs, base, cmds, n, Receiving(x, sent), TextDeltaChunk(token, chunk));
    DirsOpenedSent(cmds, TextDeltaChunk(token, chunk));
    ActionsSent(codecs, base, cmds, n, Receiving(x, sent), TextDeltaChunk(token, chunk));
    ChunkActionsSnoc(path, sent, chunk);
    Regroup(start, ChunkActions(path, sent), [DeltaChunk(path, chunk)]);
  }

  /** Sends a piece of the delta in chunks of bounded size. */
  method SendChunks(drive: Drive, token: Token, delta: seq<byte>, ghost codecs: Codecs, ghost base: Repo, ghost n: Nest,
                    ghost x: Option<Content>, ghost start: seq<Action>, ghost sent0: seq<seq<byte>>)
    returns (ghost sent: seq<seq<byte>>)
    requires InFile(n, token) && At(codecs, base, drive.commands, n, Receiving(x, sent0))
    requires Actions(drive.commands) == start + ChunkActions(n.file.value.path, sent0)
    modifies drive
    ensures At(codecs, base, drive.commands, n, Receiving(x, sent)) && sent == sent0 + Chunks(delta, CHUNK_LEN)
    ensures Actions(drive.commands) == start + ChunkActions(n.file.value.path, sent)
    ensures DirsOpened(drive.commands) == old(DirsOpened(drive.commands))
  {
    hide At, DirsOpened, Actions, ChunkActions, Receiving, Chunks;
    var rest := delta;
    sent := sent0;
    while rest != []
      invariant At(codecs, base, drive.commands, n, Receiving(x, sent))
      invariant sent + Chunks(rest, CHUNK_LEN) == sent0 + Chunks(delta, CHUNK_LEN)
      invariant Actions(drive.commands) == start + ChunkActions(n.file.value.path, sent)
      invariant DirsOpened(drive.commands) == old(DirsOpened(drive.commands))
      decreases |rest|
    {
      var len := if |rest| < CHUNK_LEN then |rest| else CHUNK_LEN;
      var chunk := rest[..len];
      ChunkSent(codecs, base, drive.commands, n, x, sent, start, token, chunk);
      ChunksUnfold(rest);
      Regroup(sent, [chunk], Chunks(rest[len..], CHUNK_LEN));
      drive.Send(TextDeltaChunk(token, chunk));
      sent := sent + [chunk];
      rest := rest[len..];
    }
    assert sent + [] == sent;
  }

  lemma ChunksUnfold(rest: seq<byte>)
    requires rest != []
    ensures var len := if |rest| < CHUNK_LEN then |rest| else CHUNK_LEN;
      Chunks(rest, CHUNK_LEN) == [rest[..len]] + Chunks(rest[len..], CHUNK_LEN)
  {
  }

  /** Encodes one window, behind the stream header if it is the first, and sends it. */
  method SendWindow(drive: Drive, token: Token, data: seq<byte>, codecs: Codecs, version: Version, level: nat, first: bool,
                    ghost base: Repo, ghost n: Nest, ghost x: Option<Content>, ghost start: seq<Action>, ghost done: seq<seq<byte>>)
    requires |data| < MAX_SLICE_LEN && (first <==> done == [])
    requires InFile(n, token) && At(codecs, base, drive.commands, n, Receiving(x, SentChunks(codecs, version, level, done)))
    requires Actions(drive.commands) == start + ChunkActions(n.file.value.path, SentChunks(codecs, version, level, done))
    modifies drive
    ensures At(codecs, base, drive.commands, n, Receiving(x, SentChunks(codecs, version, level, done + [data])))
    ensures Actions(drive.commands) == start + ChunkActions(n.file.value.path, SentChunks(codecs, version, level, done + [data]))
    ensures DirsOpened(drive.commands) == old(DirsOpened(drive.commands))
  {
    hide At, DirsOpened, Actions, ChunkActions, Receiving, EncodedWindow, SentChunks, Chunks;
    var delta := new OutBuf();
    if first {
      delta.Extend(HeaderOfVersion(version));
    }
    EncodeInsertionWindow(codecs, version, data, level, delta);
    SentGrows(codecs, version, level, done, data);
    assert delta.bytes == (if first then HeaderOfVersion(version) else []) + EncodedWindow(codecs, version, level, data);
    ghost var sent := SendChunks(drive, token, delta.bytes, codecs, base, n, x, start, SentChunks(codecs, version, level, done));
  }

  /** Sends everything the reader delivers, one window a read, or a single empty window. */
  method SendContents(drive: Drive, token: Token, runs: seq<seq<byte>>, codecs: Codecs, version: Version, level: nat, size: nat,
                      ghost base: Repo, ghost n: Nest, ghost x: Option<Content>, ghost start: seq<Action>)
    requires 0 < size < MAX_SLICE_LEN && forall r :: r in runs ==> r != []
    requires InFile(n, token) && At(codecs, base, drive.commands, n, Receiving(x, []))
    requires Actions(drive.commands) == start
    modifies drive
    ensures At(codecs, base, drive.commands, n, Receiving(x, SentChunks(codecs, version, level, WindowsOf(runs, size))))
    ensures Actions(drive.commands)
         == start + ChunkActions(n.file.value.path, SentChunks(codecs, version, level, WindowsOf(runs, size)))
    ensures DirsOpened(drive.commands) == old(DirsOpened(drive.commands))
  {
    hide At, DirsOpened, Actions, ChunkActions, Receiving, EncodedWindow, Delivered, SentChunks;
    NothingSent(codecs, version, level, n.file.value.path);
    assert start + [] == start;
    var pending := runs;
    var any, firstWindow := false, true;
    ghost var done: seq<seq<byte>> := [];
    var data;
    data, pending := Read(pending, size);
    assert [] + Delivered(runs, size) == Delivered(runs, size);
    while data != []
      invariant |data| <= size && forall r :: r in pending ==> r != []
      invariant any == (done != []) && firstWindow == (done == [])
      invariant done + (if data == [] then [] else [data] + Delivered(pending, size)) == Delivered(runs, size)
      invariant At(codecs, base, drive.commands, n, Receiving(x, SentChunks(codecs, version, level, done)))
      invariant Actions(drive.commands) == start + ChunkActions(n.file.value.path, SentChunks(codecs, version, level, done))
      invariant DirsOpened(drive.commands) == old(DirsOpened(drive.commands))
      decreases |data| + |Flatten(pending)|
    {
      any := true;
      SendWindow(drive, token, data, codecs, version, level, firstWindow, base, n, x, start, done);
      firstWindow := false;
      Regroup(done, [data], Delivered(pending, size));
      done := done + [data];
      assert done + [] == done;
      data, pending := Read(pending, size);
    }
    assert done == Delivered(runs, size);
    if !any {
      assert done + [[]] == [[]];
      SendWindow(drive, token, [], codecs, version, level, true, base, n, x, start, done);
    }
  }

  lemma NothingSent(codecs: Codecs, version: Version, level: nat, path: Path)
    ensures SentChunks(codecs, version, level, []) == [] && ChunkActions(path, []) == []
    ensures Flatten(SentChunks(codecs, version, level, [])) == [] && EncodedWindows(codecs, version, level, []) == []
  {
  }
}
