/** The in-memory commit builder: from checked tasks and plans to a list of editor commands. */
module CommitBuilder {
  import opened Bytes
  import opened Sections
  import opened Encoder
  import opened Paths
  import opened DirChain
  import opened EditorCommands
  import opened TreeEditor
  import opened Drives
  import opened Walks
  import Applier
  import FileDelta

  datatype PropChange = PropChange(name: seq<byte>, value: Option<seq<byte>>)

  /** A copy names its source by URL. */
  datatype FileAction = Put(contents: seq<byte>) | Copy(fromPath: seq<byte>, fromRev: u64)

  datatype ResolvedFile = ResolvedFile(path: Path, present: bool, action: Option<FileAction>, props: seq<PropChange>)

  datatype Task = DirTask(path: Path) | FileTask(path: Path) | DeleteTask(path: Path)

  /** What the checks before the drive have settled: how to enter each directory, and what to do with it and with each file. */
  datatype Plan = Plan(dirs: map<Path, DirPlan>, dirProps: map<Path, seq<PropChange>>, files: map<Path, ResolvedFile>)

  datatype BuildError = MissingDirectoryPlan | MissingFilePlan

  /** The directory that must be open for a task. */
  function Target(t: Task): Path {
    if t.DirTask? then t.path else ParentDir(t.path)
  }

  /** The directory open once the tasks are done. */
  function Current(tasks: seq<Task>): Path {
    if tasks == [] then [] else Target(tasks[|tasks| - 1])
  }

  function TargetsOf(tasks: seq<Task>): seq<Path> {
    if tasks == [] then [] else TargetsOf(tasks[..|tasks| - 1]) + [Target(tasks[|tasks| - 1])]
  }

  predicate ProperTask(t: Task) {
    Relative(t.path) || (t.DirTask? && t.path == [])
  }

  predicate ProperPlan(plan: Plan) {
    forall p :: p in plan.files ==>
      && plan.files[p].path == p
      && (plan.files[p].action.Some? && plan.files[p].action.value.Put? ==> |plan.files[p].action.value.contents| < MAX_SLICE_LEN)
  }

  // ----- what the tasks ask for

  function PropActions(t: Task, props: seq<PropChange>): seq<Action> {
    if props == [] then []
    else
      var p := props[|props| - 1];
      PropActions(t, props[..|props| - 1])
      + [if t.DirTask? then DirPropSet(t.path, p.name, p.value) else FilePropSet(t.path, p.name, p.value)]
  }

  /** The delta that carries a full text: the encoder's stream, in chunks. */
  function DeltaOf(s: Settings, contents: seq<byte>): seq<seq<byte>> {
    Chunks(EncodedStream(s.codecs, s.version, s.level, Pieces(contents, s.windowSize)), FileDelta.CHUNK_LEN)
  }

  function EntryAction(s: Settings, f: ResolvedFile): Action {
    match f.action
    case Some(Copy(fromPath, fromRev)) => FileAdded(f.path, Some((fromPath, fromRev)))
    case Some(Put(_)) => if f.present then FileOpened(f.path, s.baseRev) else FileAdded(f.path, None)
    case None => if f.present then FileOpened(f.path, s.baseRev) else FileAdded(f.path, None)
  }

  function TextActions(s: Settings, f: ResolvedFile): seq<Action> {
    match f.action
    case Some(Put(contents)) => [DeltaBegun(f.path, None)] + ChunkActions(f.path, DeltaOf(s, contents)) + [DeltaEnded(f.path)]
    case Some(Copy(_, _)) => []
    case None => []
  }

  function TaskActions(s: Settings, plan: Plan, t: Task): seq<Action> {
    match t
    case DirTask(path) => if path in plan.dirProps then PropActions(t, plan.dirProps[path]) else []
    case DeleteTask(path) => [Deleted(path, s.baseRev)]
    case FileTask(path) =>
      if path !in plan.files then []
      else
        var f := plan.files[path];
        [EntryAction(s, f)] + TextActions(s, f) + PropActions(t, f.props) + [FileClosed(path, None)]
  }

  function AllActions(s: Settings, plan: Plan, tasks: seq<Task>): seq<Action> {
    if tasks == [] then []
    else AllActions(s, plan, tasks[..|tasks| - 1]) + TaskActions(s, plan, tasks[|tasks| - 1])
  }

  // ----- what the tasks make of a tree

  /** The content once a delta has been applied to the file at `path`. */
  function Patched(codecs: Codecs, x: Option<Content>, path: Path, chunks: seq<seq<byte>>): Option<Content> {
    if x.None? then None else DeltaApplied(codecs, x.value, path, chunks)
  }

  /** The content once a file is opened, added or copied. */
  function EntryPlaced(x: Option<Content>, f: ResolvedFile): Option<Content> {
    if x.Some? && f.action.Some? && f.action.value.Copy?
    then FileAddedTo(x.value, f.path, Some((f.action.value.fromPath, f.action.value.fromRev)))
    else Opened(x, f.path, f.present)
  }

  function TextPlaced(s: Settings, x: Option<Content>, f: ResolvedFile): Option<Content> {
    if f.action.Some? && f.action.value.Put?
    then Patched(s.codecs, EntryPlaced(x, f), f.path, DeltaOf(s, f.action.value.contents))
    else EntryPlaced(x, f)
  }

  /** The content once the properties of the directory or file the task is about are changed. */
  function PropsPlaced(x: Option<Content>, t: Task, props: seq<PropChange>): Option<Content> {
    if props == [] then x
    else
      var y, p := PropsPlaced(x, t, props[..|props| - 1]), props[|props| - 1];
      if y.None? then None else PropSet(y.value, t.path, t.DirTask?, p.name, p.value)
  }

  function FilePlaced(s: Settings, x: Option<Content>, f: ResolvedFile): Option<Content> {
    PropsPlaced(TextPlaced(s, x, f), FileTask(f.path), f.props)
  }

  /** The content once a path is deleted. */
  function Removed(x: Option<Content>, path: Path): Option<Content> {
    if x.Some? && path in x.value.tree then Some(x.value.(tree := Pruned(x.value.tree, path))) else None
  }

  function TaskPlaced(s: Settings, plan: Plan, x: Option<Content>, t: Task): Option<Content> {
    match t
    case DirTask(path) => if path in plan.dirProps then PropsPlaced(x, t, plan.dirProps[path]) else x
    case DeleteTask(path) => Removed(x, path)
    case FileTask(path) => if path in plan.files then FilePlaced(s, x, plan.files[path]) else None
  }

  function AllEntered(plans: map<Path, DirPlan>, x: Option<Content>, dirs: seq<Path>): Option<Content> {
    if forall d :: d in dirs ==> d in plans then EnterAll(plans, x, dirs) else None
  }

  /** The content once all tasks are done, each after the directories on the way to it are entered. */
  function AllPlaced(s: Settings, plan: Plan, base: Repo, tasks: seq<Task>): Option<Content> {
    if tasks == [] then Some(Untouched(base))
    else
      var before, t := tasks[..|tasks| - 1], tasks[|tasks| - 1];
      TaskPlaced(s, plan, AllEntered(plan.dirs, AllPlaced(s, plan, base, before), Walk(Current(before), Target(t))), t)
  }

  lemma PlacedSnoc(s: Settings, plan: Plan, base: Repo, done: seq<Task>, t: Task)
    ensures AllPlaced(s, plan, base, done + [t])
         == TaskPlaced(s, plan, AllEntered(plan.dirs, AllPlaced(s, plan, base, done), Walk(Current(done), Target(t))), t)
  {
    hide TaskPlaced, AllEntered, Walk, Target, Current;
    assert (done + [t])[..|done|] == done;
  }

  lemma {:induction false} EnterKeepsNoDelta(plans: map<Path, DirPlan>, x: Option<Content>, dirs: seq<Path>)
    requires NoDelta(x) && forall d :: d in dirs ==> d in plans
    ensures NoDelta(EnterAll(plans, x, dirs))
  {
    if dirs != [] {
      EnterKeepsNoDelta(plans, x, dirs[..|dirs| - 1]);
    }
  }

  /** Every directory on the way has a plan, and every file to be edited too. */
  ghost predicate Complete(plan: Plan, tasks: seq<Task>) {
    && (forall d :: d in DirsWalked(TargetsOf(tasks)) ==> d in plan.dirs)
    && (forall t :: t in tasks && t.FileTask? ==> t.path in plan.files)
  }

  // ----- sending commands that open no directory

  predicate OpensNoDir(c: EditorCommand) { !c.OpenDir? && !c.AddDir? }

  method SendOne(drive: Drive, c: EditorCommand, ghost codecs: Codecs, ghost base: Repo, ghost n: Nest, ghost x: Option<Content>,
                 ghost start: seq<Action>, ghost done: seq<Action>)
    requires At(codecs, base, drive.commands, n, x) && NestStep(n, c).Some? && OpensNoDir(c)
    requires Actions(drive.commands) == start + done
    modifies drive
    ensures At(codecs, base, drive.commands, NestStep(n, c).value, Bind(codecs, n, x, c))
    ensures Actions(drive.commands) == start + (done + Act(n, c))
    ensures DirsOpened(drive.commands) == old(DirsOpened(drive.commands))
  {
    hide At, Actions, DirsOpened, NestStep, Act, Bind;
    AtSent(codecs, base, drive.commands, n, x, c);
    ActionsSent(codecs, base, drive.commands, n, x, c);
    DirsOpenedSent(drive.commands, c);
    Regroup(start, done, Act(n, c));
    drive.Send(c);
  }

  /** The command for one property change. */
  function PropCommand(t: Task, p: PropChange, token: Token): EditorCommand {
    if t.DirTask? then ChangeDirProp(token, p.name, p.value) else ChangeFileProp(token, p.name, p.value)
  }

  lemma PropStep(codecs: Codecs, n: Nest, x: Option<Content>, t: Task, props: seq<PropChange>, i: nat, token: Token)
    requires i < |props|
    requires if t.DirTask? then InDir(n, token) && n.stack[|n.stack| - 1].path == t.path
             else InFile(n, token) && n.file.value.path == t.path
    ensures var c := PropCommand(t, props[i], token);
      && NestStep(n, c) == Some(n) && OpensNoDir(c)
      && Bind(codecs, n, PropsPlaced(x, t, props[..i]), c) == PropsPlaced(x, t, props[..i + 1])
      && PropActions(t, props[..i + 1]) == PropActions(t, props[..i]) + Act(n, c)
  {
    assert props[..i + 1][..i] == props[..i];
  }

  /** Property changes of the open file, or of the innermost open directory. */
  method SendProps(drive: Drive, t: Task, props: seq<PropChange>, token: Token, ghost codecs: Codecs, ghost base: Repo,
                   ghost n: Nest, ghost x: Option<Content>, ghost start: seq<Action>, ghost done: seq<Action>)
    requires At(codecs, base, drive.commands, n, x) && Actions(drive.commands) == start + done
    requires if t.DirTask? then InDir(n, token) && n.stack[|n.stack| - 1].path == t.path
             else InFile(n, token) && n.file.value.path == t.path
    modifies drive
    ensures At(codecs, base, drive.commands, n, PropsPlaced(x, t, props))
    ensures Actions(drive.commands) == start + (done + PropActions(t, props))
    ensures DirsOpened(drive.commands) == old(DirsOpened(drive.commands))
  {
    hide At, Actions, DirsOpened, NestStep, Bind, Act, PropActions, OpensNoDir, PropsPlaced;
    var i := 0;
    assert props[..0] == [];
    NoProps(x, t);
    assert done + [] == done;
    while i < |props|
      invariant i <= |props| && At(codecs, base, drive.commands, n, PropsPlaced(x, t, props[..i]))
      invariant Actions(drive.commands) == start + (done + PropActions(t, props[..i]))
      invariant DirsOpened(drive.commands) == old(DirsOpened(drive.commands))
    {
      var c := PropCommand(t, props[i], token);
      PropStep(codecs, n, x, t, props, i, token);
      SendOne(drive, c, codecs, base, n, PropsPlaced(x, t, props[..i]), start, done + PropActions(t, props[..i]));
      Regroup(done, PropActions(t, props[..i]), Act(n, c));
      i := i + 1;
    }
    assert props[..i] == props;
  }

  lemma NoProps(x: Option<Content>, t: Task)
    ensures PropActions(t, []) == [] && PropsPlaced(x, t, []) == x
  {
  }

  lemma BeginStep(codecs: Codecs, n: Nest, x: Option<Content>, path: Path, token: Token)
    requires InFile(n, token) && n.file.value.path == path && NoDelta(x)
    ensures var c := ApplyTextDelta(token, None);
      && NestStep(n, c) == Some(n) && Bind(codecs, n, x, c) == FileDelta.Receiving(x, []) && Act(n, c) == [DeltaBegun(path, None)]
    ensures ChunkActions(path, []) == []
  {
  }

  lemma ChunkStep(codecs: Codecs, n: Nest, x: Option<Content>, path: Path, token: Token, sent: seq<seq<byte>>, chunk: seq<byte>)
    requires InFile(n, token) && n.file.value.path == path
    ensures var c := TextDeltaChunk(token, chunk);
      && NestStep(n, c) == Some(n) && Act(n, c) == [DeltaChunk(path, chunk)]
      && Bind(codecs, n, FileDelta.Receiving(x, sent), c) == FileDelta.Receiving(x, sent + [chunk])
  {
  }

  lemma EndStep(codecs: Codecs, n: Nest, x: Option<Content>, path: Path, chunks: seq<seq<byte>>, token: Token)
    requires InFile(n, token) && n.file.value.path == path
    ensures var c := TextDeltaEnd(token);
      && NestStep(n, c) == Some(n) && Act(n, c) == [DeltaEnded(path)]
      && Bind(codecs, n, FileDelta.Receiving(x, chunks), c) == Patched(codecs, x, path, chunks)
  {
    hide Applier.Run;
  }

  /** The delta of the open file. */
  method SendText(drive: Drive, path: Path, chunks: seq<seq<byte>>, token: Token, ghost codecs: Codecs, ghost base: Repo,
                  ghost n: Nest, ghost x: Option<Content>, ghost start: seq<Action>, ghost done: seq<Action>)
    requires At(codecs, base, drive.commands, n, x) && NoDelta(x) && Actions(drive.commands) == start + done
    requires InFile(n, token) && n.file.value.path == path
    modifies drive
    ensures At(codecs, base, drive.commands, n, Patched(codecs, x, path, chunks))
    ensures Actions(drive.commands) == start + (done + ([DeltaBegun(path, None)] + ChunkActions(path, chunks) + [DeltaEnded(path)]))
    ensures DirsOpened(drive.commands) == old(DirsOpened(drive.commands))
  {
    hide At, Actions, DirsOpened, Patched, Applier.Run, NestStep, Act, Bind, ChunkActions, FileDelta.Receiving;
    BeginStep(codecs, n, x, path, token);
    SendOne(drive, ApplyTextDelta(token, None), codecs, base, n, x, start, done);
    ghost var begun := done + [DeltaBegun(path, None)];
    var i := 0;
    assert begun + [] == begun;
    while i < |chunks|
      invariant i <= |chunks| && At(codecs, base, drive.commands, n, FileDelta.Receiving(x, chunks[..i]))
      invariant Actions(drive.commands) == start + (begun + ChunkActions(path, chunks[..i]))
      invariant DirsOpened(drive.commands) == old(DirsOpened(drive.commands))
    {
      var c := TextDeltaChunk(token, chunks[i]);
      ChunkStep(codecs, n, x, path, token, chunks[..i], chunks[i]);
      SendOne(drive, c, codecs, base, n, FileDelta.Receiving(x, chunks[..i]), start, begun + ChunkActions(path, chunks[..i]));
      assert chunks[..i + 1] == chunks[..i] + [chunks[i]];
      ChunkActionsSnoc(path, chunks[..i], chunks[i]);
      Regroup(begun, ChunkActions(path, chunks[..i]), Act(n, c));
      i := i + 1;
    }
    assert chunks[..i] == chunks;
    EndStep(codecs, n, x, path, chunks, token);
    SendOne(drive, TextDeltaEnd(token), codecs, base, n, FileDelta.Receiving(x, chunks), start, begun + ChunkActions(path, chunks));
    Regroup(done, [DeltaBegun(path, None)], ChunkActions(path, chunks));
    Regroup(done, [DeltaBegun(path, None)] + ChunkActions(path, chunks), [DeltaEnded(path)]);
  }

  // ----- tasks

  function EntryCommand(s: Settings, f: ResolvedFile, parent: Token, token: Token): (c: EditorCommand)
    ensures OpensNoDir(c) && forall n :: Act(n, c) == [EntryAction(s, f)]
    ensures c == OpenFile(f.path, parent, token, s.baseRev) || exists copy :: c == AddFile(f.path, parent, token, copy)
  {
    match f.action
    case Some(Copy(fromPath, fromRev)) => AddFile(f.path, parent, token, Some((fromPath, fromRev)))
    case Some(Put(_)) => if f.present then OpenFile(f.path, parent, token, s.baseRev) else AddFile(f.path, parent, token, None)
    case None => if f.present then OpenFile(f.path, parent, token, s.baseRev) else AddFile(f.path, parent, token, None)
  }

  lemma EntryPlaces(s: Settings, f: ResolvedFile, parent: Token, token: Token, n: Nest, x: Option<Content>)
    ensures Bind(s.codecs, n, x, EntryCommand(s, f, parent, token)) == EntryPlaced(x, f)
    ensures NoDelta(x) ==> NoDelta(EntryPlaced(x, f))
  {
  }

  lemma FileLeft(s: Settings, stack: seq<Frame>, used: set<Token>, x: Option<Content>, path: Path, token: Token)
    requires NoDelta(x)
    ensures var n, c := FileOpen(s.baseRev, stack, used, Frame(path, token)), CloseFile(token, None);
      && Bind(s.codecs, n, x, c) == x
      && NestStep(n, c) == Some(Walking(s.baseRev, stack, used))
      && Act(n, c) == [FileClosed(path, None)]
  {
  }

  lemma PlacedNoDelta(s: Settings, x: Option<Content>, f: ResolvedFile)
    requires NoDelta(x)
    ensures NoDelta(TextPlaced(s, x, f)) && NoDelta(FilePlaced(s, x, f))
  {
    hide Applier.Run, DeltaOf, PropsPlaced;
    PropsNoDelta(TextPlaced(s, x, f), FileTask(f.path), f.props);
  }

  lemma {:induction false} PropsNoDelta(x: Option<Content>, t: Task, props: seq<PropChange>)
    requires NoDelta(x)
    ensures NoDelta(PropsPlaced(x, t, props))
  {
    if props != [] { PropsNoDelta(x, t, props[..|props| - 1]); }
  }

  method SendFileTask(drive: Drive, tokens: TokenGen, stack: seq<Frame>, s: Settings, f: ResolvedFile,
                      ghost base: Repo, ghost used0: set<Token>, ghost x: Option<Content>, ghost start: seq<Action>)
    returns (ghost used: set<Token>)
    requires stack != [] && f.path != [] && ParentDir(f.path) == stack[|stack| - 1].path
    requires f.action.Some? && f.action.value.Put? ==> |f.action.value.contents| < MAX_SLICE_LEN
    requires At(s.codecs, base, drive.commands, Walking(s.baseRev, stack, used0), x) && NoDelta(x) && AllIssued(used0, tokens)
    requires Actions(drive.commands) == start
    modifies drive, tokens
    ensures At(s.codecs, base, drive.commands, Walking(s.baseRev, stack, used), FilePlaced(s, x, f)) && AllIssued(used, tokens)
    ensures Actions(drive.commands)
         == start + ([EntryAction(s, f)] + TextActions(s, f) + PropActions(FileTask(f.path), f.props) + [FileClosed(f.path, None)])
    ensures DirsOpened(drive.commands) == old(DirsOpened(drive.commands))
  {
    hide At, Actions, DirsOpened, Issued, PropActions, ChunkActions, EncodedStream, EntryAction, EntryCommand, Pieces, Bind, Patched,
         EntryPlaced, NoDelta, Chunks, ParentDir, NestStep, PropsPlaced;
    var dirToken := stack[|stack| - 1].token;
    var fileToken := tokens.File();
    used := used0 + {fileToken};
    ghost var n := FileOpen(s.baseRev, stack, used, Frame(f.path, fileToken));
    var c := EntryCommand(s, f, dirToken, fileToken);
    FileEntered(s.baseRev, stack, used0, f.path, fileToken, tokens.nextDir, tokens.nextFile, c, dirToken);
    assert start + [] == start;
    SendOne(drive, c, s.codecs, base, Walking(s.baseRev, stack, used0), x, start, []);
    EntryPlaces(s, f, dirToken, fileToken, Walking(s.baseRev, stack, used0), x);
    ghost var done := [EntryAction(s, f)];
    assert [] + Act(Walking(s.baseRev, stack, used0), c) == done;
    if f.action.Some? && f.action.value.Put? {
      var svndiff := EncodeFulltextWithOptions(s.codecs, s.version, f.action.value.contents, s.level, s.windowSize);
      SendText(drive, f.path, Chunks(svndiff, FileDelta.CHUNK_LEN), fileToken, s.codecs, base, n, EntryPlaced(x, f), start, done);
    } else {
      assert done + TextActions(s, f) == done;
    }
    done := done + TextActions(s, f);
    SendProps(drive, FileTask(f.path), f.props, fileToken, s.codecs, base, n, TextPlaced(s, x, f), start, done);
    done := done + PropActions(FileTask(f.path), f.props);
    PlacedNoDelta(s, x, f);
    FileLeft(s, stack, used, FilePlaced(s, x, f), f.path, fileToken);
    SendOne(drive, CloseFile(fileToken, None), s.codecs, base, n, FilePlaced(s, x, f), start, done);
  }

  lemma DeleteStep(s: Settings, stack: seq<Frame>, used: set<Token>, x: Option<Content>, path: Path)
    requires stack != [] && path != [] && stack[|stack| - 1].path == ParentDir(path)
    ensures var n, c := Walking(s.baseRev, stack, used), DeleteEntry(path, s.baseRev, stack[|stack| - 1].token);
      NestStep(n, c) == Some(n) && Bind(s.codecs, n, x, c) == Removed(x, path) && Act(n, c) == [Deleted(path, s.baseRev)]
  {
  }

  /** What one task does once its directory is open. */
  method SendTask(drive: Drive, tokens: TokenGen, stack: seq<Frame>, s: Settings, plan: Plan, t: Task,
                  ghost base: Repo, ghost used0: set<Token>, ghost x: Option<Content>, ghost start: seq<Action>)
    returns (err: Option<BuildError>, ghost used: set<Token>)
    requires ProperTask(t) && ProperPlan(plan)
    requires stack != [] && stack[|stack| - 1].path == Target(t) && stack[0].token == ROOT_TOKEN && (Target(t) == [] ==> |stack| == 1)
    requires At(s.codecs, base, drive.commands, Walking(s.baseRev, stack, used0), x) && NoDelta(x) && AllIssued(used0, tokens)
    requires Actions(drive.commands) == start
    modifies drive, tokens
    ensures err == None <==> (t.FileTask? ==> t.path in plan.files)
    ensures err == None ==>
      && At(s.codecs, base, drive.commands, Walking(s.baseRev, stack, used), TaskPlaced(s, plan, x, t))
      && AllIssued(used, tokens)
      && Actions(drive.commands) == start + TaskActions(s, plan, t)
      && DirsOpened(drive.commands) == old(DirsOpened(drive.commands))
  {
    hide At, Actions, DirsOpened, PropActions, TextActions, EntryAction, Issued, FilePlaced, NoDelta, NestStep, Act, Bind, PropsPlaced, Removed;
    err, used := None, used0;
    ghost var n := Walking(s.baseRev, stack, used0);
    assert start + [] == start && forall a: seq<Action> :: [] + a == a;
    match t {
      case DirTask(path) =>
        if path !in plan.dirProps {
          return;
        }
        var dirToken := if path == [] then ROOT_TOKEN else stack[|stack| - 1].token;
        SendProps(drive, t, plan.dirProps[path], dirToken, s.codecs, base, n, x, start, []);
      case FileTask(path) =>
        if path !in plan.files {
          return Some(MissingFilePlan), used;
        }
        used := SendFileTask(drive, tokens, stack, s, plan.files[path], base, used0, x, start);
      case DeleteTask(path) =>
        var parentToken := stack[|stack| - 1].token;
        DeleteStep(s, stack, used0, x, path);
        SendOne(drive, DeleteEntry(path, s.baseRev, parentToken), s.codecs, base, n, x, start, []);
    }
  }

  // ----- the whole drive

  /** Inside the drive, with these tasks done. */
  ghost predicate Standing(s: Settings, plan: Plan, base: Repo, done: seq<Task>, cmds: seq<EditorCommand>, stack: seq<Frame>, used: set<Token>) {
    && Stacked(stack, Chain(Current(done)))
    && At(s.codecs, base, cmds, Walking(s.baseRev, stack, used), AllPlaced(s, plan, base, done))
    && NoDelta(AllPlaced(s, plan, base, done))
    && DirsOpened(cmds) == AsPlanned(plan.dirs, DirsWalked(TargetsOf(done)))
    && Actions(cmds) == AllActions(s, plan, done)
  }

  lemma ActionsSnoc(s: Settings, plan: Plan, done: seq<Task>, t: Task)
    ensures AllActions(s, plan, done + [t]) == AllActions(s, plan, done) + TaskActions(s, plan, t)
    ensures Current(done + [t]) == Target(t)
  {
    assert (done + [t])[..|done|] == done;
  }

  lemma {:induction false} TargetsAre(tasks: seq<Task>)
    ensures |TargetsOf(tasks)| == |tasks|
    ensures forall k :: 0 <= k < |tasks| ==> TargetsOf(tasks)[k] == Target(tasks[k])
  {
    if tasks != [] {
      TargetsAre(tasks[..|tasks| - 1]);
    }
  }

  lemma WalkedSnoc(done: seq<Task>, t: Task)
    ensures DirsWalked(TargetsOf(done) + [Target(t)]) == DirsWalked(TargetsOf(done)) + Walk(Current(done), Target(t))
  {
    TargetsAre(done);
    var ts := TargetsOf(done) + [Target(t)];
    assert ts[..|done|] == TargetsOf(done);
    assert Previous(ts) == Current(done);
  }

  lemma CompleteSnoc(plan: Plan, done: seq<Task>, t: Task)
    ensures Complete(plan, done + [t]) <==>
      && Complete(plan, done)
      && (forall d :: d in Walk(Current(done), Target(t)) ==> d in plan.dirs)
      && (t.FileTask? ==> t.path in plan.files)
  {
    hide Walk, DirsWalked, TargetsOf, Target;
    TargetsGrow(done, t);
    WalkedSnoc(done, t);
    assert t in done + [t];
    assert forall u :: u in done ==> u in done + [t];
  }

  lemma TargetsGrow(done: seq<Task>, t: Task)
    ensures TargetsOf(done + [t]) == TargetsOf(done) + [Target(t)]
  {
    assert (done + [t])[..|done|] == done;
  }

  lemma {:induction false} CompletePrefix(plan: Plan, tasks: seq<Task>, k: nat)
    requires k <= |tasks| && Complete(plan, tasks)
    ensures Complete(plan, tasks[..k])
    decreases |tasks|
  {
    hide Complete;
    if k < |tasks| {
      var before := tasks[..|tasks| - 1];
      assert tasks == before + [tasks[|tasks| - 1]];
      CompleteSnoc(plan, before, tasks[|tasks| - 1]);
      CompletePrefix(plan, before, k);
      assert before[..k] == tasks[..k];
    } else {
      assert tasks[..k] == tasks;
    }
  }

  lemma TargetProper(t: Task)
    requires ProperTask(t)
    ensures Target(t) == [] || Relative(Target(t))
  {
    hide Relative, ParentDir;
    if !t.DirTask? {
      ParentRelative(t.path);
    }
  }

  method NextTask(drive: Drive, tokens: TokenGen, stack0: seq<Frame>, s: Settings, plan: Plan, t: Task,
                  ghost base: Repo, ghost done: seq<Task>, ghost used0: set<Token>)
    returns (err: Option<BuildError>, stack: seq<Frame>, ghost used: set<Token>)
    requires ProperTask(t) && ProperPlan(plan) && AllIssued(used0, tokens)
    requires Standing(s, plan, base, done, drive.commands, stack0, used0) && Complete(plan, done)
    modifies drive, tokens
    ensures err == None <==> Complete(plan, done + [t])
    ensures err == None ==> AllIssued(used, tokens) && Standing(s, plan, base, done + [t], drive.commands, stack, used)
  {
    hide At, EditRun, NestRun, Actions, DirsOpened, Chain, EnterAll, Issued, Complete, Walk, DirsWalked, TargetsOf, AllActions, TaskActions,
         Target, Current, ProperTask, ProperPlan, Stacked, Relative, AsPlanned, AllPlaced, TaskPlaced, NoDelta;
    CompleteSnoc(plan, done, t);
    ActionsSnoc(s, plan, done, t);
    PlacedSnoc(s, plan, base, done, t);
    TargetsGrow(done, t);
    WalkedSnoc(done, t);
    AsPlannedAppend(plan.dirs, DirsWalked(TargetsOf(done)), Walk(Current(done), Target(t)));
    TargetProper(t);
    var targetDirs := DirPrefixes(Target(t));
    var missing;
    ghost var x0 := AllPlaced(s, plan, base, done);
    stack, missing, used := Align(drive, tokens, stack0, targetDirs, plan.dirs, s.baseRev, Current(done), Target(t),
                                  s.codecs, base, used0, x0);
    if missing.Some? {
      return Some(MissingDirectoryPlan), stack, used;
    }
    ghost var x := EnterAll(plan.dirs, x0, Walk(Current(done), Target(t)));
    EnterKeepsNoDelta(plan.dirs, x0, Walk(Current(done), Target(t)));
    StackTop(stack, Target(t));
    err, used := SendTask(drive, tokens, stack, s, plan, t, base, used, x, AllActions(s, plan, done));
    TaskNoDelta(s, plan, x, t);
  }

  lemma TaskNoDelta(s: Settings, plan: Plan, x: Option<Content>, t: Task)
    requires NoDelta(x)
    ensures NoDelta(TaskPlaced(s, plan, x, t))
  {
    hide FilePlaced, PropsPlaced;
    match t
    case DirTask(path) => if path in plan.dirProps { PropsNoDelta(x, t, plan.dirProps[path]); }
    case FileTask(path) => if path in plan.files { PlacedNoDelta(s, x, plan.files[path]); }
    case DeleteTask(path) =>
  }

  /**
   The command list for checked tasks. It exists exactly when nothing needed lacks a plan; it is then
   well nested, opens just the directories of the walk over the tasks, does to files and directories
   just what the tasks ask, in their order, and leaves any base tree as the tasks do one by one.
   */
  method BuildEditorCommands(s: Settings, plan: Plan, tasks: seq<Task>, ghost base: Repo)
    returns (r: Result<seq<EditorCommand>, BuildError>)
    requires ProperPlan(plan) && forall t :: t in tasks ==> ProperTask(t)
    ensures r.Ok? <==> Complete(plan, tasks)
    ensures r.Ok? ==>
      && WellNested(r.value) && NestRun(r.value).value.rev == Some(s.baseRev)
      && DirsOpened(r.value) == AsPlanned(plan.dirs, DirsWalked(TargetsOf(tasks)))
      && Actions(r.value) == AllActions(s, plan, tasks)
      && EditRun(s.codecs, base, r.value) == AllPlaced(s, plan, base, tasks)
  {
    hide Standing, ProperPlan, ProperTask, Issued, Complete, Actions, DirsOpened, DirsWalked, AllActions, TargetsOf, WellNested, NestRun,
         EditRun, AllPlaced, AsPlanned;
    var drive := new Drive();
    var tokens := new TokenGen();
    var stack := [Frame([], ROOT_TOKEN)];
    ghost var used := {ROOT_TOKEN};
    drive.Send(OpenRoot(Some(s.baseRev), ROOT_TOKEN));
    assert drive.commands == [OpenRoot(Some(s.baseRev), ROOT_TOKEN)];
    RootOpened(s, plan, base, tokens.nextDir, tokens.nextFile);
    var i := 0;
    assert tasks[..0] == [];
    while i < |tasks|
      invariant i <= |tasks| && fresh(drive) && fresh(tokens) && AllIssued(used, tokens)
      invariant Standing(s, plan, base, tasks[..i], drive.commands, stack, used) && Complete(plan, tasks[..i])
    {
      assert tasks[i] in tasks && tasks[..i + 1] == tasks[..i] + [tasks[i]];
      var err;
      err, stack, used := NextTask(drive, tokens, stack, s, plan, tasks[i], base, tasks[..i], used);
      if err.Some? {
        if Complete(plan, tasks) { CompletePrefix(plan, tasks, i + 1); }
        return Err(err.value);
      }
      i := i + 1;
    }
    assert tasks[..i] == tasks;
    CloseAll(drive, s, plan, base, tasks, stack, used);
    return Ok(drive.commands);
  }

  lemma RootOpened(s: Settings, plan: Plan, base: Repo, dirs: nat, files: nat)
    ensures Standing(s, plan, base, [], [OpenRoot(Some(s.baseRev), ROOT_TOKEN)], [Frame([], ROOT_TOKEN)], {ROOT_TOKEN})
    ensures Complete(plan, [])
    ensures Issued(ROOT_TOKEN, dirs, files)
  {
    hide At, DirsOpened, Actions, Issued;
    RootBegun(s, base);
    RootIssued(dirs, files);
  }

  method CloseAll(drive: Drive, ghost s: Settings, ghost plan: Plan, ghost base: Repo, ghost tasks: seq<Task>,
                  start: seq<Frame>, ghost used: set<Token>)
    requires Standing(s, plan, base, tasks, drive.commands, start, used)
    modifies drive
    ensures WellNested(drive.commands) && NestRun(drive.commands).value.rev == Some(s.baseRev)
    ensures DirsOpened(drive.commands) == AsPlanned(plan.dirs, DirsWalked(TargetsOf(tasks)))
    ensures Actions(drive.commands) == AllActions(s, plan, tasks)
    ensures EditRun(s.codecs, base, drive.commands) == AllPlaced(s, plan, base, tasks)
  {
    hide At, Actions, DirsOpened, DirsWalked, AllActions, TargetsOf, Chain, Current, EditRun, NestRun, AllPlaced, AsPlanned;
    ghost var x := AllPlaced(s, plan, base, tasks);
    var stack := CloseTo(drive, start, 1, s.baseRev, s.codecs, base, used, x);
    assert stack == [Frame([], ROOT_TOKEN)];
    RootClosed(s, base, drive.commands, stack, used, x);
    drive.Send(CloseDir(ROOT_TOKEN));
    drive.Send(CloseEdit);
  }
}
