/**
 A reference editor: it receives a drive command by command, checks that the drive is well nested,
 and carries the commands out on a tree.
 */
module TreeEditor {
  import opened Bytes
  import opened Paths
  import opened DirChain
  import opened EditorCommands
  import opened Sections
  import Applier
  import StreamParser

  // ----- nesting

  datatype Frame = Frame(path: Path, token: Token)

  /** The base revision; open directories, innermost last; the open file; every token seen; whether the edit is closed. */
  datatype Nest = Nest(rev: Option<u64>, begun: bool, stack: seq<Frame>, file: Option<Frame>, used: set<Token>, closed: bool)

  const NEST_START := Nest(None, false, [], None, {}, false)

  /** The innermost open directory is the one meant, and no file is open in it. */
  predicate InDir(n: Nest, token: Token) {
    n.begun && !n.closed && n.file.None? && n.stack != [] && n.stack[|n.stack| - 1].token == token
  }

  /** A child is opened under its true parent, with a token never used before. */
  predicate MayEnter(n: Nest, path: Path, parent: Token, child: Token) {
    InDir(n, parent) && path != [] && ParentDir(path) == n.stack[|n.stack| - 1].path && child !in n.used
  }

  predicate InFile(n: Nest, token: Token) {
    n.begun && !n.closed && n.file.Some? && n.file.value.token == token
  }

  function NestStep(n: Nest, c: EditorCommand): Option<Nest> {
    match c
    case OpenRoot(rev, token) =>
      if n.begun then None else Some(Nest(rev, true, [Frame([], token)], None, {token}, false))
    case OpenDir(path, parent, child, rev) =>
      if MayEnter(n, path, parent, child) && n.rev == Some(rev)
      then Some(n.(stack := n.stack + [Frame(path, child)], used := n.used + {child})) else None
    case AddDir(path, parent, child, _) =>
      if MayEnter(n, path, parent, child)
      then Some(n.(stack := n.stack + [Frame(path, child)], used := n.used + {child})) else None
    case CloseDir(token) =>
      if InDir(n, token) then Some(n.(stack := n.stack[..|n.stack| - 1])) else None
    case ChangeDirProp(token, _, _) => if InDir(n, token) then Some(n) else None
    case DeleteEntry(path, rev, token) =>
      if InDir(n, token) && n.rev == Some(rev) && path != [] && ParentDir(path) == n.stack[|n.stack| - 1].path then Some(n) else None
    case OpenFile(path, parent, child, rev) =>
      if MayEnter(n, path, parent, child) && n.rev == Some(rev)
      then Some(n.(file := Some(Frame(path, child)), used := n.used + {child})) else None
    case AddFile(path, parent, child, _) =>
      if MayEnter(n, path, parent, child)
      then Some(n.(file := Some(Frame(path, child)), used := n.used + {child})) else None
    case ApplyTextDelta(token, _) => if InFile(n, token) then Some(n) else None
    case TextDeltaChunk(token, _) => if InFile(n, token) then Some(n) else None
    case TextDeltaEnd(token) => if InFile(n, token) then Some(n) else None
    case ChangeFileProp(token, _, _) => if InFile(n, token) then Some(n) else None
    case CloseFile(token, _) => if InFile(n, token) then Some(n.(file := None)) else None
    case CloseEdit =>
      if n.begun && !n.closed && n.stack == [] && n.file.None? then Some(n.(closed := true)) else None
    case AbsentDir(_, _) => None
    case AbsentFile(_, _) => None
    case AbortEdit => None
  }

  function NestRun(cmds: seq<EditorCommand>): Option<Nest> {
    if cmds == [] then Some(NEST_START)
    else match NestRun(cmds[..|cmds| - 1])
      case None => None
      case Some(n) => NestStep(n, cmds[|cmds| - 1])
  }

  /**
   The root is opened first and closed last, just before the edit is closed; every other directory
   and file is opened under its parent at the top of the stack, with a fresh token, and closed once.
   What exists already is opened or deleted at the base revision the root was opened at.
   */
  predicate WellNested(cmds: seq<EditorCommand>) {
    NestRun(cmds).Some? && NestRun(cmds).value.closed
  }

  // ----- the tree

  type Props = map<seq<byte>, seq<byte>>

  datatype Node = Dir(props: Props) | File(contents: seq<byte>, props: Props)

  type Tree = map<Path, Node>

  /** The URL of the repository, and the trees of its revisions. */
  datatype History = History(root: seq<byte>, past: map<u64, Tree>)

  /** A repository, with the tree an edit starts from. */
  datatype Repo = Repo(tree: Tree, history: History)

  /** The tree so far, the text delta being received for the open file, and the history to copy from. */
  datatype Content = Content(tree: Tree, delta: Option<seq<seq<byte>>>, history: History)

  /** `p` is `d` or lies below it. */
  predicate Within(d: Path, p: Path) {
    p == d || IsUnder(d, p)
  }

  function NodeAt(tree: Tree, p: Path): Option<Node> {
    if p in tree then Some(tree[p]) else None
  }

  /** One property set, or taken away. */
  function PropChanged(props: Props, name: seq<byte>, value: Option<seq<byte>>): Props {
    match value
    case Some(v) => props[name := v]
    case None => props - {name}
  }

  /** The path a copy source names: what follows the URL of the repository and a slash. */
  function SourcePath(h: History, copy: (seq<byte>, u64)): Option<Path> {
    if h.root + [SLASH] <= copy.0 && copy.0 != h.root + [SLASH] then Some(copy.0[|h.root| + 1..]) else None
  }

  /** What is at the source of a copy, in the revision copied from. */
  function SourceNode(h: History, copy: (seq<byte>, u64)): Option<Node> {
    if SourcePath(h, copy).None? || copy.1 !in h.past then None else NodeAt(h.past[copy.1], SourcePath(h, copy).value)
  }

  /** The tree without `d` and everything below it. */
  function Pruned(tree: Tree, d: Path): Tree {
    map p | p in tree && !Within(d, p) :: tree[p]
  }

  /** `from` and everything below it, moved to `d`. */
  function Moved(tree: Tree, from: Path, d: Path): Tree {
    assert forall p, q :: p in tree && q in tree && Within(from, p) && Within(from, q) && d + p[|from|..] == d + q[|from|..] ==> p == q by {
      MovedApart(from, d);
    }
    map p | p in tree && Within(from, p) :: d + p[|from|..] := tree[p]
  }

  lemma MovedApart(from: Path, d: Path)
    ensures forall p, q :: Within(from, p) && Within(from, q) && d + p[|from|..] == d + q[|from|..] ==> p == q
  {
    forall p, q | Within(from, p) && Within(from, q) && d + p[|from|..] == d + q[|from|..] ensures p == q {
      var p', q' := p[|from|..], q[|from|..];
      assert (d + p')[|d|..] == p' && (d + q')[|d|..] == q';
      assert p == from + p' && q == from + q';
    }
  }

  /** A directory added: empty, or a copy with everything below it. */
  function DirAdded(x: Content, path: Path, copy: Option<(seq<byte>, u64)>): Option<Content> {
    if path in x.tree then None
    else match copy
      case None => Some(x.(tree := x.tree[path := Dir(map[])]))
      case Some(c) =>
        if SourceNode(x.history, c).None? || SourceNode(x.history, c).value.File? then None
        else Some(x.(tree := Pruned(x.tree, path) + Moved(x.history.past[c.1], SourcePath(x.history, c).value, path)))
  }

  /** A file added: empty, or a copy. */
  function FileAddedTo(x: Content, path: Path, copy: Option<(seq<byte>, u64)>): Option<Content> {
    if path in x.tree then None
    else match copy
      case None => Some(x.(tree := x.tree[path := File([], map[])]))
      case Some(c) =>
        if SourceNode(x.history, c).None? || SourceNode(x.history, c).value.Dir? then None
        else Some(x.(tree := x.tree[path := SourceNode(x.history, c).value]))
  }

  /** A property changed on the node at `path`, which must be a directory or a file as asked for. */
  function PropSet(x: Content, path: Path, dir: bool, name: seq<byte>, value: Option<seq<byte>>): Option<Content> {
    if path in x.tree && x.tree[path].Dir? == dir
    then Some(x.(tree := x.tree[path := x.tree[path].(props := PropChanged(x.tree[path].props, name, value))]))
    else None
  }

  /** The delta received, applied to the file at `path`. */
  function DeltaApplied(codecs: Codecs, x: Content, path: Path, chunks: seq<seq<byte>>): Option<Content> {
    if path !in x.tree || x.tree[path].Dir? then None
    else
      var r := Applier.Run(codecs, Applier.InMemory(x.tree[path].contents), StreamParser.START, chunks);
      if r.err == None then Some(x.(tree := x.tree[path := x.tree[path].(contents := r.output)], delta := None)) else None
  }

  /**
   What a command does to the tree; nothing when the tree does not allow it, or when the command is
   one this editor does not know: checksums, and what only a server sends.
   */
  function Effect(codecs: Codecs, n: Nest, x: Content, c: EditorCommand): Option<Content> {
    match c
    case OpenDir(path, _, _, _) => if path in x.tree && x.tree[path].Dir? then Some(x) else None
    case AddDir(path, _, _, copy) => DirAdded(x, path, copy)
    case OpenFile(path, _, _, _) => if path in x.tree && x.tree[path].File? then Some(x) else None
    case AddFile(path, _, _, copy) => FileAddedTo(x, path, copy)
    case DeleteEntry(path, _, _) => if path in x.tree then Some(x.(tree := Pruned(x.tree, path))) else None
    case ChangeDirProp(_, name, value) =>
      if n.stack == [] then None else PropSet(x, n.stack[|n.stack| - 1].path, true, name, value)
    case ChangeFileProp(_, name, value) =>
      if n.file.None? then None else PropSet(x, n.file.value.path, false, name, value)
    case ApplyTextDelta(_, checksum) => if x.delta.None? && checksum.None? then Some(x.(delta := Some([]))) else None
    case TextDeltaChunk(_, chunk) =>
      if x.delta.Some? then Some(x.(delta := Some(x.delta.value + [chunk]))) else None
    case TextDeltaEnd(_) =>
      if x.delta.Some? && n.file.Some? then DeltaApplied(codecs, x, n.file.value.path, x.delta.value) else None
    case CloseFile(_, checksum) => if x.delta.None? && checksum.None? then Some(x) else None
    case OpenRoot(_, _) => Some(x)
    case CloseDir(_) => Some(x)
    case CloseEdit => Some(x)
    case AbsentDir(_, _) => None
    case AbsentFile(_, _) => None
    case AbortEdit => None
  }

  /** The content an edit of a repository begins with. */
  function Untouched(base: Repo): Content {
    Content(base.tree, None, base.history)
  }

  /** The tree after a drive; nothing when some command is refused. */
  function EditRun(codecs: Codecs, base: Repo, cmds: seq<EditorCommand>): Option<Content> {
    if cmds == [] then Some(Untouched(base))
    else
      var before := cmds[..|cmds| - 1];
      match EditRun(codecs, base, before)
      case None => None
      case Some(x) =>
        if NestRun(before).None? || NestRun(cmds).None? then None
        else Effect(codecs, NestRun(before).value, x, cmds[|cmds| - 1])
  }

  /** The editor accepts the whole drive and ends with this tree. */
  predicate Yields(codecs: Codecs, base: Repo, cmds: seq<EditorCommand>, tree: Tree) {
    && WellNested(cmds)
    && EditRun(codecs, base, cmds).Some? && EditRun(codecs, base, cmds).value.tree == tree && EditRun(codecs, base, cmds).value.delta == None
  }

  /** The content once the file is opened, or added where there is nothing. */
  function Opened(x: Option<Content>, path: Path, present: bool): Option<Content> {
    if x.None? then None
    else if present then (if path in x.value.tree && x.value.tree[path].File? then x else None)
    else FileAddedTo(x.value, path, None)
  }

  ghost predicate NoDelta(x: Option<Content>) {
    x.Some? ==> x.value.delta == None
  }

  // ----- following a drive as it is sent

  /** Where a drive has led: its nesting, and the content unless a command was refused. */
  ghost predicate At(codecs: Codecs, base: Repo, cmds: seq<EditorCommand>, n: Nest, x: Option<Content>) {
    NestRun(cmds) == Some(n) && EditRun(codecs, base, cmds) == x
  }

  function Bind(codecs: Codecs, n: Nest, x: Option<Content>, c: EditorCommand): Option<Content> {
    if x.None? then None else Effect(codecs, n, x.value, c)
  }

  lemma AtSent(codecs: Codecs, base: Repo, cmds: seq<EditorCommand>, n: Nest, x: Option<Content>, c: EditorCommand)
    requires At(codecs, base, cmds, n, x) && NestStep(n, c).Some?
    ensures At(codecs, base, cmds + [c], NestStep(n, c).value, Bind(codecs, n, x, c))
  {
    hide NestStep, Effect;
    assert (cmds + [c])[..|cmds|] == cmds;
  }

  /** How a directory is entered: opened, or added and perhaps copied. */
  datatype DirPlan = PlanOpen | PlanAdd(copyFrom: Option<(Path, u64)>)

  datatype DirEntry = DirEntry(path: Path, plan: DirPlan)

  function EntryOf(c: EditorCommand): seq<DirEntry> {
    match c
    case OpenDir(path, _, _, _) => [DirEntry(path, PlanOpen)]
    case AddDir(path, _, _, copyFrom) => [DirEntry(path, PlanAdd(copyFrom))]
    case _ => []
  }

  /** The directories a drive opens or adds, in order. */
  function DirsOpened(cmds: seq<EditorCommand>): seq<DirEntry> {
    if cmds == [] then [] else DirsOpened(cmds[..|cmds| - 1]) + EntryOf(cmds[|cmds| - 1])
  }

  lemma DirsOpenedSent(cmds: seq<EditorCommand>, c: EditorCommand)
    ensures DirsOpened(cmds + [c]) == DirsOpened(cmds) + EntryOf(c)
    ensures !c.OpenDir? && !c.AddDir? ==> DirsOpened(cmds + [c]) == DirsOpened(cmds)
  {
    assert (cmds + [c])[..|cmds|] == cmds;
  }

  function PathsOf(entries: seq<DirEntry>): seq<Path> {
    seq(|entries|, i requires 0 <= i < |entries| => entries[i].path)
  }

  // ----- what a drive does beside opening and closing directories

  datatype Action =
    | Deleted(path: Path, rev: u64)
    | DirPropSet(dir: Path, name: seq<byte>, value: Option<seq<byte>>)
    | FileOpened(path: Path, rev: u64)
    | FileAdded(path: Path, copyFrom: Option<(Path, u64)>)
    | DeltaBegun(path: Path, checksum: Option<seq<byte>>)
    | DeltaChunk(path: Path, chunk: seq<byte>)
    | DeltaEnded(path: Path)
    | FilePropSet(path: Path, name: seq<byte>, value: Option<seq<byte>>)
    | FileClosed(path: Path, checksum: Option<seq<byte>>)

  /** What a command acts on: the tokens it names are looked up among what is open. */
  function Act(n: Nest, c: EditorCommand): seq<Action> {
    match c
    case DeleteEntry(path, rev, _) => [Deleted(path, rev)]
    case OpenFile(path, _, _, rev) => [FileOpened(path, rev)]
    case AddFile(path, _, _, copy) => [FileAdded(path, copy)]
    case ChangeDirProp(_, name, value) =>
      if n.stack == [] then [] else [DirPropSet(n.stack[|n.stack| - 1].path, name, value)]
    case ApplyTextDelta(_, checksum) => if n.file.None? then [] else [DeltaBegun(n.file.value.path, checksum)]
    case TextDeltaChunk(_, chunk) => if n.file.None? then [] else [DeltaChunk(n.file.value.path, chunk)]
    case TextDeltaEnd(_) => if n.file.None? then [] else [DeltaEnded(n.file.value.path)]
    case ChangeFileProp(_, name, value) => if n.file.None? then [] else [FilePropSet(n.file.value.path, name, value)]
    case CloseFile(_, checksum) => if n.file.None? then [] else [FileClosed(n.file.value.path, checksum)]
    case OpenRoot(_, _) => []
    case OpenDir(_, _, _, _) => []
    case AddDir(_, _, _, _) => []
    case CloseDir(_) => []
    case AbsentDir(_, _) => []
    case AbsentFile(_, _) => []
    case CloseEdit => []
    case AbortEdit => []
  }

  function Actions(cmds: seq<EditorCommand>): seq<Action> {
    if cmds == [] then []
    else
      var before := cmds[..|cmds| - 1];
      Actions(before) + if NestRun(before).None? then [] else Act(NestRun(before).value, cmds[|cmds| - 1])
  }

  lemma ActionsSent(codecs: Codecs, base: Repo, cmds: seq<EditorCommand>, n: Nest, x: Option<Content>, c: EditorCommand)
    requires At(codecs, base, cmds, n, x)
    ensures Actions(cmds + [c]) == Actions(cmds) + Act(n, c)
  {
    hide NestStep, Effect, Act;
    assert (cmds + [c])[..|cmds|] == cmds;
  }

  function ChunkActions(path: Path, chunks: seq<seq<byte>>): seq<Action> {
    if chunks == [] then []
    else ChunkActions(path, chunks[..|chunks| - 1]) + [DeltaChunk(path, chunks[|chunks| - 1])]
  }

  lemma ChunkActionsSnoc(path: Path, chunks: seq<seq<byte>>, chunk: seq<byte>)
    ensures ChunkActions(path, chunks + [chunk]) == ChunkActions(path, chunks) + [DeltaChunk(path, chunk)]
  {
    assert (chunks + [chunk])[..|chunks|] == chunks;
  }

  predicate Distinct(paths: seq<Path>) {
    forall i, j :: 0 <= i < j < |paths| ==> paths[i] != paths[j]
  }
}
