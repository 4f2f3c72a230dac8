/** The streaming commit: from a list of files with readers to an editor drive. */
module CommitStream {
  import opened Bytes
  import opened SvndiffFormat
  import opened Sections
  import opened Encoder
  import opened Paths
  import opened Order
  import opened DirChain
  import opened EditorCommands
  import opened TreeEditor
  import opened Drives
  import opened Walks
  import opened RoundTrip
  import opened FileDelta
  import opened CommitMeaning
  import Applier

  const MAX_ZLIB_LEVEL := 9

  datatype FileContentMode = AddOrReplace | AddOnly | ReplaceOnly

  datatype NodeKind = KindNone | KindFile | KindDir | KindUnknown

  datatype StreamFileChange = StreamFileChange(path: seq<byte>, runs: seq<seq<byte>>, mode: FileContentMode)

  datatype CommitError =
    | NoChanges
    | BadZlibLevel
    | BadPath(error: PathError)
    | DuplicatePath
    | NotAFile
    | AlreadyThere
    | NotThere
    | NotADirectory

  // ----- what is accepted

  /** The answers of `check_path` describe the base tree, where they are known at all. */
  ghost predicate Answers(base: Tree, kinds: Path -> NodeKind) {
    forall p :: kinds(p) == KindUnknown ||
      kinds(p) == if p !in base then KindNone else if base[p].Dir? then KindDir else KindFile
  }

  predicate PathsAccepted(changes: seq<StreamFileChange>) {
    && (forall k :: 0 <= k < |changes| ==> Canonical(changes[k].path, false).Ok?)
    && (forall j, k :: 0 <= j < k < |changes| ==> Canonical(changes[j].path, false) != Canonical(changes[k].path, false))
  }

  /** A file may go here: nothing but a file is there, and it is there or not as the mode asks. */
  predicate TargetAccepted(kinds: Path -> NodeKind, path: Path, mode: FileContentMode) {
    match kinds(path)
    case KindNone => mode != ReplaceOnly
    case KindFile => mode != AddOnly
    case KindDir => false
    case KindUnknown => false
  }

  predicate DirectoryAccepted(kinds: Path -> NodeKind, dir: Path) {
    kinds(dir) == KindDir || kinds(dir) == KindNone
  }

  /** The change with its path in canonical form and the answer for it. */
  function Resolved(kinds: Path -> NodeKind, c: StreamFileChange): StreamFile
    requires Canonical(c.path, false).Ok?
  {
    var path := Canonical(c.path, false).value;
    StreamFile(path, kinds(path) == KindFile, c.runs)
  }

  function ResolvedAll(kinds: Path -> NodeKind, changes: seq<StreamFileChange>): seq<StreamFile>
    requires forall k :: 0 <= k < |changes| ==> Canonical(changes[k].path, false).Ok?
  {
    seq(|changes|, k requires 0 <= k < |changes| => Resolved(kinds, changes[k]))
  }

  ghost predicate Admissible(kinds: Path -> NodeKind, changes: seq<StreamFileChange>, level: nat) {
    && changes != [] && level <= MAX_ZLIB_LEVEL
    && PathsAccepted(changes)
    && (forall k :: 0 <= k < |changes| ==>
          TargetAccepted(kinds, Canonical(changes[k].path, false).value, changes[k].mode))
    && (forall d :: d in Ancestors(ResolvedAll(kinds, changes)) ==> DirectoryAccepted(kinds, d))
  }

  // ----- what is reported otherwise

  /** Change `k` is the first whose path is refused. */
  ghost predicate PathFails(changes: seq<StreamFileChange>, k: nat, e: CommitError) {
    && k < |changes| && PathsAccepted(changes[..k])
    && match Canonical(changes[k].path, false)
       case Err(error) => e == BadPath(error)
       case Ok(_) => e == DuplicatePath && exists j :: 0 <= j < k && Canonical(changes[j].path, false) == Canonical(changes[k].path, false)
  }

  function TargetError(kind: NodeKind): CommitError {
    match kind
    case KindDir => NotAFile
    case KindUnknown => NotAFile
    case KindFile => AlreadyThere
    case KindNone => NotThere
  }

  /** Change `k` is the first that may not go where it should. */
  ghost predicate TargetFails(kinds: Path -> NodeKind, changes: seq<StreamFileChange>, k: nat, e: CommitError)
    requires PathsAccepted(changes)
  {
    && k < |changes|
    && (forall j :: 0 <= j < k ==> TargetAccepted(kinds, Canonical(changes[j].path, false).value, changes[j].mode))
    && !TargetAccepted(kinds, Canonical(changes[k].path, false).value, changes[k].mode)
    && e == TargetError(kinds(Canonical(changes[k].path, false).value))
  }

  /** The error of the first check that fails: paths before targets, targets before directories, each list from the front. */
  ghost predicate Reports(kinds: Path -> NodeKind, changes: seq<StreamFileChange>, level: nat, e: CommitError) {
    if changes == [] then e == NoChanges
    else if level > MAX_ZLIB_LEVEL then e == BadZlibLevel
    else if !PathsAccepted(changes) then exists k :: PathFails(changes, k, e)
    else if exists k :: 0 <= k < |changes| && !TargetAccepted(kinds, Canonical(changes[k].path, false).value, changes[k].mode)
    then exists k :: TargetFails(kinds, changes, k, e)
    else e == NotADirectory && exists d :: d in Ancestors(ResolvedAll(kinds, changes)) && !DirectoryAccepted(kinds, d)
  }

  /** One error at most can be reported. */
  lemma ReportedOnce(kinds: Path -> NodeKind, changes: seq<StreamFileChange>, level: nat, e: CommitError, f: CommitError)
    requires Reports(kinds, changes, level, e) && Reports(kinds, changes, level, f)
    ensures e == f
  {
    hide Canonical, Ancestors, ResolvedAll, PathFails, TargetFails;
    if changes != [] && level <= MAX_ZLIB_LEVEL {
      if !PathsAccepted(changes) {
        var j :| PathFails(changes, j, e);
        var k :| PathFails(changes, k, f);
        FirstPath(changes, j, e, k, f);
        FirstPath(changes, k, f, j, e);
      } else if exists k :: 0 <= k < |changes| && !TargetAccepted(kinds, Canonical(changes[k].path, false).value, changes[k].mode) {
        var j :| TargetFails(kinds, changes, j, e);
        var k :| TargetFails(kinds, changes, k, f);
        FirstTarget(kinds, changes, j, e, k, f);
      }
    }
  }

  lemma FirstPath(changes: seq<StreamFileChange>, j: nat, e: CommitError, k: nat, f: CommitError)
    requires PathFails(changes, j, e) && PathFails(changes, k, f)
    ensures j >= k && (j == k ==> e == f)
  {
    hide Canonical, PathsAccepted;
    if j < k { RefusedAfter(changes, j, e, k); }
  }

  lemma RefusedAfter(changes: seq<StreamFileChange>, k: nat, e: CommitError, n: nat)
    requires PathFails(changes, k, e) && k < n <= |changes|
    ensures !PathsAccepted(changes[..n])
  {
    hide Canonical;
    var before := changes[..n];
    assert before[k] == changes[k] && forall i :: 0 <= i < k ==> before[i] == changes[i];
  }

  lemma FirstTarget(kinds: Path -> NodeKind, changes: seq<StreamFileChange>, j: nat, e: CommitError, k: nat, f: CommitError)
    requires PathsAccepted(changes) && TargetFails(kinds, changes, j, e) && TargetFails(kinds, changes, k, f)
    ensures e == f
  {
    hide Canonical, PathsAccepted;
  }

  // ----- what acceptance means for the base tree

  /** The change names this path, and the base has there what its mode asks for: never a directory. */
  ghost predicate Agrees(base: Tree, c: StreamFileChange) {
    Canonical(c.path, false).Ok? &&
    var path := Canonical(c.path, false).value;
    && (path in base ==> base[path].File?)
    && (c.mode == AddOnly ==> path !in base)
    && (c.mode == ReplaceOnly ==> path in base)
  }

  /** The change names a file of the base. */
  ghost predicate NamesFile(base: Tree, c: StreamFileChange) {
    Canonical(c.path, false).Ok? && Canonical(c.path, false).value in base && base[Canonical(c.path, false).value].File?
  }

  ghost predicate NamesNothing(base: Tree, c: StreamFileChange) {
    Canonical(c.path, false).Ok? && Canonical(c.path, false).value !in base
  }

  /** The server has said what is at the path of the change. */
  predicate Known(kinds: Path -> NodeKind, c: StreamFileChange) {
    Canonical(c.path, false).Ok? ==> kinds(Canonical(c.path, false).value) != KindUnknown
  }

  /** There is a reason for the error in the changes and in the base. */
  ghost predicate Justified(base: Tree, kinds: Path -> NodeKind, changes: seq<StreamFileChange>, level: nat, e: CommitError) {
    match e
    case NoChanges => changes == []
    case BadZlibLevel => level > 9
    case BadPath(error) => exists c :: c in changes && Canonical(c.path, false) == Err(error)
    case DuplicatePath =>
      exists j, k :: 0 <= j < k < |changes| && Canonical(changes[j].path, false).Ok? && Canonical(changes[j].path, false) == Canonical(changes[k].path, false)
    case NotADirectory =>
      exists c, d :: c in changes && Canonical(c.path, false).Ok? && IsUnder(d, Canonical(c.path, false).value) && !MayLead(base, kinds, d)
    case AlreadyThere => exists c :: c in changes && c.mode == AddOnly && NamesFile(base, c)
    case NotThere => exists c :: c in changes && c.mode == ReplaceOnly && NamesNothing(base, c)
    case NotAFile => exists c :: c in changes && (!Known(kinds, c) || !(NamesFile(base, c) || NamesNothing(base, c)))
  }

  lemma TargetAgrees(base: Tree, kinds: Path -> NodeKind, c: StreamFileChange)
    requires Answers(base, kinds) && Canonical(c.path, false).Ok?
    ensures TargetAccepted(kinds, Canonical(c.path, false).value, c.mode) <==> Known(kinds, c) && Agrees(base, c)
  {
    hide Canonical;
  }

  /** An error about a target is justified by the base, and changes that agree with it get none. */
  lemma ReportedJustified(base: Tree, kinds: Path -> NodeKind, changes: seq<StreamFileChange>, level: nat, e: CommitError)
    requires Answers(base, kinds) && Reports(kinds, changes, level, e)
    ensures Justified(base, kinds, changes, level, e)
    ensures (forall c :: c in changes ==> Known(kinds, c) && Agrees(base, c)) ==> e !in {NotAFile, AlreadyThere, NotThere}
  {
    hide Canonical, Ancestors, ResolvedAll, Agrees, Known, TargetAccepted, Justified, Reports, Answers;
    if e in {NotAFile, AlreadyThere, NotThere} {
      ReportedTarget(kinds, changes, level, e);
      var k: nat :| TargetFails(kinds, changes, k, e);
      TargetAgrees(base, kinds, changes[k]);
      FailureJustified(base, kinds, changes[k], e);
      assert changes[k] in changes;
      JustifiedBy(base, kinds, changes, level, e);
    } else if e == NotADirectory {
      DirectoryJustified(base, kinds, changes, level);
    } else {
      PathJustified(base, kinds, changes, level, e);
    }
  }

  /** The complaint about a directory is about one above some change. */
  lemma DirectoryJustified(base: Tree, kinds: Path -> NodeKind, changes: seq<StreamFileChange>, level: nat)
    requires Answers(base, kinds) && Reports(kinds, changes, level, NotADirectory)
    ensures Justified(base, kinds, changes, level, NotADirectory)
  {
    hide Canonical, Ancestors, ResolvedAll, TargetAccepted, DirectoryAccepted, MayLead, IsUnder, Answers;
    NotATarget(kinds, changes, level);
    LeadersAre(kinds, changes);
    var d :| d in Ancestors(ResolvedAll(kinds, changes)) && !DirectoryAccepted(kinds, d);
    DirectoryLeads(base, kinds, d);
    var c :| c in changes && IsUnder(d, Canonical(c.path, false).value);
    var k :| 0 <= k < |changes| && changes[k] == c;
  }

  lemma NotATarget(kinds: Path -> NodeKind, changes: seq<StreamFileChange>, level: nat)
    requires Reports(kinds, changes, level, NotADirectory)
    ensures PathsAccepted(changes)
    ensures exists d :: d in Ancestors(ResolvedAll(kinds, changes)) && !DirectoryAccepted(kinds, d)
  {
    hide Canonical, Ancestors, ResolvedAll, TargetAccepted, DirectoryAccepted;
  }

  lemma PathJustified(base: Tree, kinds: Path -> NodeKind, changes: seq<StreamFileChange>, level: nat, e: CommitError)
    requires Reports(kinds, changes, level, e) && e !in {NotAFile, AlreadyThere, NotThere, NotADirectory}
    ensures Justified(base, kinds, changes, level, e)
  {
    hide Canonical, Ancestors, ResolvedAll, TargetAccepted, DirectoryAccepted, MayLead, IsUnder;
    if changes != [] && level <= MAX_ZLIB_LEVEL {
      assert !PathsAccepted(changes);
      var k: nat :| PathFails(changes, k, e);
      assert changes[k] in changes;
    }
  }

  /** The first target that fails shows what the error says. */
  ghost predicate Shows(base: Tree, kinds: Path -> NodeKind, c: StreamFileChange, e: CommitError) {
    match e
    case AlreadyThere => c.mode == AddOnly && NamesFile(base, c)
    case NotThere => c.mode == ReplaceOnly && NamesNothing(base, c)
    case NotAFile => !Known(kinds, c) || !(NamesFile(base, c) || NamesNothing(base, c))
    case _ => false
  }

  lemma FailureJustified(base: Tree, kinds: Path -> NodeKind, c: StreamFileChange, e: CommitError)
    requires Answers(base, kinds) && Canonical(c.path, false).Ok?
    requires !TargetAccepted(kinds, Canonical(c.path, false).value, c.mode)
    requires e == TargetError(kinds(Canonical(c.path, false).value))
    ensures Shows(base, kinds, c, e)
  {
    hide Canonical;
  }

  lemma JustifiedBy(base: Tree, kinds: Path -> NodeKind, changes: seq<StreamFileChange>, level: nat, e: CommitError)
    requires e in {NotAFile, AlreadyThere, NotThere} && exists c :: c in changes && Shows(base, kinds, c, e)
    ensures Justified(base, kinds, changes, level, e)
  {
    hide Canonical, NamesFile, NamesNothing, Known;
  }

  /**
   What the base tree has to look like for the changes to be taken: at least one change, different
   paths, each agreeing with the base, and nothing but directories above them.
   */
  ghost predicate Acceptable(base: Tree, kinds: Path -> NodeKind, changes: seq<StreamFileChange>, level: nat) {
    && changes != [] && level <= 9
    && (forall c :: c in changes ==> Known(kinds, c) && Agrees(base, c))
    && (forall j, k :: 0 <= j < k < |changes| ==> Canonical(changes[j].path, false) != Canonical(changes[k].path, false))
    && (forall c, d :: c in changes && IsUnder(d, Canonical(c.path, false).value) ==> MayLead(base, kinds, d))
  }

  /** A directory of the base, or nothing; and the server has said so. */
  ghost predicate MayLead(base: Tree, kinds: Path -> NodeKind, d: Path) {
    kinds(d) != KindUnknown && (d in base ==> base[d].Dir?)
  }

  lemma DirectoryLeads(base: Tree, kinds: Path -> NodeKind, d: Path)
    requires Answers(base, kinds)
    ensures DirectoryAccepted(kinds, d) <==> MayLead(base, kinds, d)
  {
  }

  /** The changes are admitted exactly when the base tree is as they need it. */
  lemma AdmissibleIff(base: Tree, kinds: Path -> NodeKind, changes: seq<StreamFileChange>, level: nat)
    requires Answers(base, kinds)
    ensures Admissible(kinds, changes, level) <==> Acceptable(base, kinds, changes, level)
  {
    hide Canonical, TargetAccepted, DirectoryAccepted, Agrees, Known, MayLead, Answers, Ancestors, ResolvedAll, IsUnder;
    forall d ensures DirectoryAccepted(kinds, d) <==> MayLead(base, kinds, d) {
      DirectoryLeads(base, kinds, d);
    }
    if Admissible(kinds, changes, level) || Acceptable(base, kinds, changes, level) {
      AgreeingPaths(base, changes);
      TargetsAgree(base, kinds, changes);
      LeadersAre(kinds, changes);
    }
  }

  lemma AgreeingPaths(base: Tree, changes: seq<StreamFileChange>)
    ensures (forall c :: c in changes ==> Agrees(base, c)) ==> forall k :: 0 <= k < |changes| ==> Canonical(changes[k].path, false).Ok?
  {
    hide Canonical;
    forall k | 0 <= k < |changes| && (forall c :: c in changes ==> Agrees(base, c)) ensures Canonical(changes[k].path, false).Ok? {
      assert changes[k] in changes;
    }
  }

  lemma TargetsAgree(base: Tree, kinds: Path -> NodeKind, changes: seq<StreamFileChange>)
    requires Answers(base, kinds) && forall k :: 0 <= k < |changes| ==> Canonical(changes[k].path, false).Ok?
    ensures (forall c :: c in changes ==> Known(kinds, c) && Agrees(base, c))
       <==> forall k :: 0 <= k < |changes| ==> TargetAccepted(kinds, Canonical(changes[k].path, false).value, changes[k].mode)
  {
    hide Canonical, TargetAccepted, Agrees, Known, Answers;
    forall k | 0 <= k < |changes|
      ensures TargetAccepted(kinds, Canonical(changes[k].path, false).value, changes[k].mode) <==> Known(kinds, changes[k]) && Agrees(base, changes[k])
    {
      TargetAgrees(base, kinds, changes[k]);
    }
    if forall c :: c in changes ==> Known(kinds, c) && Agrees(base, c) {
      forall k | 0 <= k < |changes| ensures TargetAccepted(kinds, Canonical(changes[k].path, false).value, changes[k].mode) {
        assert changes[k] in changes;
      }
    }
  }

  /** The directories asked about are those above some change. */
  lemma LeadersAre(kinds: Path -> NodeKind, changes: seq<StreamFileChange>)
    requires forall k :: 0 <= k < |changes| ==> Canonical(changes[k].path, false).Ok?
    ensures forall d :: d in Ancestors(ResolvedAll(kinds, changes)) <==> exists c :: c in changes && IsUnder(d, Canonical(c.path, false).value)
  {
    hide Canonical, Ancestors, IsUnder, Relative;
    var files := ResolvedAll(kinds, changes);
    forall f | f in files ensures Relative(f.path) {
      var k :| 0 <= k < |files| && files[k] == f;
      CanonicalRelative(changes[k].path);
    }
    forall d ensures d in Ancestors(files) <==> exists c :: c in changes && IsUnder(d, Canonical(c.path, false).value) {
      InAncestors(files, d);
      if f :| f in files && IsUnder(d, f.path) {
        var k :| 0 <= k < |files| && files[k] == f;
        assert changes[k] in changes;
      }
      if c :| c in changes && IsUnder(d, Canonical(c.path, false).value) {
        var k :| 0 <= k < |changes| && changes[k] == c;
        assert files[k] in files;
      }
    }
  }

  lemma ReportedTarget(kinds: Path -> NodeKind, changes: seq<StreamFileChange>, level: nat, e: CommitError)
    requires Reports(kinds, changes, level, e) && e in {NotAFile, AlreadyThere, NotThere}
    ensures PathsAccepted(changes) && exists k :: TargetFails(kinds, changes, k, e)
  {
    hide Canonical, Ancestors, ResolvedAll, TargetAccepted;
  }

  // ----- sorting

  function Inserted(f: StreamFile, sorted: seq<StreamFile>): seq<StreamFile> {
    if sorted == [] || Less(f.path, sorted[0].path) then [f] + sorted
    else [sorted[0]] + Inserted(f, sorted[1..])
  }

  /** `sort_by` on the path. */
  function Sorted(files: seq<StreamFile>): seq<StreamFile> {
    if files == [] then [] else Inserted(files[0], Sorted(files[1..]))
  }

  lemma {:induction false} InsertedHas(f: StreamFile, sorted: seq<StreamFile>)
    ensures multiset(Inserted(f, sorted)) == multiset(sorted) + multiset{f}
    ensures forall g :: g in Inserted(f, sorted) <==> g == f || g in sorted
  {
    if sorted == [] || Less(f.path, sorted[0].path) {
    } else {
      InsertedHas(f, sorted[1..]);
      assert sorted == [sorted[0]] + sorted[1..];
    }
  }

  lemma {:induction false} InsertedSorted(f: StreamFile, sorted: seq<StreamFile>)
    requires SortedByPath(sorted) && forall g :: g in sorted ==> g.path != f.path
    ensures SortedByPath(Inserted(f, sorted))
  {
    hide Less;
    if sorted == [] {
    } else if Less(f.path, sorted[0].path) {
      forall j | 0 < j < |sorted| ensures Less(f.path, sorted[j].path) {
        LessTransitive(f.path, sorted[0].path, sorted[j].path);
      }
    } else {
      var first, rest := sorted[0], sorted[1..];
      assert first in sorted && forall g :: g in rest ==> g in sorted;
      LessTotal(first.path, f.path);
      InsertedSorted(f, rest);
      InsertedHas(f, rest);
      var r := Inserted(f, rest);
      forall j | 0 <= j < |r| ensures Less(first.path, r[j].path) {
        assert r[j] in r;
        if r[j] != f {
          var k :| 0 <= k < |rest| && rest[k] == r[j];
          assert sorted[k + 1] == r[j];
        }
      }
    }
  }

  /** Files with different paths come out in order, and they are the same files. */
  lemma {:induction false} SortedIsSorted(files: seq<StreamFile>)
    requires forall i, j :: 0 <= i < j < |files| ==> files[i].path != files[j].path
    ensures SortedByPath(Sorted(files)) && multiset(Sorted(files)) == multiset(files)
    ensures forall f :: f in Sorted(files) <==> f in files
  {
    hide Less, Inserted, SortedByPath;
    if files == [] {
      NothingSorted();
    } else {
      var rest := files[1..];
      assert files == [files[0]] + rest;
      SortedIsSorted(rest);
      forall g | g in Sorted(rest) ensures g.path != files[0].path {
        OtherPath(files, g);
      }
      InsertedSorted(files[0], Sorted(rest));
      InsertedHas(files[0], Sorted(rest));
    }
  }

  lemma NothingSorted()
    ensures SortedByPath([])
  {
  }

  lemma OtherPath(files: seq<StreamFile>, g: StreamFile)
    requires forall i, j :: 0 <= i < j < |files| ==> files[i].path != files[j].path
    requires files != [] && g in files[1..]
    ensures g.path != files[0].path
  {
    var k :| 0 <= k < |files| - 1 && files[1..][k] == g;
    assert files[k + 1] == g;
  }

  // ----- what a drive does for the files

  function EntryAction(s: Settings, f: StreamFile): Action {
    if f.present then FileOpened(f.path, s.baseRev) else FileAdded(f.path, None)
  }

  /** The file opened or added, its contents as a delta with no checksums, the file closed. */
  function FileActions(s: Settings, f: StreamFile): seq<Action>
    requires s.windowSize > 0
  {
    [EntryAction(s, f), DeltaBegun(f.path, None)]
    + ChunkActions(f.path, SentChunks(s.codecs, s.version, s.level, WindowsOf(f.runs, s.windowSize)))
    + [DeltaEnded(f.path), FileClosed(f.path, None)]
  }

  function AllFileActions(s: Settings, files: seq<StreamFile>): seq<Action>
    requires s.windowSize > 0
  {
    if files == [] then []
    else AllFileActions(s, files[..|files| - 1]) + FileActions(s, files[|files| - 1])
  }

  // ----- one file

  lemma FileSent(s: Settings, base: Repo, cmds: seq<EditorCommand>, stack: seq<Frame>, used: set<Token>,
                 x: Option<Content>, f: StreamFile, c: EditorCommand, parent: Token, token: Token, dirs: nat, files: nat)
    requires stack != [] && f.path != [] && ParentDir(f.path) == stack[|stack| - 1].path && parent == stack[|stack| - 1].token
    requires files > 0 && token == FileToken(files) && forall t :: t in used ==> Issued(t, dirs, files - 1)
    requires At(s.codecs, base, cmds, Walking(s.baseRev, stack, used), x)
    requires c == if f.present then OpenFile(f.path, parent, token, s.baseRev) else AddFile(f.path, parent, token, None)
    ensures At(s.codecs, base, cmds + [c], FileOpen(s.baseRev, stack, used + {token}, Frame(f.path, token)), Opened(x, f.path, f.present))
    ensures DirsOpened(cmds + [c]) == DirsOpened(cmds) && Actions(cmds + [c]) == Actions(cmds) + [EntryAction(s, f)]
    ensures forall t :: t in used + {token} ==> Issued(t, dirs, files)
  {
    hide At, DirsOpened, Actions, Issued;
    FileEntered(s.baseRev, stack, used, f.path, token, dirs, files, c, parent);
    AtSent(s.codecs, base, cmds, Walking(s.baseRev, stack, used), x, c);
    ActionsSent(s.codecs, base, cmds, Walking(s.baseRev, stack, used), x, c);
    DirsOpenedSent(cmds, c);
  }

  lemma DeltaStarted(codecs: Codecs, base: Repo, cmds: seq<EditorCommand>, n: Nest, x: Option<Content>, token: Token)
    requires InFile(n, token) && NoDelta(x) && At(codecs, base, cmds, n, x)
    ensures var c := ApplyTextDelta(token, None);
      && At(codecs, base, cmds + [c], n, Receiving(x, []))
      && DirsOpened(cmds + [c]) == DirsOpened(cmds)
      && Actions(cmds + [c]) == Actions(cmds) + [DeltaBegun(n.file.value.path, None)]
  {
    hide At, DirsOpened, Actions;
    AtSent(codecs, base, cmds, n, x, ApplyTextDelta(token, None));
    ActionsSent(codecs, base, cmds, n, x, ApplyTextDelta(token, None));
    DirsOpenedSent(cmds, ApplyTextDelta(token, None));
  }

  /** At its end the delta turns the open file into what its reader delivered, or is refused. */
  lemma DeltaWrites(s: Settings, n: Nest, x: Option<Content>, f: StreamFile, token: Token)
    requires Faithful(s.codecs) && 0 < s.windowSize < MAX_SLICE_LEN && n.file == Some(Frame(f.path, token))
    ensures var sent := SentChunks(s.codecs, s.version, s.level, WindowsOf(f.runs, s.windowSize));
      Bind(s.codecs, n, Receiving(Opened(x, f.path, f.present), sent), TextDeltaEnd(token)) == AfterFile(x, f, s.windowSize)
  {
    hide Faithful, EncodedStream, Applier.Run, AllFit, Delivered, SentChunks;
    var held := Opened(x, f.path, f.present);
    var windows := WindowsOf(f.runs, s.windowSize);
    if held.Some? {
      var contents := held.value.tree[f.path].contents;
      WindowsWhole(f.runs, s.windowSize);
      SentIsStream(s.codecs, s.version, s.level, windows);
      StreamRoundTrip(s.codecs, Applier.InMemory(contents), s.version, s.level, windows,
                      SentChunks(s.codecs, s.version, s.level, windows));
      FitsEither(f.runs, s.windowSize);
      var after := File(Flatten(f.runs), KeptProps(x.value.tree, f.path));
      assert held.value.tree[f.path := after] == x.value.tree[f.path := after];
    }
  }

  lemma FitsEither(runs: seq<seq<byte>>, size: nat)
    requires size > 0
    ensures AllFit(WindowsOf(runs, size)) <==> AllFit(Delivered(runs, size))
  {
  }

  lemma FileLeft(codecs: Codecs, base: Repo, cmds: seq<EditorCommand>, rev: u64, stack: seq<Frame>, used: set<Token>,
                 x: Option<Content>, y: Option<Content>, path: Path, token: Token)
    requires var n := FileOpen(rev, stack, used, Frame(path, token));
      At(codecs, base, cmds, n, x) && Bind(codecs, n, x, TextDeltaEnd(token)) == y && NoDelta(y)
    ensures var cmds' := cmds + [TextDeltaEnd(token)] + [CloseFile(token, None)];
      && At(codecs, base, cmds', Walking(rev, stack, used), y)
      && DirsOpened(cmds') == DirsOpened(cmds)
      && Actions(cmds') == Actions(cmds) + [DeltaEnded(path), FileClosed(path, None)]
  {
    hide At, DirsOpened, Actions, Applier.Run;
    var n := FileOpen(rev, stack, used, Frame(path, token));
    AtSent(codecs, base, cmds, n, x, TextDeltaEnd(token));
    ActionsSent(codecs, base, cmds, n, x, TextDeltaEnd(token));
    DirsOpenedSent(cmds, TextDeltaEnd(token));
    var cmds1 := cmds + [TextDeltaEnd(token)];
    AtSent(codecs, base, cmds1, n, y, CloseFile(token, None));
    ActionsSent(codecs, base, cmds1, n, y, CloseFile(token, None));
    DirsOpenedSent(cmds1, CloseFile(token, None));
    assert Bind(codecs, n, y, CloseFile(token, None)) == y;
  }

  method SendFile(drive: Drive, tokens: TokenGen, stack: seq<Frame>, f: StreamFile, s: Settings,
                  ghost base: Repo, ghost used0: set<Token>, ghost x: Option<Content>)
    returns (ghost used: set<Token>)
    requires Faithful(s.codecs) && 0 < s.windowSize < MAX_SLICE_LEN && forall r :: r in f.runs ==> r != []
    requires stack != [] && f.path != [] && ParentDir(f.path) == stack[|stack| - 1].path
    requires At(s.codecs, base, drive.commands, Walking(s.baseRev, stack, used0), x) && AllIssued(used0, tokens) && NoDelta(x)
    modifies drive, tokens
    ensures AllIssued(used, tokens)
    ensures At(s.codecs, base, drive.commands, Walking(s.baseRev, stack, used), AfterFile(x, f, s.windowSize))
    ensures DirsOpened(drive.commands) == old(DirsOpened(drive.commands))
    ensures Actions(drive.commands) == old(Actions(drive.commands)) + FileActions(s, f)
  {
    hide At, DirsOpened, Actions, Opened, AfterFile, Receiving, Issued, Faithful, SentChunks, WindowsOf, Bind, ChunkActions, EntryAction;
    var dirToken := stack[|stack| - 1].token;
    var fileToken := tokens.File();
    used := used0 + {fileToken};
    ghost var n := FileOpen(s.baseRev, stack, used, Frame(f.path, fileToken));
    ghost var start := Actions(drive.commands);
    var c := if f.present then OpenFile(f.path, dirToken, fileToken, s.baseRev) else AddFile(f.path, dirToken, fileToken, None);
    FileSent(s, base, drive.commands, stack, used0, x, f, c, dirToken, fileToken, tokens.nextDir, tokens.nextFile);
    drive.Send(c);
    OpenedNoDelta(x, f);
    DeltaStarted(s.codecs, base, drive.commands, n, Opened(x, f.path, f.present), fileToken);
    drive.Send(ApplyTextDelta(fileToken, None));
    ghost var begun := start + [EntryAction(s, f)] + [DeltaBegun(f.path, None)];
    SendContents(drive, fileToken, f.runs, s.codecs, s.version, s.level, s.windowSize, base, n, Opened(x, f.path, f.present), begun);
    ghost var sent := SentChunks(s.codecs, s.version, s.level, WindowsOf(f.runs, s.windowSize));
    DeltaWrites(s, n, x, f, fileToken);
    AfterNoDelta(x, f, s.windowSize);
    FileLeft(s.codecs, base, drive.commands, s.baseRev, stack, used, Receiving(Opened(x, f.path, f.present), sent), AfterFile(x, f, s.windowSize),
             f.path, fileToken);
    drive.Send(TextDeltaEnd(fileToken));
    drive.Send(CloseFile(fileToken, None));
    ActionsRegrouped(start, EntryAction(s, f), DeltaBegun(f.path, None), ChunkActions(f.path, sent),
                     [DeltaEnded(f.path), FileClosed(f.path, None)]);
  }

  lemma ActionsRegrouped(start: seq<Action>, a: Action, b: Action, chunks: seq<Action>, end: seq<Action>)
    ensures (start + [a] + [b] + chunks) + end == start + ([a, b] + chunks + end)
  {
  }

  lemma OpenedNoDelta(x: Option<Content>, f: StreamFile)
    requires NoDelta(x)
    ensures NoDelta(Opened(x, f.path, f.present))
  {
  }

  lemma AfterNoDelta(x: Option<Content>, f: StreamFile, size: nat)
    requires size > 0
    ensures NoDelta(AfterFile(x, f, size))
  {
  }

  // ----- the whole drive

  /**
   What a drive for these files is worth: it is well nested at the base revision, opens each directory
   needed exactly once, does to files just what is asked, and either brings the base tree to the
   intended one or is refused.
   */
  ghost predicate Carries(s: Settings, base: Repo, files: seq<StreamFile>, cmds: seq<EditorCommand>)
    requires s.windowSize > 0
  {
    && WellNested(cmds) && NestRun(cmds).value.rev == Some(s.baseRev)
    && Distinct(PathsOf(DirsOpened(cmds))) && Elems(PathsOf(DirsOpened(cmds))) == Ancestors(files)
    && Actions(cmds) == AllFileActions(s, files)
    && Progress(base.tree, files, s.windowSize, |files|, EditRun(s.codecs, base, cmds))
  }

  /** Inside the drive, with the first `i` files sent. */
  ghost predicate Standing(s: Settings, base: Repo, files: seq<StreamFile>, i: nat, cmds: seq<EditorCommand>,
                           stack: seq<Frame>, used: set<Token>, x: Option<Content>)
    requires s.windowSize > 0 && i <= |files|
  {
    && Stacked(stack, Chain(Before(files, i)))
    && At(s.codecs, base, cmds, Walking(s.baseRev, stack, used), x)
    && Progress(base.tree, files, s.windowSize, i, x)
    && Distinct(PathsOf(DirsOpened(cmds))) && Elems(PathsOf(DirsOpened(cmds))) == Ancestors(files[..i])
    && Actions(cmds) == AllFileActions(s, files[..i])
  }

  lemma DirsGrow(files: seq<StreamFile>, i: nat, dirs: seq<Path>)
    requires i < |files| && SortedByPath(files) && forall f :: f in files ==> Relative(f.path)
    requires Distinct(dirs) && Elems(dirs) == Ancestors(files[..i])
    ensures Distinct(dirs + Entered(files, i)) && Elems(dirs + Entered(files, i)) == Ancestors(files[..i + 1])
  {
    hide Ancestors, Entered, SortedByPath, Relative;
    AncestorsGrow(files, i);
    EnteredIs(files, i);
    forall d | d in Entered(files, i) ensures d !in dirs {
      EnteredIsNew(files, i, d);
      assert d !in Elems(dirs);
    }
    DistinctAppend(dirs, Entered(files, i));
  }

  lemma FileActionsGrow(s: Settings, files: seq<StreamFile>, i: nat)
    requires s.windowSize > 0 && i < |files|
    ensures AllFileActions(s, files[..i + 1]) == AllFileActions(s, files[..i]) + FileActions(s, files[i])
  {
    hide FileActions;
    assert files[..i + 1][..i] == files[..i];
  }

  lemma ReachedNoDelta(base: Tree, files: seq<StreamFile>, size: nat, i: nat, x: Option<Content>)
    requires size > 0 && i < |files| && Reached(base, files, size, i, x)
    ensures NoDelta(x)
  {
  }

  /** Walks to the directory of the next file and sends the file. */
  method SendNext(drive: Drive, tokens: TokenGen, start: seq<Frame>, files: seq<StreamFile>, i: nat, plans: map<Path, DirPlan>,
                  s: Settings, ghost base: Repo, ghost used0: set<Token>, ghost x0: Option<Content>)
    returns (stack: seq<Frame>, ghost used: set<Token>, ghost x: Option<Content>)
    requires Faithful(s.codecs) && 0 < s.windowSize < MAX_SLICE_LEN && i < |files| && forall r :: r in files[i].runs ==> r != []
    requires Planned(base.tree, files, plans) && AllIssued(used0, tokens)
    requires Standing(s, base, files, i, drive.commands, start, used0, x0)
    modifies drive, tokens
    ensures AllIssued(used, tokens)
    ensures Standing(s, base, files, i + 1, drive.commands, stack, used, x)
  {
    hide At, DirsOpened, Actions, Chain, EnterAll, AllIssued, Faithful, Progress, Reached, AfterFile, PlansMatch, Ancestors, CommonLen,
         SortedByPath, Stacked, Relative, ParentDir, NoDelta, FileActions, AllFileActions, AsPlanned, PathsOf;
    var f := files[i];
    assert f in files && forall g :: g in files ==> Relative(g.path);
    var parent := ParentDir(f.path);
    ParentRelative(f.path);
    var targetDirs := DirPrefixes(parent);
    DirsStep(base.tree, files, s.windowSize, plans, i, x0);
    DirsGrow(files, i, PathsOf(DirsOpened(drive.commands)));
    AsPlannedAppend(plans, Entered(files, i), []);
    PathsAppend(DirsOpened(drive.commands), AsPlanned(plans, Entered(files, i)));
    FileActionsGrow(s, files, i);
    var missing;
    stack, missing, used := Align(drive, tokens, start, targetDirs, plans, s.baseRev, Before(files, i), parent, s.codecs, base, used0, x0);
    x := EnterAll(plans, x0, Entered(files, i));
    StackTop(stack, parent);
    ReachedNoDelta(base.tree, files, s.windowSize, i, x);
    NotEmptyPath(f.path);
    used := SendFile(drive, tokens, stack, f, s, base, used, x);
    FileStep(base.tree, files, s.windowSize, plans, i, x);
    x := AfterFile(x, f, s.windowSize);
  }

  lemma NotEmptyPath(p: Path)
    requires Relative(p)
    ensures p != []
  {
  }

  lemma RootOpened(s: Settings, base: Repo, files: seq<StreamFile>)
    requires s.windowSize > 0
    ensures Standing(s, base, files, 0, [OpenRoot(Some(s.baseRev), ROOT_TOKEN)], [Frame([], ROOT_TOKEN)], {ROOT_TOKEN},
                     Some(Untouched(base)))
  {
    hide At, DirsOpened, Actions;
    RootBegun(s, base);
    assert files[..0] == [];
    assert Ancestors([]) == {};
  }

  /** The closure handed to `commit_drive`. */
  method SendAll(drive: Drive, files: seq<StreamFile>, plans: map<Path, DirPlan>, s: Settings, ghost base: Repo)
    requires Faithful(s.codecs) && 0 < s.windowSize < MAX_SLICE_LEN && forall f, r :: f in files && r in f.runs ==> r != []
    requires Planned(base.tree, files, plans) && drive.commands == []
    modifies drive
    ensures Carries(s, base, files, drive.commands)
  {
    hide Faithful, Planned, Standing, Progress, Issued, Carries;
    var tokens := new TokenGen();
    var stack := [Frame([], ROOT_TOKEN)];
    ghost var used, x := {ROOT_TOKEN}, Some(Untouched(base));
    RootOpened(s, base, files);
    drive.Send(OpenRoot(Some(s.baseRev), ROOT_TOKEN));
    assert drive.commands == [OpenRoot(Some(s.baseRev), ROOT_TOKEN)];
    RootIssued(tokens.nextDir, tokens.nextFile);
    var i := 0;
    while i < |files|
      invariant i <= |files| && fresh(tokens) && AllIssued(used, tokens)
      invariant Standing(s, base, files, i, drive.commands, stack, used, x)
    {
      assert files[i] in files;
      stack, used, x := SendNext(drive, tokens, stack, files, i, plans, s, base, used, x);
      i := i + 1;
    }
    SendEnd(drive, files, stack, s, base, used, x);
  }

  /** Closes what is still open, the root and the edit. */
  method SendEnd(drive: Drive, ghost files: seq<StreamFile>, start: seq<Frame>, ghost s: Settings, ghost base: Repo,
                 ghost used: set<Token>, ghost x: Option<Content>)
    requires s.windowSize > 0 && Standing(s, base, files, |files|, drive.commands, start, used, x)
    modifies drive
    ensures Carries(s, base, files, drive.commands)
  {
    hide At, DirsOpened, Actions, NestRun, EditRun, Progress, Chain, AllFileActions;
    assert files[..|files|] == files;
    var stack := CloseTo(drive, start, 1, s.baseRev, s.codecs, base, used, x);
    assert stack == [Frame([], ROOT_TOKEN)];
    RootClosed(s, base, drive.commands, stack, used, x);
    drive.Send(CloseDir(ROOT_TOKEN));
    drive.Send(CloseEdit);
  }

  // ----- before anything is sent

  /** The changes with their paths in canonical form. */
  ghost predicate CanonicalInputs(changes: seq<StreamFileChange>, inputs: seq<StreamFileChange>) {
    && |inputs| == |changes|
    && forall k :: 0 <= k < |changes| ==>
      Canonical(changes[k].path, false).Ok? && inputs[k] == changes[k].(path := Canonical(changes[k].path, false).value)
  }

  method CheckPaths(changes: seq<StreamFileChange>) returns (r: Result<seq<StreamFileChange>, CommitError>)
    ensures r.Ok? <==> PathsAccepted(changes)
    ensures r.Ok? ==> CanonicalInputs(changes, r.value)
    ensures r.Err? ==> exists k :: PathFails(changes, k, r.error)
  {
    hide Canonical;
    var seen: set<Path> := {};
    var inputs: seq<StreamFileChange> := [];
    while |inputs| < |changes|
      invariant |inputs| <= |changes| && CanonicalInputs(changes[..|inputs|], inputs)
      invariant seen == set k | 0 <= k < |inputs| :: inputs[k].path
      invariant PathsAccepted(changes[..|inputs|])
    {
      var i := |inputs|;
      var path := ValidateRelPath(changes[i].path);
      if path.Err? {
        assert PathFails(changes, i, BadPath(path.error));
        return Err(BadPath(path.error));
      }
      if path.value in seen {
        var k :| 0 <= k < i && inputs[k].path == path.value;
        assert changes[..i][k] == changes[k];
        assert PathFails(changes, i, DuplicatePath);
        return Err(DuplicatePath);
      }
      AcceptedGrows(changes, inputs, path.value);
      seen := seen + {path.value};
      inputs := inputs + [changes[i].(path := path.value)];
    }
    assert changes[..|inputs|] == changes;
    return Ok(inputs);
  }

  lemma AcceptedGrows(changes: seq<StreamFileChange>, inputs: seq<StreamFileChange>, path: Path)
    requires |inputs| < |changes| && CanonicalInputs(changes[..|inputs|], inputs) && PathsAccepted(changes[..|inputs|])
    requires Canonical(changes[|inputs|].path, false) == Ok(path)
    requires forall k :: 0 <= k < |inputs| ==> inputs[k].path != path
    ensures var i := |inputs|;
      && CanonicalInputs(changes[..i + 1], inputs + [changes[i].(path := path)]) && PathsAccepted(changes[..i + 1])
  {
    hide Canonical;
    var i := |inputs|;
    var before, now := changes[..i], changes[..i + 1];
    assert forall k :: 0 <= k < i ==> now[k] == before[k];
    assert now[i] == changes[i];
    forall j, k | 0 <= j < k < |now| ensures Canonical(now[j].path, false) != Canonical(now[k].path, false) {
      assert inputs[j] == before[j].(path := Canonical(before[j].path, false).value);
    }
  }

  /** Input `k` is the first that may not go where it should. */
  ghost predicate InputFails(kinds: Path -> NodeKind, inputs: seq<StreamFileChange>, k: nat, e: CommitError) {
    && k < |inputs|
    && (forall j :: 0 <= j < k ==> TargetAccepted(kinds, inputs[j].path, inputs[j].mode))
    && !TargetAccepted(kinds, inputs[k].path, inputs[k].mode)
    && e == TargetError(kinds(inputs[k].path))
  }

  lemma InputTargetFails(kinds: Path -> NodeKind, changes: seq<StreamFileChange>, inputs: seq<StreamFileChange>, k: nat, e: CommitError)
    requires PathsAccepted(changes) && CanonicalInputs(changes, inputs) && InputFails(kinds, inputs, k, e)
    ensures TargetFails(kinds, changes, k, e)
  {
    hide Canonical;
  }

  /** Asks for every target; collects the files and the directories they need. */
  method CheckTargets(inputs: seq<StreamFileChange>, kinds: Path -> NodeKind)
    returns (err: Option<CommitError>, files: seq<StreamFile>, requiredDirs: set<Path>)
    requires forall k :: 0 <= k < |inputs| ==> Relative(inputs[k].path)
    ensures err == None <==> forall k :: 0 <= k < |inputs| ==> TargetAccepted(kinds, inputs[k].path, inputs[k].mode)
    ensures err.Some? ==> exists k :: InputFails(kinds, inputs, k, err.value)
    ensures err == None ==>
      && |files| == |inputs| && requiredDirs == Ancestors(files)
      && forall k :: 0 <= k < |inputs| ==> files[k] == StreamFile(inputs[k].path, kinds(inputs[k].path) == KindFile, inputs[k].runs)
  {
    hide Relative, Ancestors, Chain;
    err, files, requiredDirs := None, [], {};
    NoAncestors();
    while |files| < |inputs|
      invariant |files| <= |inputs| && requiredDirs == Ancestors(files)
      invariant forall k :: 0 <= k < |files| ==> TargetAccepted(kinds, inputs[k].path, inputs[k].mode)
      invariant forall k :: 0 <= k < |files| ==> files[k] == StreamFile(inputs[k].path, kinds(inputs[k].path) == KindFile, inputs[k].runs)
    {
      var file := inputs[|files|];
      var parent := ParentDir(file.path);
      ParentRelative(file.path);
      var dirs := DirPrefixes(parent);
      var kind := kinds(file.path);
      assert !TargetAccepted(kinds, file.path, file.mode) ==> InputFails(kinds, inputs, |files|, TargetError(kind));
      if kind == KindDir || kind == KindUnknown {
        err := Some(NotAFile);
        return;
      }
      var exists_ := kind == KindFile;
      if file.mode == AddOnly && exists_ {
        err := Some(AlreadyThere);
        return;
      }
      if file.mode == ReplaceOnly && !exists_ {
        err := Some(NotThere);
        return;
      }
      AncestorsSnoc(files, StreamFile(file.path, exists_, file.runs));
      requiredDirs := requiredDirs + Elems(dirs);
      files := files + [StreamFile(file.path, exists_, file.runs)];
    }
  }

  lemma NoAncestors()
    ensures Ancestors([]) == {}
  {
  }

  lemma AncestorsSnoc(files: seq<StreamFile>, f: StreamFile)
    ensures Ancestors(files + [f]) == Ancestors(files) + Elems(Chain(ParentDir(f.path)))
  {
    hide Chain, ParentDir;
    assert f in files + [f];
  }

  /** Asks for every directory needed and plans to open or to add it. */
  method PlanDirs(requiredDirs: set<Path>, kinds: Path -> NodeKind) returns (r: Result<map<Path, DirPlan>, CommitError>)
    requires forall d :: d in requiredDirs ==> Canonical(d, true) == Ok(d)
    ensures r.Ok? <==> forall d :: d in requiredDirs ==> DirectoryAccepted(kinds, d)
    ensures r.Err? ==> r.error == NotADirectory
    ensures r.Ok? ==> forall d :: d in requiredDirs ==> d in r.value && r.value[d] == if kinds(d) == KindDir then PlanOpen else PlanAdd(None)
  {
    hide Canonical;
    var plans: map<Path, DirPlan> := map[];
    var rest := requiredDirs;
    while rest != {}
      invariant rest <= requiredDirs
      invariant forall d :: d in requiredDirs - rest ==>
        DirectoryAccepted(kinds, d) && d in plans && plans[d] == if kinds(d) == KindDir then PlanOpen else PlanAdd(None)
      decreases |rest|
    {
      var d :| d in rest;
      var dir := ValidateRelDirPath(d);
      assert dir == Ok(d);
      match kinds(d) {
        case KindDir =>
          plans := plans[d := PlanOpen];
        case KindNone =>
          plans := plans[d := PlanAdd(None)];
        case KindFile =>
          return Err(NotADirectory);
        case KindUnknown =>
          return Err(NotADirectory);
      }
      rest := rest - {d};
    }
    return Ok(plans);
  }

  // ----- facts about what was accepted

  lemma ResolvedFacts(changes: seq<StreamFileChange>, kinds: Path -> NodeKind, files: seq<StreamFile>)
    requires PathsAccepted(changes) && files == ResolvedAll(kinds, changes)
    ensures forall i, j :: 0 <= i < j < |files| ==> files[i].path != files[j].path
    ensures forall f :: f in files ==> Relative(f.path)
    ensures forall d :: d in Ancestors(files) ==> Canonical(d, true) == Ok(d)
  {
    hide Canonical, Relative, Ancestors;
    forall k | 0 <= k < |files| ensures Relative(files[k].path) {
      CanonicalRelative(changes[k].path);
    }
    forall d | d in Ancestors(files) ensures Canonical(d, true) == Ok(d) {
      InAncestors(files, d);
      var f :| f in files && IsUnder(d, f.path);
      var k :| 0 <= k < |files| && files[k] == f;
      AboveCanonical(changes[k].path, d);
    }
  }

  lemma PlannedFacts(base: Tree, kinds: Path -> NodeKind, changes: seq<StreamFileChange>, files: seq<StreamFile>,
                     plans: map<Path, DirPlan>)
    requires Answers(base, kinds) && PathsAccepted(changes) && files == ResolvedAll(kinds, changes)
    requires forall k :: 0 <= k < |changes| ==> TargetAccepted(kinds, Canonical(changes[k].path, false).value, changes[k].mode)
    requires forall d :: d in Ancestors(files) ==>
      DirectoryAccepted(kinds, d) && d in plans && plans[d] == if kinds(d) == KindDir then PlanOpen else PlanAdd(None)
    ensures Planned(base, Sorted(files), plans)
    ensures Ancestors(Sorted(files)) == Ancestors(files)
  {
    hide Canonical, Relative, Chain, ParentDir, Less, Sorted;
    ResolvedFacts(changes, kinds, files);
    SortedIsSorted(files);
    forall f | f in files
      ensures if f.present then f.path in base && base[f.path].File? else f.path !in base
    {
      var k :| 0 <= k < |files| && files[k] == f;
      assert TargetAccepted(kinds, Canonical(changes[k].path, false).value, changes[k].mode);
    }
  }

  /** A builder: the options and the changes given to it so far. */
  class CommitStreamBuilder {
    var baseRev: Option<u64>
    var version: Version
    var zlibLevel: nat
    var windowSize: nat
    var files: seq<StreamFileChange>

    constructor ()
      ensures baseRev == None && zlibLevel == 5 && windowSize == 64 * 1024 && files == []
    {
      baseRev, version, zlibLevel, windowSize, files := None, V0, 5, 64 * 1024, [];
    }

    /** `put_file_reader`, `add_file_reader` and `replace_file_reader`, by the mode. */
    method PutFileReaderWithMode(path: seq<byte>, runs: seq<seq<byte>>, mode: FileContentMode)
      modifies this`files
      ensures files == old(files) + [StreamFileChange(path, runs, mode)]
    {
      files := files + [StreamFileChange(path, runs, mode)];
    }

    function Size(): (n: nat)
      reads this
      ensures n > 0
    {
      if windowSize < 1 then 1 else windowSize
    }

    /** Everything checked before the drive is opened. */
    method Prepare(kinds: Path -> NodeKind, ghost base: Tree)
      returns (r: Result<(seq<StreamFile>, map<Path, DirPlan>), CommitError>)
      requires Answers(base, kinds)
      ensures r.Ok? <==> Admissible(kinds, files, zlibLevel)
      ensures r.Err? ==> Reports(kinds, files, zlibLevel, r.error)
      ensures r.Ok? ==>
        && r.value.0 == ResolvedAll(kinds, files)
        && Planned(base, Sorted(r.value.0), r.value.1)
    {
      hide Answers, Canonical, Ancestors, Sorted, Relative, Planned;
      if files == [] {
        return Err(NoChanges);
      }
      if zlibLevel > MAX_ZLIB_LEVEL {
        return Err(BadZlibLevel);
      }
      var inputs := CheckPaths(files);
      if inputs.Err? {
        return Err(inputs.error);
      }
      ResolvedFacts(files, kinds, ResolvedAll(kinds, files));
      assert forall k :: 0 <= k < |files| ==> ResolvedAll(kinds, files)[k] in ResolvedAll(kinds, files);
      assert forall k :: 0 <= k < |files| ==> inputs.value[k].path == ResolvedAll(kinds, files)[k].path;
      var err, resolved, requiredDirs := CheckTargets(inputs.value, kinds);
      if err.Some? {
        ghost var k :| InputFails(kinds, inputs.value, k, err.value);
        InputTargetFails(kinds, files, inputs.value, k, err.value);
        return Err(err.value);
      }
      assert resolved == ResolvedAll(kinds, files);
      var plans := PlanDirs(requiredDirs, kinds);
      if plans.Err? {
        return Err(plans.error);
      }
      PlannedFacts(base, kinds, files, resolved, plans.value);
      return Ok((resolved, plans.value));
    }

    /**
     The commit fails before sending anything, or sends one drive that carries every change. The
     second happens exactly when the changes are admissible.
     */
    method Commit(drive: Drive, kinds: Path -> NodeKind, latestRev: u64, codecs: Codecs, ghost base: Repo)
      returns (err: Option<CommitError>)
      requires Faithful(codecs) && windowSize < MAX_SLICE_LEN && drive.commands == []
      requires forall c, r :: c in files && r in c.runs ==> r != []
      requires Answers(base.tree, kinds)
      modifies drive
      ensures err == None <==> Admissible(kinds, files, zlibLevel)
      ensures err != None ==> drive.commands == [] && Reports(kinds, files, zlibLevel, err.value)
      ensures err == None <==> Acceptable(base.tree, kinds, files, zlibLevel)
      ensures err != None ==> Justified(base.tree, kinds, files, zlibLevel, err.value)
      ensures err in {Some(NotAFile), Some(AlreadyThere), Some(NotThere)} ==> exists c :: c in files && !(Known(kinds, c) && Agrees(base.tree, c))
      ensures err == None ==>
        var rev := match baseRev case Some(r) => r case None => latestRev;
        Carries(Settings(codecs, version, zlibLevel, Size(), rev), base, Sorted(ResolvedAll(kinds, files)), drive.commands)
    {
      hide Faithful, Answers, Carries, Canonical, Ancestors, Sorted, Planned, Reports, Agrees, Justified, Known, Acceptable;
      AdmissibleIff(base.tree, kinds, files, zlibLevel);
      var rev := match baseRev case Some(r) => r case None => latestRev;
      var prepared := Prepare(kinds, base.tree);
      if prepared.Err? {
        ReportedJustified(base.tree, kinds, files, zlibLevel, prepared.error);
        return Some(prepared.error);
      }
      var (resolved, plans) := prepared.value;
      ResolvedFacts(files, kinds, resolved);
      SortedIsSorted(resolved);
      forall f, r | f in Sorted(resolved) && r in f.runs ensures r != [] {
        var k :| 0 <= k < |resolved| && resolved[k] == f;
        assert files[k] in files;
      }
      SendAll(drive, Sorted(resolved), plans, Settings(codecs, version, zlibLevel, Size(), rev), base);
      return None;
    }
  }

  // ----- what a carried drive means

  /** No read returns more than the buffer holds, so only the placement of the files matters. */
  lemma SmallWindowsFit(files: seq<StreamFile>, size: nat)
    requires 0 < size <= DELTA_WINDOW_MAX
    ensures ReadsFit(files, size)
  {
    forall f | f in files ensures AllFit(Delivered(f.runs, size)) {
      DeliveredWhole(f.runs, size);
    }
  }

  /**
   The drive is accepted exactly when no file stands where another needs a directory and every read
   fits a window; the tree it yields is then the intended one.
   */
  lemma CarriedMeans(s: Settings, base: Repo, files: seq<StreamFile>, cmds: seq<EditorCommand>)
    requires s.windowSize > 0 && Carries(s, base, files, cmds)
    ensures (exists tree :: Yields(s.codecs, base, cmds, tree)) <==> Good(files, s.windowSize)
    ensures forall tree :: Yields(s.codecs, base, cmds, tree) ==> IsResult(base.tree, files, tree)
    ensures s.windowSize <= DELTA_WINDOW_MAX ==> (Good(files, s.windowSize) <==> NoFileAsDirectory(files))
  {
    hide IsResult, EditRun, NoFileAsDirectory, ReadsFit, AllFileActions, Actions;
    assert files[..|files|] == files;
    if s.windowSize <= DELTA_WINDOW_MAX {
      SmallWindowsFit(files, s.windowSize);
    }
    if Good(files, s.windowSize) {
      assert Yields(s.codecs, base, cmds, EditRun(s.codecs, base, cmds).value.tree);
    }
  }

  /** The intended tree is determined: two results for the same files agree. */
  lemma ResultUnique(base: Tree, files: seq<StreamFile>, a: Tree, b: Tree)
    requires IsResult(base, files, a) && IsResult(base, files, b)
    ensures a == b
  {
    hide Ancestors;
    assert a.Keys == b.Keys;
    forall f | f in files ensures a[f.path] == b[f.path] {}
  }

  // ----- an accepted commit that cannot succeed

  const TEXT_A: Path := [97]
  const TEXT_AB: Path := [97, 47, 98]

  /** The file `a` and the file `a/b`, to be put where there is nothing. */
  function FileAndBelow(): seq<StreamFileChange> {
    [StreamFileChange(TEXT_A, [], AddOrReplace), StreamFileChange(TEXT_AB, [], AddOrReplace)]
  }

  lemma TextsCanonical()
    ensures Canonical(TEXT_A, false) == Ok(TEXT_A) && Canonical(TEXT_AB, false) == Ok(TEXT_AB)
  {
    hide Canonical;
    var a, b: seq<byte> := [97], [98];
    assert Join([a]) == TEXT_A;
    CleanIsCanonical([a]);
    assert [a, b][1..] == [b];
    assert Join([a, b]) == a + [SLASH] + Join([b]) == TEXT_AB;
    CleanIsCanonical([a, b]);
  }

  /**
   The streaming builder does not compare its paths: the puts `a` and `a/b` into an empty repository
   are admissible, so the drive is sent, but every drive that carries them is refused.
   */
  lemma FileAsDirectoryIsSent(base: Repo, kinds: Path -> NodeKind, s: Settings, cmds: seq<EditorCommand>, tree: Tree)
    requires base.tree == map[] && forall p :: kinds(p) == KindNone
    ensures Answers(base.tree, kinds) && Admissible(kinds, FileAndBelow(), MAX_ZLIB_LEVEL)
    ensures s.windowSize > 0 && Carries(s, base, Sorted(ResolvedAll(kinds, FileAndBelow())), cmds)
      ==> !Yields(s.codecs, base, cmds, tree)
  {
    hide *;
    BothAdmissible(kinds);
    NothingThere(kinds);
    var files := Sorted(ResolvedAll(kinds, FileAndBelow()));
    if s.windowSize > 0 && Carries(s, base, files, cmds) {
      CarriedMeans(s, base, files, cmds);
      NotGood(files, s.windowSize);
    }
  }

  lemma NothingThere(kinds: Path -> NodeKind)
    requires forall p :: kinds(p) == KindNone
    ensures Answers(map[], kinds)
  {
  }

  lemma NotGood(files: seq<StreamFile>, size: nat)
    requires size > 0 && !NoFileAsDirectory(files)
    ensures !Good(files, size)
  {
  }

  lemma BothAdmissible(kinds: Path -> NodeKind)
    requires forall p :: kinds(p) == KindNone
    ensures Admissible(kinds, FileAndBelow(), MAX_ZLIB_LEVEL)
    ensures forall k :: 0 <= k < |FileAndBelow()| ==> Canonical(FileAndBelow()[k].path, false).Ok?
    ensures !NoFileAsDirectory(Sorted(ResolvedAll(kinds, FileAndBelow())))
  {
    hide Canonical, Ancestors, ResolvedAll, NoFileAsDirectory, Sorted;
    TextsCanonical();
    BelowTheOther(kinds);
  }

  lemma BelowTheOther(kinds: Path -> NodeKind)
    requires forall k :: 0 <= k < |FileAndBelow()| ==> Canonical(FileAndBelow()[k].path, false) == Ok(FileAndBelow()[k].path)
    ensures !NoFileAsDirectory(Sorted(ResolvedAll(kinds, FileAndBelow())))
  {
    hide Canonical, Less, Sorted;
    var changes := FileAndBelow();
    var files := ResolvedAll(kinds, changes);
    assert files[0].path == changes[0].path && files[1].path == changes[1].path;
    SortedIsSorted(files);
    assert files[0] in files && files[1] in files;
    assert TEXT_A + [SLASH] == TEXT_AB[..2];
  }
}
