/**
 The part both commit builders share: an editor drive, and walking from one directory to the next
 with a stack of open directories.
 */
module Drives {
  import opened Bytes
  import opened DirChain
  import opened EditorCommands
  import opened TreeEditor
  import opened SvndiffFormat
  import opened Sections
  import opened Paths

  class Drive {
    var commands: seq<EditorCommand>

    constructor ()
      ensures commands == []
    {
      commands := [];
    }

    method Send(c: EditorCommand)
      modifies this
      ensures commands == old(commands) + [c]
    {
      commands := commands + [c];
    }
  }

  /** What a builder is set to. */
  datatype Settings = Settings(codecs: Codecs, version: Version, level: nat, windowSize: nat, baseRev: u64)

  /** The stack holds the root and, above it, exactly the directories of `chain`. */
  ghost predicate Stacked(stack: seq<Frame>, chain: seq<Path>) {
    && |stack| == |chain| + 1
    && stack[0] == Frame([], ROOT_TOKEN)
    && forall i :: 1 <= i < |stack| ==> stack[i].path == chain[i - 1]
  }

  /** The top of the stack is the directory whose chain is open. */
  lemma StackTop(stack: seq<Frame>, dir: Path)
    requires Stacked(stack, Chain(dir))
    ensures stack != [] && stack[|stack| - 1].path == dir && stack[0].token == ROOT_TOKEN && (dir == [] ==> |stack| == 1)
  {
  }

  /** Inside the edit, with these directories open and no file. */
  function Walking(rev: u64, stack: seq<Frame>, used: set<Token>): Nest {
    Nest(Some(rev), true, stack, None, used, false)
  }

  /** In the open file `frame`, inside these directories. */
  function FileOpen(rev: u64, stack: seq<Frame>, used: set<Token>, frame: Frame): Nest {
    Nest(Some(rev), true, stack, Some(frame), used, false)
  }

  ghost predicate AllIssued(used: set<Token>, tokens: TokenGen)
    reads tokens
  {
    forall t :: t in used ==> Issued(t, tokens.nextDir, tokens.nextFile)
  }

  /** The content after entering one directory as planned. */
  function Enter(plans: map<Path, DirPlan>, x: Option<Content>, d: Path): Option<Content>
    requires d in plans
  {
    if x.None? then None
    else match plans[d]
      case PlanOpen => if d in x.value.tree && x.value.tree[d].Dir? then x else None
      case PlanAdd(copy) => DirAdded(x.value, d, copy)
  }

  function EnterAll(plans: map<Path, DirPlan>, x: Option<Content>, dirs: seq<Path>): Option<Content>
    requires forall d :: d in dirs ==> d in plans
  {
    if dirs == [] then x
    else Enter(plans, EnterAll(plans, x, dirs[..|dirs| - 1]), dirs[|dirs| - 1])
  }

  /** These directories, entered as planned. */
  function AsPlanned(plans: map<Path, DirPlan>, dirs: seq<Path>): seq<DirEntry> {
    seq(|dirs|, i requires 0 <= i < |dirs| => DirEntry(dirs[i], if dirs[i] in plans then plans[dirs[i]] else PlanOpen))
  }

  lemma AsPlannedAppend(plans: map<Path, DirPlan>, a: seq<Path>, b: seq<Path>)
    ensures AsPlanned(plans, a + b) == AsPlanned(plans, a) + AsPlanned(plans, b)
    ensures PathsOf(AsPlanned(plans, a)) == a
  {
  }

  lemma NothingPlanned(plans: map<Path, DirPlan>)
    ensures AsPlanned(plans, []) == []
  {
  }

  lemma PathsAppend(a: seq<DirEntry>, b: seq<DirEntry>)
    ensures PathsOf(a + b) == PathsOf(a) + PathsOf(b)
  {
  }

  /** Length of the common front of two chains. */
  function CommonLen(a: seq<Path>, b: seq<Path>): (n: nat)
    ensures n <= |a| && n <= |b| && a[..n] == b[..n]
    ensures n < |a| && n < |b| ==> a[n] != b[n]
  {
    if a != [] && b != [] && a[0] == b[0] then
      var n := CommonLen(a[1..], b[1..]);
      assert a[..n + 1] == [a[0]] + a[1..][..n] && b[..n + 1] == [b[0]] + b[1..][..n];
      n + 1
    else 0
  }

  /** The directories entered when walking from `a`, whose chain is open, to `b`. */
  function Walk(a: Path, b: Path): seq<Path> {
    Chain(b)[CommonLen(Chain(a), Chain(b))..]
  }

  lemma {:induction false} CommonLenIs(a: seq<Path>, b: seq<Path>, n: nat)
    requires n <= |a| && n <= |b| && a[..n] == b[..n]
    requires n < |a| && n < |b| ==> a[n] != b[n]
    ensures CommonLen(a, b) == n
  {
    if n > 0 {
      assert a[0] == a[..n][0] && b[0] == b[..n][0];
      assert a[1..][..n - 1] == a[..n][1..] && b[1..][..n - 1] == b[..n][1..];
      CommonLenIs(a[1..], b[1..], n - 1);
    }
  }

  /** Closes directories from the top of the stack until `keep` are left. */
  method CloseTo(drive: Drive, stack: seq<Frame>, keep: nat, ghost baseRev: u64,
                 ghost codecs: Codecs, ghost base: Repo, ghost used: set<Token>, ghost x: Option<Content>)
    returns (rest: seq<Frame>)
    requires 1 <= keep <= |stack|
    requires At(codecs, base, drive.commands, Walking(baseRev, stack, used), x)
    modifies drive
    ensures rest == stack[..keep]
    ensures At(codecs, base, drive.commands, Walking(baseRev, rest, used), x)
    ensures DirsOpened(drive.commands) == old(DirsOpened(drive.commands))
    ensures Actions(drive.commands) == old(Actions(drive.commands))
  {
    hide At, Actions, DirsOpened;
    rest := stack;
    while |rest| > keep
      invariant keep <= |rest| <= |stack| && rest == stack[..|rest|]
      invariant At(codecs, base, drive.commands, Walking(baseRev, rest, used), x)
      invariant DirsOpened(drive.commands) == old(DirsOpened(drive.commands))
      invariant Actions(drive.commands) == old(Actions(drive.commands))
      decreases |rest|
    {
      var c := CloseDir(rest[|rest| - 1].token);
      AtSent(codecs, base, drive.commands, Walking(baseRev, rest, used), x, c);
      DirsOpenedSent(drive.commands, c);
      ActionsSent(codecs, base, drive.commands, Walking(baseRev, rest, used), x, c);
      assert stack[..|rest|][..|rest| - 1] == stack[..|rest| - 1];
      drive.Send(c);
      rest := rest[..|rest| - 1];
    }
  }

  /** Opens or adds one directory under the innermost open one. */
  method EnterOne(drive: Drive, tokens: TokenGen, start: seq<Frame>, d: Path, plan: DirPlan, baseRev: u64,
                  ghost plans: map<Path, DirPlan>, ghost codecs: Codecs, ghost base: Repo, ghost used0: set<Token>,
                  ghost x: Option<Content>)
    returns (stack: seq<Frame>, ghost used: set<Token>)
    requires start != [] && d != [] && ParentDir(d) == start[|start| - 1].path
    requires d in plans && plans[d] == plan
    requires At(codecs, base, drive.commands, Walking(baseRev, start, used0), x) && AllIssued(used0, tokens)
    modifies drive, tokens
    ensures |stack| == |start| + 1 && stack[..|start|] == start && stack[|start|].path == d
    ensures AllIssued(used, tokens)
    ensures At(codecs, base, drive.commands, Walking(baseRev, stack, used), Enter(plans, x, d))
    ensures DirsOpened(drive.commands) == old(DirsOpened(drive.commands)) + AsPlanned(plans, [d])
    ensures Actions(drive.commands) == old(Actions(drive.commands))
  {
    hide At, Actions, DirsOpened, Enter, Issued;
    var parentToken := start[|start| - 1].token;
    var token := tokens.Dir();
    var c := match plan
      case PlanOpen => OpenDir(d, parentToken, token, baseRev)
      case PlanAdd(copyFrom) => AddDir(d, parentToken, token, copyFrom);
    EnterSent(codecs, base, drive.commands, baseRev, start, used0, x, plans, c, d, parentToken, token, tokens.nextDir, tokens.nextFile);
    drive.Send(c);
    stack := start + [Frame(d, token)];
    used := used0 + {token};
    MoreIssued(used0, token, tokens.nextDir, tokens.nextFile);
  }

  lemma MoreIssued(used: set<Token>, token: Token, nextDir: nat, nextFile: nat)
    requires nextDir > 0 && token == DirToken(nextDir) && forall t :: t in used ==> Issued(t, nextDir - 1, nextFile)
    ensures forall t :: t in used + {token} ==> Issued(t, nextDir, nextFile)
  {
  }

  /** Opens or adds the directories of `target` from index `from` on, each under the one before it. */
  method EnterDirs(drive: Drive, tokens: TokenGen, start: seq<Frame>, target: seq<Path>, from: nat,
                   plans: map<Path, DirPlan>, baseRev: u64, ghost dir: Path,
                   ghost codecs: Codecs, ghost base: Repo, ghost used0: set<Token>, ghost x: Option<Content>)
    returns (stack: seq<Frame>, missing: Option<Path>, ghost used: set<Token>)
    requires (dir == [] || Relative(dir)) && target == Chain(dir) && from <= |target|
    requires Stacked(start, target[..from])
    requires At(codecs, base, drive.commands, Walking(baseRev, start, used0), x) && AllIssued(used0, tokens)
    modifies drive, tokens
    ensures missing == None <==> forall d :: d in target[from..] ==> d in plans
    ensures missing == None ==>
      && Stacked(stack, target) && AllIssued(used, tokens)
      && At(codecs, base, drive.commands, Walking(baseRev, stack, used), EnterAll(plans, x, target[from..]))
      && DirsOpened(drive.commands) == old(DirsOpened(drive.commands)) + AsPlanned(plans, target[from..])
    ensures Actions(drive.commands) == old(Actions(drive.commands))
  {
    hide At, Actions, DirsOpened, Chain, AllIssued, Enter, EnterAll, Stacked, Relative, ParentDir, AsPlanned;
    NothingEntered(plans, x);
    stack, missing, used := start, None, used0;
    var i := from;
    ghost var done: seq<Path> := [];
    NothingPlanned(plans);
    assert old(DirsOpened(drive.commands)) + AsPlanned(plans, []) == old(DirsOpened(drive.commands));
    while i < |target|
      invariant from <= i <= |target| && done == target[from..i]
      invariant forall d :: d in done ==> d in plans
      invariant Stacked(stack, target[..i]) && AllIssued(used, tokens)
      invariant At(codecs, base, drive.commands, Walking(baseRev, stack, used), EnterAll(plans, x, done))
      invariant DirsOpened(drive.commands) == old(DirsOpened(drive.commands)) + AsPlanned(plans, done)
      invariant Actions(drive.commands) == old(Actions(drive.commands))
    {
      var dirPath := target[i];
      if dirPath !in plans {
        assert target[from..][i - from] == dirPath;
        missing := Some(dirPath);
        return;
      }
      TopIsParent(stack, dir, i);
      ghost var before := stack;
      stack, used := EnterOne(drive, tokens, stack, dirPath, plans[dirPath], baseRev, plans, codecs, base, used, EnterAll(plans, x, done));
      StackGrows(before, stack, target, i);
      EnterAllSnoc(plans, x, done, dirPath);
      AsPlannedAppend(plans, done, [dirPath]);
      Regroup(old(DirsOpened(drive.commands)), AsPlanned(plans, done), AsPlanned(plans, [dirPath]));
      done := done + [dirPath];
      i := i + 1;
    }
    assert done == target[from..] && target[..i] == target;
  }

  /** The top of the stack is the parent of the next directory of the chain. */
  lemma TopIsParent(stack: seq<Frame>, dir: Path, i: nat)
    requires (dir == [] || Relative(dir)) && i < |Chain(dir)| && Stacked(stack, Chain(dir)[..i])
    ensures stack != [] && ParentDir(Chain(dir)[i]) == stack[|stack| - 1].path && Chain(dir)[i] != []
  {
    ChainShape(dir);
    assert i > 0 ==> stack[i].path == Chain(dir)[..i][i - 1];
    assert Relative(Chain(dir)[i]);
  }

  lemma NothingEntered(plans: map<Path, DirPlan>, x: Option<Content>)
    ensures EnterAll(plans, x, []) == x
  {
  }

  lemma EnterAllSnoc(plans: map<Path, DirPlan>, x: Option<Content>, done: seq<Path>, d: Path)
    requires d in plans && forall e :: e in done ==> e in plans
    ensures EnterAll(plans, x, done + [d]) == Enter(plans, EnterAll(plans, x, done), d)
  {
    assert (done + [d])[..|done|] == done;
  }

  lemma StackGrows(before: seq<Frame>, stack: seq<Frame>, target: seq<Path>, i: nat)
    requires i < |target| && Stacked(before, target[..i])
    requires |stack| == |before| + 1 && stack[..|before|] == before && stack[|before|].path == target[i]
    ensures Stacked(stack, target[..i + 1])
  {
    assert stack[0] == stack[..|before|][0];
    forall k | 1 <= k < |stack| ensures stack[k].path == target[..i + 1][k - 1] {
      if k < |before| {
        assert stack[k] == stack[..|before|][k] && before[k].path == target[..i][k - 1];
      }
    }
  }

  /** Sending an open or add of a child of the innermost directory, with the next token. */
  lemma EnterSent(codecs: Codecs, base: Repo, cmds: seq<EditorCommand>, baseRev: u64, stack: seq<Frame>, used: set<Token>,
                  x: Option<Content>, plans: map<Path, DirPlan>, c: EditorCommand, d: Path, parent: Token, token: Token,
                  nextDir: nat, nextFile: nat)
    requires stack != [] && d in plans && d != []
    requires At(codecs, base, cmds, Walking(baseRev, stack, used), x)
    requires ParentDir(d) == stack[|stack| - 1].path && parent == stack[|stack| - 1].token
    requires nextDir > 0 && token == DirToken(nextDir) && forall t :: t in used ==> Issued(t, nextDir - 1, nextFile)
    requires plans[d].PlanOpen? ==> c == OpenDir(d, parent, token, baseRev)
    requires plans[d].PlanAdd? ==> c == AddDir(d, parent, token, plans[d].copyFrom)
    ensures At(codecs, base, cmds + [c], Walking(baseRev, stack + [Frame(d, token)], used + {token}), Enter(plans, x, d))
    ensures DirsOpened(cmds + [c]) == DirsOpened(cmds) + AsPlanned(plans, [d])
    ensures Actions(cmds + [c]) == Actions(cmds)
  {
    hide At, Actions, DirsOpened;
    ActionsSent(codecs, base, cmds, Walking(baseRev, stack, used), x, c);
    NextDirTokenFresh(nextDir - 1, nextFile);
    AtSent(codecs, base, cmds, Walking(baseRev, stack, used), x, c);
    DirsOpenedSent(cmds, c);
  }

  /** A file opened or added in the innermost directory, with the next token. */
  lemma FileEntered(rev: u64, stack: seq<Frame>, used: set<Token>, path: Path, token: Token,
                    dirs: nat, files: nat, c: EditorCommand, parent: Token)
    requires stack != [] && path != [] && ParentDir(path) == stack[|stack| - 1].path && parent == stack[|stack| - 1].token
    requires files > 0 && token == FileToken(files) && forall t :: t in used ==> Issued(t, dirs, files - 1)
    requires c == OpenFile(path, parent, token, rev) || (exists copy :: c == AddFile(path, parent, token, copy))
    ensures NestStep(Walking(rev, stack, used), c) == Some(FileOpen(rev, stack, used + {token}, Frame(path, token)))
    ensures forall t :: t in used + {token} ==> Issued(t, dirs, files)
  {
    NextFileTokenFresh(dirs, files - 1);
  }

  // ----- the root

  /** The drive with just the root opened. */
  lemma RootBegun(s: Settings, base: Repo)
    ensures var cmds := [OpenRoot(Some(s.baseRev), ROOT_TOKEN)];
      && At(s.codecs, base, cmds, Walking(s.baseRev, [Frame([], ROOT_TOKEN)], {ROOT_TOKEN}), Some(Untouched(base)))
      && DirsOpened(cmds) == [] && Actions(cmds) == []
  {
    hide Effect;
    var c := OpenRoot(Some(s.baseRev), ROOT_TOKEN);
    AtSent(s.codecs, base, [], NEST_START, Some(Untouched(base)), c);
    ActionsSent(s.codecs, base, [], NEST_START, Some(Untouched(base)), c);
    DirsOpenedSent([], c);
    assert [] + [c] == [c];
    assert Bind(s.codecs, NEST_START, Some(Untouched(base)), c) == Some(Untouched(base)) by { RootEffect(s, base); }
  }

  lemma RootEffect(s: Settings, base: Repo)
    ensures Effect(s.codecs, NEST_START, Untouched(base), OpenRoot(Some(s.baseRev), ROOT_TOKEN)) == Some(Untouched(base))
  {
  }

  lemma RootIssued(dirs: nat, files: nat)
    ensures Issued(ROOT_TOKEN, dirs, files)
  {
  }

  /** The root closed, and the edit. */
  lemma RootClosed(s: Settings, base: Repo, cmds: seq<EditorCommand>, stack: seq<Frame>, used: set<Token>, x: Option<Content>)
    requires At(s.codecs, base, cmds, Walking(s.baseRev, stack, used), x) && stack == [Frame([], ROOT_TOKEN)]
    ensures var cmds' := cmds + [CloseDir(ROOT_TOKEN)] + [CloseEdit];
      && WellNested(cmds') && NestRun(cmds').value.rev == Some(s.baseRev) && EditRun(s.codecs, base, cmds') == x
      && DirsOpened(cmds') == DirsOpened(cmds) && Actions(cmds') == Actions(cmds)
  {
    hide DirsOpened, NestRun, EditRun, Actions;
    var n := Walking(s.baseRev, stack, used);
    AtSent(s.codecs, base, cmds, n, x, CloseDir(ROOT_TOKEN));
    ActionsSent(s.codecs, base, cmds, n, x, CloseDir(ROOT_TOKEN));
    DirsOpenedSent(cmds, CloseDir(ROOT_TOKEN));
    var cmds1 := cmds + [CloseDir(ROOT_TOKEN)];
    var n1 := NestStep(n, CloseDir(ROOT_TOKEN)).value;
    AtSent(s.codecs, base, cmds1, n1, x, CloseEdit);
    ActionsSent(s.codecs, base, cmds1, n1, x, CloseEdit);
    DirsOpenedSent(cmds1, CloseEdit);
  }

  /**
   Walks from the directory whose chain is open to `dir`: closes what is not shared, then enters
   the rest. The stack then holds the root and exactly the chain of `dir`.
   */
  method Align(drive: Drive, tokens: TokenGen, start: seq<Frame>, target: seq<Path>,
               plans: map<Path, DirPlan>, baseRev: u64, ghost current: Path, ghost dir: Path,
               ghost codecs: Codecs, ghost base: Repo, ghost used0: set<Token>, ghost x: Option<Content>)
    returns (stack: seq<Frame>, missing: Option<Path>, ghost used: set<Token>)
    requires (dir == [] || Relative(dir)) && target == Chain(dir)
    requires Stacked(start, Chain(current))
    requires At(codecs, base, drive.commands, Walking(baseRev, start, used0), x) && AllIssued(used0, tokens)
    modifies drive, tokens
    ensures var new_ := Walk(current, dir);
      && (missing == None <==> forall d :: d in new_ ==> d in plans)
      && (missing == None ==>
            && Stacked(stack, target) && AllIssued(used, tokens)
            && At(codecs, base, drive.commands, Walking(baseRev, stack, used), EnterAll(plans, x, new_))
            && DirsOpened(drive.commands) == old(DirsOpened(drive.commands)) + AsPlanned(plans, new_))
    ensures Actions(drive.commands) == old(Actions(drive.commands))
  {
    hide At, Actions, DirsOpened, Chain, EnterAll, AllIssued, CommonLen;
    var lcp := 0;
    ghost var open := Chain(current);
    while lcp < |target| && lcp + 1 < |start| && start[lcp + 1].path == target[lcp]
      invariant 0 <= lcp <= |target| && lcp + 1 <= |start|
      invariant open[..lcp] == target[..lcp]
    {
      assert start[lcp + 1].path == open[lcp];
      assert open[..lcp + 1] == open[..lcp] + [open[lcp]] && target[..lcp + 1] == target[..lcp] + [target[lcp]];
      lcp := lcp + 1;
    }
    assert lcp < |target| && lcp < |open| ==> start[lcp + 1].path == open[lcp];
    CommonLenIs(open, target, lcp);
    var kept := CloseTo(drive, start, lcp + 1, baseRev, codecs, base, used0, x);
    assert Stacked(kept, target[..lcp]) by {
      forall i | 1 <= i < |kept| ensures kept[i].path == target[..lcp][i - 1] {
        assert start[i].path == open[i - 1] && open[i - 1] == open[..lcp][i - 1];
      }
    }
    stack, missing, used := EnterDirs(drive, tokens, kept, target, lcp, plans, baseRev, dir, codecs, base, used0, x);
  }
}
