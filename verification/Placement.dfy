/** What the drive of the in-memory commit builder makes of the base tree, and when it is refused. */
module Placement {
  import opened Bytes
  import opened SvndiffFormat
  import opened Sections
  import opened Encoder
  import opened Paths
  import opened Order
  import opened DirChain
  import opened EditorCommands
  import opened TreeEditor
  import opened Drives
  import opened Walks
  import opened CommitBuilder
  import opened Reopening
  import opened IntendedTree
  import Applier

  // ----- when the tasks go through

  predicate AddsFile(plan: Plan, t: Task) { t.FileTask? && t.path in plan.files && !plan.files[t.path].present }

  predicate PutsText(plan: Plan, t: Task) {
    t.FileTask? && t.path in plan.files && plan.files[t.path].action.Some? && plan.files[t.path].action.value.Put?
  }

  /** The windows of the text are within the decoder's limit. */
  predicate TextFits(s: Settings, plan: Plan, t: Task) {
    PutsText(plan, t) ==> s.windowSize <= DELTA_WINDOW_MAX || |plan.files[t.path].action.value.contents| <= DELTA_WINDOW_MAX
  }

  ghost predicate TextsFit(s: Settings, plan: Plan, tasks: seq<Task>) {
    forall t :: t in tasks ==> TextFits(s, plan, t)
  }

  /** No missing directory is entered twice, and none is where a file is added. */
  ghost predicate AddedOnce(plan: Plan, tasks: seq<Task>, walked: seq<Path>) {
    && (forall d :: AddsDir(plan, d) ==> multiset(walked)[d] <= 1)
    && (forall t :: t in tasks && AddsFile(plan, t) && AddsDir(plan, t.path) ==> t.path !in walked)
  }

  /** No directory is entered that a task has deleted. */
  ghost predicate Unharmed(tasks: seq<Task>, walked: seq<Path>) {
    forall t, d :: t in tasks && t.DeleteTask? && d in walked ==> !Within(t.path, d)
  }

  ghost predicate Clear(s: Settings, plan: Plan, tasks: seq<Task>, walked: seq<Path>) {
    AddedOnce(plan, tasks, walked) && TextsFit(s, plan, tasks) && Unharmed(tasks, walked)
  }

  function Elements(paths: seq<Path>): set<Path> {
    set d | d in paths
  }

  /** The tree with these tasks done and these directories entered. */
  ghost predicate IsPlaced(base: Repo, plan: Plan, tasks: seq<Task>, walked: seq<Path>, tree: Tree) {
    && (forall p :: HoldsAt(base, plan, tasks, Elements(walked), p, NodeAt(tree, p)))
    && (forall d :: d in walked ==> d in tree && tree[d].Dir?)
  }

  /** The content so far: refused as soon as something stands in the way. */
  ghost predicate Stands(s: Settings, base: Repo, plan: Plan, tasks: seq<Task>, walked: seq<Path>, x: Option<Content>) {
    if Clear(s, plan, tasks, walked)
    then x.Some? && x.value.delta == None && x.value.history == base.history && IsPlaced(base, plan, tasks, walked, x.value.tree)
    else x == None
  }

  /** Some of the tasks are done; every directory on the way to them is entered, and none that no task needs. */
  ghost predicate Underway(tasks: seq<Task>, done: seq<Task>, walked: seq<Path>) {
    && (forall t :: t in done ==> t in tasks)
    && (forall d :: d in walked ==> exists t :: t in tasks && Needs(t, d))
    && (forall t, d :: t in done && Needs(t, d) ==> d in walked)
  }

  // ----- entering a directory

  /** What is asked for at a directory on the way to a task, before it is entered. */
  lemma BeforeEntering(s: Settings, base: Repo, plan: Plan, tasks: seq<Task>, done: seq<Task>, dirs: set<Path>, t: Task, d: Path, tree: Tree)
    requires Placeable(s, base, plan, tasks) && t in tasks && Needs(t, d) && d in plan.dirs
    requires forall u :: u in done ==> u in tasks
    requires HoldsAt(base, plan, done, dirs, d, NodeAt(tree, d))
    ensures plan.dirs[d].PlanOpen? ==> if Gone(done, d) then d !in tree else d in tree && tree[d].Dir?
    ensures plan.dirs[d].PlanAdd? && d !in dirs && !(DirTask(d) in done) ==> (d in tree <==> FileTask(d) in done)
    ensures plan.dirs[d].PlanAdd? ==> !Gone(done, d)
  {
    hide Within, Needs, Faithful, Complete, Sound, TasksDiffer, DeletesFit, CopiesFit, Changed, ProperPlan;
    assert DirFits(base, d, plan.dirs[d]);
    forall e ensures InCopy(plan, dirs, e, d) ==> e == d {
      if InCopy(plan, dirs, e, d) { NotBelowCopy(plan, tasks, t, d, e); WithinOr(e, d); }
    }
    if plan.dirs[d].PlanAdd? && Gone(done, d) {
      var u :| u in done && u.DeleteTask? && Within(u.path, d);
      NewNotDeleted(base, plan, tasks, t, d, u);
    }
    if FileTask(d) in done {
      CompleteFile(plan, tasks, d);
      assert FileFits(base, plan.files[d]);
      ProperPath(plan, d);
    }
  }

  lemma WithinOr(a: Path, b: Path)
    requires Within(a, b)
    ensures a == b || IsUnder(a, b)
  {
  }

  lemma CompleteFile(plan: Plan, tasks: seq<Task>, p: Path)
    requires Complete(plan, tasks) && FileTask(p) in tasks
    ensures p in plan.files
  {
    assert FileTask(p).path == p;
  }

  lemma ProperPath(plan: Plan, p: Path)
    requires ProperPlan(plan) && p in plan.files
    ensures plan.files[p].path == p
  {
  }

  lemma ClearEnters(s: Settings, plan: Plan, done: seq<Task>, walked: seq<Path>, d: Path)
    ensures Clear(s, plan, done, walked + [d]) <==>
      && Clear(s, plan, done, walked) && !Gone(done, d)
      && (AddsDir(plan, d) ==> d !in walked && !(FileTask(d) in done && AddsFile(plan, FileTask(d))))
  {
    hide TextsFit, AddsDir, AddsFile, Within;
    var after := walked + [d];
    assert d in after && forall e :: e in walked ==> e in after;
    assert multiset(after) == multiset(walked) + multiset{d};
    if AddedOnce(plan, done, after) {
      forall e | AddsDir(plan, e) ensures multiset(walked)[e] <= 1 { assert multiset(after)[e] <= 1; }
      if AddsDir(plan, d) { assert multiset(after)[d] <= 1; assert multiset(walked)[d] == 0; }
    }
    if AddsDir(plan, d) && d !in walked { assert multiset(walked)[d] == 0; }
    assert FileTask(d).path == d && forall t: Task :: t.FileTask? && t.path == d ==> t == FileTask(d);
    FilesOnly(plan);
  }

  lemma FilesOnly(plan: Plan)
    ensures forall t :: AddsFile(plan, t) ==> t.FileTask?
  {
  }

  /** A directory that is there stays as it is. */
  lemma OpenHolds(base: Repo, plan: Plan, done: seq<Task>, dirs: set<Path>, d: Path, p: Path, node: Option<Node>)
    requires d in base.tree && !Copies(plan, d) && HoldsAt(base, plan, done, dirs, p, node)
    ensures HoldsAt(base, plan, done, dirs + {d}, p, node)
  {
    hide Copies, Within, FileNode, CopyNode, Retouched;
    assert forall e :: InCopy(plan, dirs + {d}, e, p) <==> InCopy(plan, dirs, e, p);
  }

  /** Elsewhere nothing changes when a directory is added. */
  lemma OtherHolds(base: Repo, plan: Plan, done: seq<Task>, dirs: set<Path>, d: Path, p: Path, node: Option<Node>)
    requires HoldsAt(base, plan, done, dirs, p, node) && p != d && !InCopy(plan, dirs + {d}, d, p)
    ensures HoldsAt(base, plan, done, dirs + {d}, p, node)
  {
    hide Copies, Within, FileNode, CopyNode, Retouched;
    assert forall e :: InCopy(plan, dirs + {d}, e, p) <==> InCopy(plan, dirs, e, p);
  }

  /** A directory added without a source is empty. */
  lemma NewHolds(base: Repo, plan: Plan, tasks: seq<Task>, done: seq<Task>, dirs: set<Path>, t: Task, d: Path)
    requires CopiesFit(plan, tasks) && t in tasks && Needs(t, d) && d in plan.dirs && plan.dirs[d] == PlanAdd(None)
    requires d !in base.tree && !Gone(done, d) && FileTask(d) !in done && DirTask(d) !in done
    ensures HoldsAt(base, plan, done, dirs + {d}, d, Some(Dir(map[])))
  {
    hide Within, Needs, CopiesFit, FileNode;
    forall e ensures !InCopy(plan, dirs + {d}, e, d) {
      if InCopy(plan, dirs + {d}, e, d) { NotBelowCopy(plan, tasks, t, d, e); WithinOr(e, d); }
    }
  }

  /** A copied directory puts at and below itself what its source has. */
  lemma CopyHolds(base: Repo, plan: Plan, tasks: seq<Task>, done: seq<Task>, dirs: set<Path>, t: Task, d: Path, p: Path)
    requires Sound(base.tree) && PlanFits(base, plan) && DeletesFit(base.tree, tasks) && CopiesFit(plan, tasks)
    requires t in tasks && Needs(t, d) && Copies(plan, d) && Within(d, p) && (forall u :: u in done ==> u in tasks) && DirTask(d) !in done
    ensures HoldsAt(base, plan, done, dirs + {d}, p, Original(base.history, plan.dirs[d].copyFrom.value, p[|d|..]))
  {
    hide Within, Needs, Sound, PlanFits, DeletesFit, CopiesFit, Original, OwnNode;
    NeedsWithin(t, d);
    assert InCopy(plan, dirs + {d}, d, p);
    if Gone(done, p) {
      var u :| u in done && u.DeleteTask? && Within(u.path, p);
      NewNotDeleted(base, plan, tasks, t, d, u);
      DeletedApart(plan, tasks, d, u, p);
    }
    forall e | InCopy(plan, dirs + {d}, e, p) ensures e == d { CopiesApart(plan, tasks, t, d, e, p); }
    if DirTask(p) in done { NothingBelow(plan, tasks, d, DirTask(p)); WithinOr(d, p); }
  }

  lemma NothingBelow(plan: Plan, tasks: seq<Task>, d: Path, u: Task)
    requires CopiesFit(plan, tasks) && Copies(plan, d) && u in tasks
    ensures !IsUnder(d, u.path) && DirTask(d) in tasks
  {
  }

  lemma DeletedApart(plan: Plan, tasks: seq<Task>, d: Path, u: Task, p: Path)
    requires CopiesFit(plan, tasks) && Copies(plan, d) && u in tasks && !Within(u.path, d) && Within(d, p)
    ensures !Within(u.path, p)
  {
    hide CopiesFit, Copies;
    NothingBelow(plan, tasks, d, u);
    if Within(u.path, p) { WithinMeet(u.path, d, p); }
  }

  lemma CopiesApart(plan: Plan, tasks: seq<Task>, t: Task, d: Path, e: Path, p: Path)
    requires CopiesFit(plan, tasks) && t in tasks && Needs(t, d) && Copies(plan, d) && Copies(plan, e) && Within(d, p) && Within(e, p)
    ensures e == d
  {
    hide CopiesFit, Copies, Needs, Within;
    WithinMeet(e, d, p);
    NotBelowCopy(plan, tasks, t, d, e);
    NothingBelow(plan, tasks, e, t);
    NothingBelow(plan, tasks, d, DirTask(e));
    if Within(e, d) { WithinOr(e, d); }
  }

  lemma MovedAt(tree: Tree, from: Path, d: Path, p: Path)
    requires from != [] && d != []
    ensures NodeAt(Moved(tree, from, d), p) == if Within(d, p) then NodeAt(tree, from + p[|d|..]) else None
  {
    hide Within;
    if p in Moved(tree, from, d) { MovedFrom(tree, from, d, p); }
    if Within(d, p) { MovedTo(tree, from, d, p); }
  }

  /** What arrives was below the source, and arrives below the target. */
  lemma MovedFrom(tree: Tree, from: Path, d: Path, p: Path)
    requires d != [] && p in Moved(tree, from, d)
    ensures Within(d, p) && |d| <= |p| && from + p[|d|..] in tree && Moved(tree, from, d)[p] == tree[from + p[|d|..]]
  {
    hide Within;
    var r := MovedSource(tree, from, d, p);
    WithinParts(from, r);
    var below := r[|from|..];
    BehindSame(d, from, below);
    WithinParts(d, p);
    assert p[|d|..] == below;
  }

  lemma MovedSource(tree: Tree, from: Path, d: Path, p: Path) returns (r: Path)
    requires p in Moved(tree, from, d)
    ensures r in tree && Within(from, r) && |from| <= |r| && d + r[|from|..] == p && Moved(tree, from, d)[p] == tree[r]
  {
    r :| r in tree && Within(from, r) && d + r[|from|..] == p && Moved(tree, from, d)[p] == tree[r];
  }

  /** What is below the source arrives. */
  lemma MovedTo(tree: Tree, from: Path, d: Path, p: Path)
    requires from != [] && Within(d, p)
    ensures from + p[|d|..] in tree ==> p in Moved(tree, from, d)
  {
    hide Within;
    WithinParts(d, p);
    var q := from + p[|d|..];
    BehindSame(from, d, p[|d|..]);
    assert q[|from|..] == p[|d|..];
  }

  lemma WithinParts(d: Path, p: Path)
    requires Within(d, p)
    ensures |d| <= |p| && p == d + p[|d|..]
  {
  }

  lemma BehindSame(a: Path, b: Path, below: seq<byte>)
    requires a != [] && Within(b, b + below)
    ensures Within(a, a + below)
  {
    if below != [] {
      assert |b + below| > |b|;
      assert (b + below)[|b|] == below[0] && (b + [SLASH])[|b|] == SLASH;
      assert a + [SLASH] == (a + below)[..|a| + 1];
    } else {
      assert a + below == a;
    }
  }

  lemma ElementsSnoc(walked: seq<Path>, d: Path)
    ensures Elements(walked + [d]) == Elements(walked) + {d}
  {
  }

  lemma OpenPlaced(base: Repo, plan: Plan, done: seq<Task>, walked: seq<Path>, d: Path, tree: Tree)
    requires IsPlaced(base, plan, done, walked, tree) && d in base.tree && !Copies(plan, d) && d in tree && tree[d].Dir?
    ensures IsPlaced(base, plan, done, walked + [d], tree)
  {
    hide HoldsAt, Copies;
    ElementsSnoc(walked, d);
    forall p ensures HoldsAt(base, plan, done, Elements(walked + [d]), p, NodeAt(tree, p)) {
      OpenHolds(base, plan, done, Elements(walked), d, p, NodeAt(tree, p));
    }
  }

  lemma NewPlaced(base: Repo, plan: Plan, tasks: seq<Task>, done: seq<Task>, walked: seq<Path>, t: Task, d: Path, tree: Tree)
    requires IsPlaced(base, plan, done, walked, tree) && CopiesFit(plan, tasks) && t in tasks && Needs(t, d)
    requires d in plan.dirs && plan.dirs[d] == PlanAdd(None)
    requires d !in base.tree && !Gone(done, d) && FileTask(d) !in done && DirTask(d) !in done
    ensures IsPlaced(base, plan, done, walked + [d], tree[d := Dir(map[])])
  {
    hide HoldsAt, CopiesFit, Needs, Gone, Within;
    ElementsSnoc(walked, d);
    var tree' := tree[d := Dir(map[])];
    forall p ensures HoldsAt(base, plan, done, Elements(walked + [d]), p, NodeAt(tree', p)) {
      if p == d {
        NewHolds(base, plan, tasks, done, Elements(walked), t, d);
      } else {
        assert NodeAt(tree', p) == NodeAt(tree, p);
        OtherHolds(base, plan, done, Elements(walked), d, p, NodeAt(tree, p));
      }
    }
  }

  lemma CopyPlaced(base: Repo, plan: Plan, tasks: seq<Task>, done: seq<Task>, walked: seq<Path>, t: Task, d: Path, x: Content)
    requires Sound(base.tree) && PlanFits(base, plan) && DeletesFit(base.tree, tasks) && CopiesFit(plan, tasks)
    requires Underway(tasks, done, walked) && t in tasks && Needs(t, d) && Copies(plan, d) && DirTask(d) !in done
    requires IsPlaced(base, plan, done, walked, x.tree) && x.history == base.history && d !in x.tree && x.delta == None
    ensures var y := DirAdded(x, d, plan.dirs[d].copyFrom);
      y.Some? && y.value.delta == None && y.value.history == base.history && IsPlaced(base, plan, done, walked + [d], y.value.tree)
  {
    hide HoldsAt, CopiesFit, Needs, Gone, Within, Sound, DeletesFit, PlanFits, Original, Pruned, Moved;
    var copy := plan.dirs[d].copyFrom.value;
    assert DirFits(base, d, plan.dirs[d]) by { FitsAt(base, plan, d); }
    OriginalIs(base.history, copy, []);
    var from := SourcePath(base.history, copy).value;
    var tree' := Pruned(x.tree, d) + Moved(base.history.past[copy.1], from, d);
    ElementsSnoc(walked, d);
    NeedsWithin(t, d);
    forall p ensures HoldsAt(base, plan, done, Elements(walked + [d]), p, NodeAt(tree', p)) {
      GraftedAt(x.tree, base.history.past[copy.1], from, d, p);
      if Within(d, p) {
        CopyHolds(base, plan, tasks, done, Elements(walked), t, d, p);
        WithinParts(d, p);
        OriginalIs(base.history, copy, p[|d|..]);
      } else {
        WithinSelf(d);
        OtherHolds(base, plan, done, Elements(walked), d, p, NodeAt(x.tree, p));
      }
    }
    forall e | e in walked + [d] ensures e in tree' && tree'[e].Dir? {
      GraftedAt(x.tree, base.history.past[copy.1], from, d, e);
      if e == d {
        WithinSelf(d);
        assert from + d[|d|..] == from;
      } else {
        var u :| u in tasks && Needs(u, e);
        NotBelowCopy(plan, tasks, u, e, d);
        if Within(d, e) { WithinOr(d, e); }
      }
    }
  }

  lemma FitsAt(base: Repo, plan: Plan, d: Path)
    requires PlanFits(base, plan) && d in plan.dirs
    ensures DirFits(base, d, plan.dirs[d])
  {
  }

  lemma WithinSelf(d: Path)
    ensures Within(d, d)
  {
  }

  lemma GraftedAt(tree: Tree, past: Tree, from: Path, d: Path, p: Path)
    requires from != [] && d != []
    ensures NodeAt(Pruned(tree, d) + Moved(past, from, d), p) == if Within(d, p) then NodeAt(past, from + p[|d|..]) else NodeAt(tree, p)
  {
    hide Within, Moved;
    MovedAt(past, from, d, p);
  }

  /** Entering one more directory goes through exactly as long as the way is clear. */
  lemma EnterStands(s: Settings, base: Repo, plan: Plan, tasks: seq<Task>, done: seq<Task>, walked: seq<Path>, x: Option<Content>,
                    t: Task, d: Path)
    requires Placeable(s, base, plan, tasks) && Underway(tasks, done, walked) && t in tasks && Needs(t, d) && d in plan.dirs
    requires Stands(s, base, plan, done, walked, x)
    ensures Stands(s, base, plan, done, walked + [d], Enter(plan.dirs, x, d))
  {
    hide Faithful, Complete, Sound, TasksDiffer, DeletesFit, CopiesFit, ProperPlan, PlanFits, HoldsAt, Clear, Needs, Gone, Within, Pruned, Moved,
         Original, SourceNode, SourcePath, AddsFile;
    ClearEnters(s, plan, done, walked, d);
    if x.Some? {
      var tree := x.value.tree;
      assert HoldsAt(base, plan, done, Elements(walked), d, NodeAt(tree, d));
      BeforeEntering(s, base, plan, tasks, done, Elements(walked), t, d, tree);
      FitsAt(base, plan, d);
      if plan.dirs[d].PlanOpen? {
        if !Gone(done, d) { OpenPlaced(base, plan, done, walked, d, tree); }
      } else {
        AddStands(s, base, plan, tasks, done, walked, x.value, t, d);
      }
    }
  }

  lemma AddStands(s: Settings, base: Repo, plan: Plan, tasks: seq<Task>, done: seq<Task>, walked: seq<Path>, x: Content, t: Task, d: Path)
    requires Placeable(s, base, plan, tasks) && Underway(tasks, done, walked) && t in tasks && Needs(t, d) && AddsDir(plan, d)
    requires x.delta == None && x.history == base.history && IsPlaced(base, plan, done, walked, x.tree)
    requires d !in walked && DirTask(d) !in done ==> (d in x.tree <==> FileTask(d) in done)
    requires !Gone(done, d)
    ensures var y := DirAdded(x, d, plan.dirs[d].copyFrom);
      if d in walked || (FileTask(d) in done && AddsFile(plan, FileTask(d))) then y == None
      else y.Some? && y.value.delta == None && y.value.history == base.history && IsPlaced(base, plan, done, walked + [d], y.value.tree)
  {
    hide Faithful, Sound, TasksDiffer, DeletesFit, CopiesFit, HoldsAt, Gone, Within, Pruned, Moved, Original, SourceNode, SourcePath, IsPlaced;
    FitsAt(base, plan, d);
    WalkedThere(base, plan, done, walked, x.tree);
    NeedsWithin(t, d);
    if DirTask(d) in done { assert Needs(DirTask(d), d); }
    NewFile(s, base, plan, tasks, done, d);
    if d !in walked && FileTask(d) !in done {
      if plan.dirs[d].copyFrom == None {
        NewPlaced(base, plan, tasks, done, walked, t, d, x.tree);
      } else {
        CopyPlaced(base, plan, tasks, done, walked, t, d, x);
      }
    }
  }

  lemma WalkedThere(base: Repo, plan: Plan, done: seq<Task>, walked: seq<Path>, tree: Tree)
    requires IsPlaced(base, plan, done, walked, tree)
    ensures forall d :: d in walked ==> d in tree && tree[d].Dir?
  {
  }

  /** A file task where the base has nothing adds its file. */
  lemma NewFile(s: Settings, base: Repo, plan: Plan, tasks: seq<Task>, done: seq<Task>, d: Path)
    requires Placeable(s, base, plan, tasks) && (forall u :: u in done ==> u in tasks) && d !in base.tree
    ensures FileTask(d) in done ==> AddsFile(plan, FileTask(d))
  {
    hide Faithful, Sound, TasksDiffer, DeletesFit, CopiesFit, Original;
    if FileTask(d) in done {
      CompleteFile(plan, tasks, d);
      ProperPath(plan, d);
      assert FileFits(base, plan.files[d]);
    }
  }

  lemma UnderwaySnoc(tasks: seq<Task>, done: seq<Task>, walked: seq<Path>, t: Task, d: Path)
    requires Underway(tasks, done, walked) && t in tasks && Needs(t, d)
    ensures Underway(tasks, done, walked + [d])
  {
    hide Needs;
  }

  lemma {:induction false} EnterAllStands(s: Settings, base: Repo, plan: Plan, tasks: seq<Task>, done: seq<Task>, walked: seq<Path>,
                                          x: Option<Content>, t: Task, dirs: seq<Path>)
    requires Placeable(s, base, plan, tasks) && Underway(tasks, done, walked) && t in tasks
    requires forall d :: d in dirs ==> Needs(t, d) && d in plan.dirs
    requires Stands(s, base, plan, done, walked, x)
    ensures Stands(s, base, plan, done, walked + dirs, EnterAll(plan.dirs, x, dirs)) && Underway(tasks, done, walked + dirs)
    decreases |dirs|
  {
    hide Stands, Placeable, Underway, Needs, Enter;
    if dirs == [] {
      assert walked + [] == walked;
    } else {
      var before, d := dirs[..|dirs| - 1], dirs[|dirs| - 1];
      assert dirs == before + [d];
      EnterAllStands(s, base, plan, tasks, done, walked, x, t, before);
      EnterStands(s, base, plan, tasks, done, walked + before, EnterAll(plan.dirs, x, before), t, d);
      UnderwaySnoc(tasks, done, walked + before, t, d);
      Regroup(walked, before, [d]);
    }
  }

  // ----- properties

  lemma {:induction false} NothingPlaced(t: Task, changes: seq<PropChange>)
    ensures PropsPlaced(None, t, changes) == None
    decreases |changes|
  {
    if changes != [] { NothingPlaced(t, changes[..|changes| - 1]); }
  }

  /** Changing properties one by one changes just the properties of the one node. */
  lemma {:induction false} PropsAre(x: Content, t: Task, changes: seq<PropChange>)
    requires t.path in x.tree && x.tree[t.path].Dir? == t.DirTask?
    ensures var node := x.tree[t.path];
      PropsPlaced(Some(x), t, changes) == Some(x.(tree := x.tree[t.path := node.(props := Changed(node.props, changes))]))
    decreases |changes|
  {
    var node := x.tree[t.path];
    if changes == [] {
      assert node.(props := Changed(node.props, [])) == node;
      assert x.tree[t.path := node] == x.tree;
    } else {
      PropsAre(x, t, changes[..|changes| - 1]);
      var before := node.(props := Changed(node.props, changes[..|changes| - 1]));
      var after := node.(props := Changed(node.props, changes));
      assert x.tree[t.path := before][t.path := after] == x.tree[t.path := after];
    }
  }

  // ----- a directory task

  lemma ClearSnoc(s: Settings, plan: Plan, done: seq<Task>, walked: seq<Path>, t: Task)
    ensures Clear(s, plan, done + [t], walked) <==>
      && Clear(s, plan, done, walked) && TextFits(s, plan, t)
      && (AddsFile(plan, t) && AddsDir(plan, t.path) ==> t.path !in walked)
      && (t.DeleteTask? ==> forall d :: d in walked ==> !Within(t.path, d))
  {
    hide AddsDir, AddsFile, Within, TextFits;
    var after := done + [t];
    assert t in after && forall u :: u in done ==> u in after;
  }

  lemma RetouchedHolds(base: Repo, plan: Plan, done: seq<Task>, dirs: set<Path>, d: Path, p: Path, node: Option<Node>)
    requires HoldsAt(base, plan, done, dirs, p, node) && DirTask(d) !in done
    requires p == d ==> node.Some? && node.value.Dir?
    ensures HoldsAt(base, plan, done + [DirTask(d)], dirs, p,
                    if p == d then Some(Dir(Changed(node.value.props, PropsFor(plan, d)))) else node)
  {
    hide Copies, Within, Original;
    var after := done + [DirTask(d)];
    assert DirTask(d) in after && forall u :: u in done ==> u in after;
    GoneSnoc(done, DirTask(d), p);
  }

  lemma GoneSnoc(done: seq<Task>, t: Task, p: Path)
    ensures Gone(done + [t], p) <==> Gone(done, p) || (t.DeleteTask? && Within(t.path, p))
  {
    hide Within;
    var after := done + [t];
    assert t in after && forall u :: u in done ==> u in after;
  }

  /** The root is a directory throughout. */
  lemma RootStands(s: Settings, base: Repo, plan: Plan, tasks: seq<Task>, done: seq<Task>, dirs: set<Path>, tree: Tree)
    requires Placeable(s, base, plan, tasks) && (forall t :: t in tasks ==> ProperTask(t)) && forall t :: t in done ==> t in tasks
    requires HoldsAt(base, plan, done, dirs, [], NodeAt(tree, []))
    ensures [] in tree && tree[[]].Dir?
  {
    hide Faithful, Complete, TasksDiffer, DeletesFit, CopiesFit, Original, Changed, ProperPlan;
    assert !Gone(done, []);
    forall d ensures !InCopy(plan, dirs, d, []) {
      if InCopy(plan, dirs, d, []) { FitsAt(base, plan, d); }
    }
  }

  lemma DirStands(s: Settings, base: Repo, plan: Plan, tasks: seq<Task>, done: seq<Task>, walked: seq<Path>, x: Option<Content>, t: Task)
    requires Placeable(s, base, plan, tasks) && (forall u :: u in tasks ==> ProperTask(u)) && forall u :: u in done ==> u in tasks
    requires t.DirTask? && t !in done && (t.path == [] || t.path in walked)
    requires Stands(s, base, plan, done, walked, x)
    ensures Stands(s, base, plan, done + [t], walked, TaskPlaced(s, plan, x, t))
  {
    hide Placeable, ProperTask, HoldsAt, Clear, PropsPlaced, Changed, TextFits;
    var d := t.path;
    ClearSnoc(s, plan, done, walked, t);
    PlainTask(s, plan, t);
    NothingPlaced(t, PropsFor(plan, d));
    assert TaskPlaced(s, plan, x, t) == PropsPlaced(x, t, PropsFor(plan, d)) by { NoPropsPlaced(x, t); }
    if x.Some? {
      var tree := x.value.tree;
      assert HoldsAt(base, plan, done, Elements(walked), [], NodeAt(tree, []));
      if d == [] { RootStands(s, base, plan, tasks, done, Elements(walked), tree); }
      PropsAre(x.value, t, PropsFor(plan, d));
      var tree' := tree[d := Dir(Changed(tree[d].props, PropsFor(plan, d)))];
      forall p ensures HoldsAt(base, plan, done + [t], Elements(walked), p, NodeAt(tree', p)) {
        RetouchedHolds(base, plan, done, Elements(walked), d, p, NodeAt(tree, p));
      }
    }
  }

  lemma PlainTask(s: Settings, plan: Plan, t: Task)
    requires !t.FileTask?
    ensures TextFits(s, plan, t) && !AddsFile(plan, t)
  {
  }

  lemma NoPropsPlaced(x: Option<Content>, t: Task)
    ensures PropsPlaced(x, t, []) == x
  {
  }

  // ----- a deletion

  lemma PrunedHolds(base: Repo, plan: Plan, tasks: seq<Task>, done: seq<Task>, dirs: set<Path>, t: Task, p: Path, node: Option<Node>)
    requires HoldsAt(base, plan, done, dirs, p, node) && t.DeleteTask? && t in tasks && CopiesFit(plan, tasks)
    requires forall d :: d in dirs ==> !Within(t.path, d)
    ensures HoldsAt(base, plan, done + [t], dirs, p, if Within(t.path, p) then None else node)
  {
    hide Copies, Within, Original, CopiesFit, FileNode, Changed;
    GoneSnoc(done, t, p);
    var after := done + [t];
    assert t in after && forall u :: u in done ==> u in after;
    if Within(t.path, p) {
      forall d ensures !InCopy(plan, dirs, d, p) {
        if InCopy(plan, dirs, d, p) { WithinMeet(t.path, d, p); NothingBelow(plan, tasks, d, t); }
      }
    }
  }

  /** What is to be deleted is still there. */
  lemma StillThere(s: Settings, base: Repo, plan: Plan, tasks: seq<Task>, done: seq<Task>, walked: seq<Path>, t: Task, tree: Tree)
    requires Placeable(s, base, plan, tasks) && t in tasks && t.DeleteTask? && t !in done && forall u :: u in done ==> u in tasks
    requires HoldsAt(base, plan, done, Elements(walked), t.path, NodeAt(tree, t.path))
    requires Unharmed(done, walked) && forall d :: Needs(t, d) ==> d in walked
    ensures t.path in tree
  {
    hide Faithful, Complete, TasksDiffer, Sound, PlanFits, ProperPlan, Original, Changed, Needs, Within, FileNode, CopiesFit;
    if Gone(done, t.path) {
      var u :| u in done && u.DeleteTask? && Within(u.path, t.path);
      DeletedNeeds(t, u);
    }
    forall d ensures !InCopy(plan, Elements(walked), d, t.path) {
      if InCopy(plan, Elements(walked), d, t.path) { NothingBelow(plan, tasks, d, t); DeletedAtCopy(base.tree, plan, tasks, d, t); }
    }
    DeletedAlone(base.tree, tasks, t);
  }

  lemma DeletedNeeds(t: Task, u: Task)
    requires t.DeleteTask? && u.DeleteTask? && Within(u.path, t.path) && u != t
    ensures u.path != [] ==> Needs(t, u.path) && Within(u.path, u.path)
    ensures u.path == [] ==> t.path == []
  {
  }

  lemma DeletedAlone(base: Tree, tasks: seq<Task>, t: Task)
    requires DeletesFit(base, tasks) && t in tasks && t.DeleteTask?
    ensures FileTask(t.path) !in tasks && t.path in base
  {
    if FileTask(t.path) in tasks { assert Within(t.path, FileTask(t.path).path); }
  }

  lemma DeletedAtCopy(base: Tree, plan: Plan, tasks: seq<Task>, d: Path, t: Task)
    requires DeletesFit(base, tasks) && CopiesFit(plan, tasks) && Copies(plan, d) && t in tasks && t.DeleteTask?
    ensures !Within(d, t.path)
  {
    hide Copies, CopiesFit, DeletesFit;
    NothingBelow(plan, tasks, d, t);
    OnlyDeleted(base, tasks, t, DirTask(d));
  }

  lemma OnlyDeleted(base: Tree, tasks: seq<Task>, t: Task, u: Task)
    requires DeletesFit(base, tasks) && t in tasks && t.DeleteTask? && u in tasks && !u.DeleteTask?
    ensures !Within(t.path, u.path)
  {
  }

  /** A task that deletes comes after everything that needs a directory at or below what it deletes. */
  lemma NotEnteredYet(base: Tree, tasks: seq<Task>, t: Task, u: Task, d: Path)
    requires DeletesFit(base, tasks) && t in tasks && u in tasks && t.DeleteTask? && LessEq(u.path, t.path) && Needs(u, d)
    ensures !Within(t.path, d)
  {
    if Within(t.path, d) {
      NeedsWithin(u, d);
      WithinBelow(t.path, d, u.path);
      OnlyDeletedBelow(base, tasks, t, u);
      assert |d| < |u.path|;
      UnderIsGreater(t.path, u.path);
      LessIrreflexive(t.path);
      if Less(u.path, t.path) { LessTransitive(t.path, u.path, t.path); }
    }
  }

  lemma OnlyDeletedBelow(base: Tree, tasks: seq<Task>, t: Task, u: Task)
    requires DeletesFit(base, tasks) && t in tasks && t.DeleteTask? && u in tasks && Within(t.path, u.path)
    ensures u.DeleteTask?
  {
  }

  lemma DeleteStands(s: Settings, base: Repo, plan: Plan, tasks: seq<Task>, done: seq<Task>, walked: seq<Path>, x: Option<Content>, t: Task)
    requires Placeable(s, base, plan, tasks) && t.DeleteTask? && t in tasks && t !in done
    requires forall u :: u in done ==> u in tasks && LessEq(u.path, t.path)
    requires Underway(done + [t], done, walked) && forall d :: Needs(t, d) ==> d in walked
    requires Stands(s, base, plan, done, walked, x)
    ensures Stands(s, base, plan, done + [t], walked, TaskPlaced(s, plan, x, t))
  {
    hide Placeable, HoldsAt, PropsPlaced, TextFits, Needs, Within, LessEq, AddsFile, Pruned;
    ClearSnoc(s, plan, done, walked, t);
    PlainTask(s, plan, t);
    LessEqSelf(t.path);
    forall d | d in walked ensures !Within(t.path, d) {
      var u :| u in done + [t] && Needs(u, d);
      NotEnteredYet(base.tree, tasks, t, u, d) by { DeletesOf(s, base, plan, tasks); }
    }
    if x.Some? {
      var tree := x.value.tree;
      assert HoldsAt(base, plan, done, Elements(walked), t.path, NodeAt(tree, t.path));
      StillThere(s, base, plan, tasks, done, walked, t, tree);
      DeletesOf(s, base, plan, tasks);
      PrunedPlaced(base, plan, tasks, done, walked, t, tree);
    }
  }

  lemma LessEqSelf(p: Path)
    ensures LessEq(p, p)
  {
  }

  lemma DeletesOf(s: Settings, base: Repo, plan: Plan, tasks: seq<Task>)
    requires Placeable(s, base, plan, tasks)
    ensures DeletesFit(base.tree, tasks) && CopiesFit(plan, tasks)
  {
  }

  lemma PrunedPlaced(base: Repo, plan: Plan, tasks: seq<Task>, done: seq<Task>, walked: seq<Path>, t: Task, tree: Tree)
    requires IsPlaced(base, plan, done, walked, tree) && t.DeleteTask? && t in tasks && CopiesFit(plan, tasks)
    requires forall d :: d in walked ==> !Within(t.path, d)
    ensures IsPlaced(base, plan, done + [t], walked, Pruned(tree, t.path))
  {
    hide HoldsAt, Within, CopiesFit;
    forall p ensures HoldsAt(base, plan, done + [t], Elements(walked), p, NodeAt(Pruned(tree, t.path), p)) {
      PrunedHolds(base, plan, tasks, done, Elements(walked), t, p, NodeAt(tree, p));
      assert NodeAt(Pruned(tree, t.path), p) == if Within(t.path, p) then None else NodeAt(tree, p);
    }
  }

  // ----- a file task

  /** What is at the path of a file before its task is done. */
  lemma BeforeFile(s: Settings, base: Repo, plan: Plan, tasks: seq<Task>, done: seq<Task>, walked: seq<Path>, t: Task, tree: Tree)
    requires Placeable(s, base, plan, tasks) && t.FileTask? && t in tasks && t !in done && t.path in plan.files
    requires (forall u :: u in done ==> u in tasks) && (forall d :: d in walked ==> d in plan.dirs) && IsPlaced(base, plan, done, walked, tree)
    ensures var f := plan.files[t.path];
      && FileFits(base, f) && f.path == t.path && !Gone(done, t.path)
      && (f.present ==> NodeAt(tree, t.path) == NodeAt(base.tree, t.path))
      && (!f.present ==> (t.path in tree <==> t.path in walked))
      && (t.path in walked && !f.present ==> AddsDir(plan, t.path))
      && (f.present || t.path !in walked ==> forall d :: !InCopy(plan, Elements(walked), d, t.path))
  {
    hide Placeable, HoldsAt, Gone, Within, Original;
    var p := t.path;
    FileFitsAt(s, base, plan, tasks, p);
    assert HoldsAt(base, plan, done, Elements(walked), p, NodeAt(tree, p));
    FileNotGone(s, base, plan, tasks, done, t);
    forall d | InCopy(plan, Elements(walked), d, p) ensures d == p && p in walked && p !in base.tree {
      FileNotInCopy(s, base, plan, tasks, t, d);
    }
    if p in walked { FitsIn(s, base, plan, tasks, p); }
    if plan.files[p].present || p !in walked { HoldsOwn(base, plan, done, Elements(walked), t, NodeAt(tree, p)); }
  }

  lemma FileFitsAt(s: Settings, base: Repo, plan: Plan, tasks: seq<Task>, p: Path)
    requires Placeable(s, base, plan, tasks) && p in plan.files
    ensures FileFits(base, plan.files[p]) && plan.files[p].path == p
  {
    hide Faithful, TasksDiffer, Sound, DeletesFit, CopiesFit, FileFits, Complete;
  }

  lemma FitsIn(s: Settings, base: Repo, plan: Plan, tasks: seq<Task>, d: Path)
    requires Placeable(s, base, plan, tasks) && d in plan.dirs
    ensures DirFits(base, d, plan.dirs[d])
  {
    hide Faithful, TasksDiffer, Sound, DeletesFit, CopiesFit, DirFits, Complete;
  }

  lemma FileNotGone(s: Settings, base: Repo, plan: Plan, tasks: seq<Task>, done: seq<Task>, t: Task)
    requires Placeable(s, base, plan, tasks) && t in tasks && t.FileTask? && forall u :: u in done ==> u in tasks
    ensures !Gone(done, t.path)
  {
    hide Placeable, DeletesFit, Within;
    DeletesOf(s, base, plan, tasks);
    if u :| u in done && u.DeleteTask? && Within(u.path, t.path) { OnlyDeletedBelow(base.tree, tasks, u, t); }
  }

  lemma FileNotInCopy(s: Settings, base: Repo, plan: Plan, tasks: seq<Task>, t: Task, d: Path)
    requires Placeable(s, base, plan, tasks) && t in tasks && Copies(plan, d) && Within(d, t.path)
    ensures d == t.path && d !in base.tree
  {
    hide Placeable, Within;
    DeletesOf(s, base, plan, tasks);
    NothingBelow(plan, tasks, d, t);
    WithinOr(d, t.path);
    FitsIn(s, base, plan, tasks, d);
  }

  /** Where nothing is deleted or copied, and the file task is still to come, there is what the base has or an empty directory. */
  lemma HoldsOwn(base: Repo, plan: Plan, done: seq<Task>, dirs: set<Path>, t: Task, node: Option<Node>)
    requires HoldsAt(base, plan, done, dirs, t.path, node) && !Gone(done, t.path) && forall d :: !InCopy(plan, dirs, d, t.path)
    requires t.FileTask? && t !in done
    ensures t.path in base.tree && base.tree[t.path].File? ==> node == NodeAt(base.tree, t.path)
    ensures t.path !in base.tree && t.path !in dirs ==> node == None
  {
    hide Gone, InCopy;
    assert FileTask(t.path) == t;
  }

  /** The file once it is opened, added or copied. */
  lemma EntryIs(base: Repo, x: Content, f: ResolvedFile)
    requires FileFits(base, f) && x.history == base.history && (f.present ==> NodeAt(x.tree, f.path) == NodeAt(base.tree, f.path))
    ensures FirstNode(base, f).Some? && FirstNode(base, f).value.File?
    ensures EntryPlaced(Some(x), f)
         == if !f.present && f.path in x.tree then None else Some(x.(tree := x.tree[f.path := FirstNode(base, f).value]))
  {
    hide Original, SourceNode;
    if f.action.Some? && f.action.value.Copy? {
      OriginalIs(x.history, (f.action.value.fromPath, f.action.value.fromRev), []);
    }
    if f.present { assert x.tree[f.path := x.tree[f.path]] == x.tree; }
  }

  /** The delta for a text turns any file into that text, or is refused. */
  lemma PatchedIs(s: Settings, x: Content, path: Path, contents: seq<byte>)
    requires Faithful(s.codecs) && |contents| < MAX_SLICE_LEN && path in x.tree && x.tree[path].File? && x.delta == None
    ensures Patched(s.codecs, Some(x), path, DeltaOf(s, contents))
         == if s.windowSize > DELTA_WINDOW_MAX && |contents| > DELTA_WINDOW_MAX then None
            else Some(x.(tree := x.tree[path := File(contents, x.tree[path].props)]))
  {
    hide Faithful, DeltaOf, Applier.Run;
    DeltaCarriesText(s, Applier.InMemory(x.tree[path].contents), contents);
  }

  /** The text of the file, when its task is done. */
  ghost function TextAfter(base: Repo, f: ResolvedFile): seq<byte>
    requires FirstNode(base, f).Some? && FirstNode(base, f).value.File?
  {
    if f.action.Some? && f.action.value.Put? then f.action.value.contents else FirstNode(base, f).value.contents
  }

  lemma TextIs(s: Settings, base: Repo, plan: Plan, x: Content, t: Task)
    requires Faithful(s.codecs) && ProperPlan(plan) && t.FileTask? && t.path in plan.files && x.delta == None
    requires FileFits(base, plan.files[t.path]) && x.history == base.history
    requires plan.files[t.path].present ==> NodeAt(x.tree, t.path) == NodeAt(base.tree, t.path)
    ensures var f := plan.files[t.path];
      && FirstNode(base, f).Some? && FirstNode(base, f).value.File?
      && TextPlaced(s, Some(x), f)
         == if (f.present || t.path !in x.tree) && TextFits(s, plan, t)
            then Some(x.(tree := x.tree[t.path := File(TextAfter(base, f), FirstNode(base, f).value.props)])) else None
  {
    hide Faithful, DeltaOf, Patched, EntryPlaced, FirstNode, FileFits;
    var f, p := plan.files[t.path], t.path;
    assert f.path == p;
    EntryIs(base, x, f);
    var first := FirstNode(base, f).value;
    if f.present || p !in x.tree {
      if PutsText(plan, t) {
        PatchedIs(s, x.(tree := x.tree[p := first]), p, f.action.value.contents);
        assert x.tree[p := first][p := File(f.action.value.contents, first.props)] == x.tree[p := File(f.action.value.contents, first.props)];
      }
    } else {
      assert Patched(s.codecs, None, p, []) == None && forall chunks :: Patched(s.codecs, None, p, chunks) == None by { NothingPatched(s, p); }
    }
  }

  lemma NothingPatched(s: Settings, p: Path)
    ensures forall chunks :: Patched(s.codecs, None, p, chunks) == None
  {
  }

  /** One file task: the file it asks for, unless something is there already or its text does not fit. */
  lemma FileIs(s: Settings, base: Repo, plan: Plan, x: Content, t: Task)
    requires Faithful(s.codecs) && ProperPlan(plan) && t.FileTask? && t.path in plan.files && x.delta == None
    requires FileFits(base, plan.files[t.path]) && x.history == base.history
    requires plan.files[t.path].present ==> NodeAt(x.tree, t.path) == NodeAt(base.tree, t.path)
    ensures var f := plan.files[t.path];
      if (f.present || t.path !in x.tree) && TextFits(s, plan, t)
      then FileNode(base, f).Some? && TaskPlaced(s, plan, Some(x), t) == Some(x.(tree := x.tree[t.path := FileNode(base, f).value]))
      else TaskPlaced(s, plan, Some(x), t) == None
  {
    hide Faithful, TextPlaced, PropsPlaced, FirstNode, FileFits, Changed, TextFits;
    var f, p := plan.files[t.path], t.path;
    assert f.path == p && FileTask(p) == t;
    TextIs(s, base, plan, x, t);
    NothingPlaced(t, f.props);
    if (f.present || p !in x.tree) && TextFits(s, plan, t) {
      var node := File(TextAfter(base, f), FirstNode(base, f).value.props);
      var y := x.(tree := x.tree[p := node]);
      PropsAre(y, t, f.props);
      assert node.(props := Changed(node.props, f.props)) == FileNode(base, f).value;
      assert y.tree[p := FileNode(base, f).value] == x.tree[p := FileNode(base, f).value];
    }
  }

  lemma FileHolds(base: Repo, plan: Plan, done: seq<Task>, dirs: set<Path>, t: Task, p: Path, node: Option<Node>)
    requires HoldsAt(base, plan, done, dirs, p, node) && t.FileTask? && t.path in plan.files
    requires p == t.path ==> !Gone(done, p) && forall d :: !InCopy(plan, dirs, d, p)
    ensures HoldsAt(base, plan, done + [t], dirs, p, if p == t.path then FileNode(base, plan.files[p]) else node)
  {
    hide Copies, Within, Original, FileNode, Changed, InCopy, Gone;
    GoneSnoc(done, t, p);
    var after := done + [t];
    assert t in after && forall u :: u in done ==> u in after;
    assert FileTask(t.path) == t;
  }

  lemma FilePlacedAt(base: Repo, plan: Plan, done: seq<Task>, walked: seq<Path>, t: Task, tree: Tree)
    requires IsPlaced(base, plan, done, walked, tree) && t.FileTask? && t.path in plan.files && FileNode(base, plan.files[t.path]).Some?
    requires !Gone(done, t.path) && (forall d :: !InCopy(plan, Elements(walked), d, t.path)) && t.path !in walked
    ensures IsPlaced(base, plan, done + [t], walked, tree[t.path := FileNode(base, plan.files[t.path]).value])
  {
    hide HoldsAt, FileNode, Gone, InCopy;
    var tree' := tree[t.path := FileNode(base, plan.files[t.path]).value];
    forall p ensures HoldsAt(base, plan, done + [t], Elements(walked), p, NodeAt(tree', p)) {
      FileHolds(base, plan, done, Elements(walked), t, p, NodeAt(tree, p));
    }
  }

  lemma FileStands(s: Settings, base: Repo, plan: Plan, tasks: seq<Task>, done: seq<Task>, walked: seq<Path>, x: Option<Content>, t: Task)
    requires Placeable(s, base, plan, tasks) && t.FileTask? && t in tasks && t !in done && t.path in plan.files
    requires (forall u :: u in done ==> u in tasks) && (forall d :: d in walked ==> d in plan.dirs)
    requires Stands(s, base, plan, done, walked, x)
    ensures Stands(s, base, plan, done + [t], walked, TaskPlaced(s, plan, x, t))
  {
    hide Placeable, IsPlaced, TextFits, Clear, Gone, InCopy, FileNode, FileFits, AddsDir, TaskPlaced, NodeAt, Complete, ProperPlan, Faithful;
    ClearSnoc(s, plan, done, walked, t);
    ProperOf(s, base, plan, tasks);
    if x.Some? {
      var tree, f := x.value.tree, plan.files[t.path];
      BeforeFile(s, base, plan, tasks, done, walked, t, tree);
      FileIs(s, base, plan, x.value, t);
      WalkedThere(base, plan, done, walked, tree);
      if f.present { BaseFile(base, tree, f); }
      AbsentNode(tree, t.path);
      if (f.present || t.path !in tree) && TextFits(s, plan, t) {
        FilePlacedAt(base, plan, done, walked, t, tree);
      }
    } else {
      NothingFiled(s, plan, t);
    }
  }

  lemma BaseFile(base: Repo, tree: Tree, f: ResolvedFile)
    requires FileFits(base, f) && f.present && NodeAt(tree, f.path) == NodeAt(base.tree, f.path)
    ensures f.path in tree && tree[f.path].File?
  {
  }

  lemma AbsentNode(tree: Tree, p: Path)
    ensures p in tree <==> NodeAt(tree, p) != None
  {
  }

  lemma ProperOf(s: Settings, base: Repo, plan: Plan, tasks: seq<Task>)
    requires Placeable(s, base, plan, tasks)
    ensures Faithful(s.codecs) && ProperPlan(plan) && Complete(plan, tasks)
  {
  }

  lemma NothingFiled(s: Settings, plan: Plan, t: Task)
    requires t.FileTask? && t.path in plan.files
    ensures TaskPlaced(s, plan, None, t) == None
  {
    hide DeltaOf, PropsPlaced;
    NothingPlaced(FileTask(plan.files[t.path].path), plan.files[t.path].props);
  }

  // ----- all tasks

  function Walked(tasks: seq<Task>): seq<Path> { DirsWalked(TargetsOf(tasks)) }

  lemma NothingStands(s: Settings, base: Repo, plan: Plan)
    ensures Stands(s, base, plan, [], [], Some(Untouched(base))) && Walked([]) == []
  {
    hide Original, Changed;
  }

  /** What is walked for some of the tasks is on the way to them. */
  lemma WalkedUnderway(tasks: seq<Task>, done: seq<Task>)
    requires (forall t :: t in tasks ==> ProperTask(t)) && forall t :: t in done ==> t in tasks
    ensures Underway(tasks, done, Walked(done))
    ensures forall d :: d in Walked(done) ==> exists t :: t in done && Needs(t, d)
    ensures forall t, d :: t in done && Needs(t, d) ==> d in Walked(done)
  {
    hide Needs, DirsWalked, TargetsOf, ProperTask;
    forall d ensures d in Walked(done) <==> exists t :: t in done && Needs(t, d) {
      WalkedIfNeeded(done, d);
    }
  }

  lemma WalkNeeds(before: seq<Task>, t: Task)
    requires ProperTask(t)
    ensures forall d :: d in Walk(Current(before), Target(t)) ==> Needs(t, d)
    ensures Walked(before + [t]) == Walked(before) + Walk(Current(before), Target(t))
  {
    hide Needs, DirsWalked, TargetsOf, ProperTask, Current, Target, Chain, CommonLen;
    TargetsGrow(before, t);
    WalkedSnoc(before, t);
    forall d | d in Walk(Current(before), Target(t)) ensures Needs(t, d) {
      assert d in Chain(Target(t));
      NeedsIs(t, d);
    }
  }

  /** The tasks one by one bring the base to the tree they ask for, or are refused. */
  lemma {:induction false} PlacedStands(s: Settings, base: Repo, plan: Plan, tasks: seq<Task>, k: nat)
    requires Placeable(s, base, plan, tasks) && InOrder(tasks) && k <= |tasks|
    ensures Stands(s, base, plan, tasks[..k], Walked(tasks[..k]), AllPlaced(s, plan, base, tasks[..k]))
  {
    hide Stands, Placeable, Walked, InOrder, TaskPlaced, Walk, Underway, AllEntered;
    if k == 0 {
      NothingStands(s, base, plan);
      assert tasks[..k] == [];
    } else {
      var before, t := tasks[..k - 1], tasks[k - 1];
      assert tasks[..k] == before + [t];
      PlacedStands(s, base, plan, tasks, k - 1);
      PlacedSnoc(s, plan, base, before, t);
      TaskStands(s, base, plan, tasks, k - 1, AllPlaced(s, plan, base, before));
    }
  }

  /** The next task, from the tasks before it. */
  lemma TaskStands(s: Settings, base: Repo, plan: Plan, tasks: seq<Task>, k: nat, x: Option<Content>)
    requires Placeable(s, base, plan, tasks) && InOrder(tasks) && k < |tasks|
    requires Stands(s, base, plan, tasks[..k], Walked(tasks[..k]), x)
    ensures var before, t := tasks[..k], tasks[k];
      Stands(s, base, plan, before + [t], Walked(before + [t]), TaskPlaced(s, plan, AllEntered(plan.dirs, x, Walk(Current(before), Target(t))), t))
  {
    hide Stands, Placeable, Walked, TaskPlaced, Walk, Underway, ProperTask, LessEq, Needs, EnterAll;
    var before, t := tasks[..k], tasks[k];
    var walk := Walk(Current(before), Target(t));
    assert t in tasks && forall u :: u in before ==> u in tasks;
    TaskNew(s, base, plan, tasks, k);
    WalkNeeds(before, t);
    WalkedUnderway(tasks, before);
    WalkedUnderway(before + [t], before + [t]);
    WalkedPlanned(s, base, plan, tasks, k);
    EnterAllStands(s, base, plan, tasks, before, Walked(before), x, t, walk);
    var y := EnterAll(plan.dirs, x, walk);
    var walked := Walked(before + [t]);
    assert t in before + [t];
    match t {
      case DirTask(d) =>
        if d != [] { assert Needs(t, d) by { ItselfNeeded(t); } }
        DirStands(s, base, plan, tasks, before, walked, y, t);
      case FileTask(_) =>
        FileStands(s, base, plan, tasks, before, walked, y, t);
      case DeleteTask(_) =>
        EarlierUnderway(before, t, walked);
        DeleteStands(s, base, plan, tasks, before, walked, y, t);
    }
  }

  lemma ItselfNeeded(t: Task)
    requires t.DirTask? && t.path != []
    ensures Needs(t, t.path)
  {
  }

  lemma EarlierUnderway(before: seq<Task>, t: Task, walked: seq<Path>)
    requires Underway(before + [t], before + [t], walked)
    ensures Underway(before + [t], before, walked)
  {
    hide Needs;
  }

  /** A task is not among those before it, and comes after them in the order. */
  lemma TaskNew(s: Settings, base: Repo, plan: Plan, tasks: seq<Task>, k: nat)
    requires Placeable(s, base, plan, tasks) && InOrder(tasks) && k < |tasks|
    ensures tasks[k] !in tasks[..k] && ProperTask(tasks[k]) && (forall u :: u in tasks ==> ProperTask(u))
    ensures forall u :: u in tasks[..k] ==> LessEq(u.path, tasks[k].path)
  {
    hide Faithful, Sound, PlanFits, Complete, DeletesFit, CopiesFit, ProperPlan, ProperTask, LessEq;
    assert tasks[k] in tasks;
  }

  lemma WalkedPlanned(s: Settings, base: Repo, plan: Plan, tasks: seq<Task>, k: nat)
    requires Placeable(s, base, plan, tasks) && k < |tasks|
    ensures forall d :: d in Walked(tasks[..k] + [tasks[k]]) ==> d in plan.dirs
    ensures tasks[k].FileTask? ==> tasks[k].path in plan.files
  {
    hide Placeable, DirsWalked, TargetsOf, ProperPlan, Faithful;
    ProperOf(s, base, plan, tasks);
    CompletePrefix(plan, tasks, k + 1);
    assert tasks[..k + 1] == tasks[..k] + [tasks[k]];
    assert tasks[k] in tasks;
  }

  // ----- when the way is clear

  predicate NewDirTask(plan: Plan, t: Task) { t.DirTask? && AddsDir(plan, t.path) }

  /**
   Nothing is asked for twice: a new directory with a task of its own is followed at once by everything
   below it, and where a file is added no task needs a new directory.
   */
  ghost predicate MadeOnce(plan: Plan, tasks: seq<Task>) {
    && (forall i, j, k :: 0 <= i < j < k < |tasks| && NewDirTask(plan, tasks[i]) && Needs(tasks[k], tasks[i].path)
          ==> Needs(tasks[j], tasks[i].path))
    && (forall t, u :: t in tasks && u in tasks && AddsFile(plan, t) && AddsDir(plan, t.path) ==> !Needs(u, t.path))
  }

  /** Nothing is deleted below something else that is deleted. */
  ghost predicate NoneNested(tasks: seq<Task>) {
    forall t, u :: t in tasks && u in tasks && t.DeleteTask? && u.DeleteTask? ==> !IsUnder(t.path, u.path)
  }

  lemma AddedOnceIff(plan: Plan, tasks: seq<Task>)
    requires InOrder(tasks)
    ensures AddedOnce(plan, tasks, Walked(tasks)) <==> MadeOnce(plan, tasks)
  {
    hide Needs, Walked, AddsDir, AddsFile, InOrder, LeadsAt, MadeOnce;
    OrderedProper(tasks);
    WalkedUnderway(tasks, tasks);
    forall d ensures multiset(Walked(tasks))[d] <= 1 <==> LeadsAt(tasks, d) {
      WalkedOnceIff(tasks, d);
    }
    LeadsWhereAdded(plan, tasks);
  }

  lemma WalkedOnceIff(tasks: seq<Task>, d: Path)
    requires InOrder(tasks)
    ensures multiset(Walked(tasks))[d] <= 1 <==> LeadsAt(tasks, d)
  {
    hide InOrder, LeadsAt, DirsWalked, TargetsOf;
    EnteredOnceIff(tasks, d);
  }

  lemma LeadsWhereAdded(plan: Plan, tasks: seq<Task>)
    ensures MadeOnce(plan, tasks) <==>
      && (forall d :: AddsDir(plan, d) ==> LeadsAt(tasks, d))
      && (forall t :: t in tasks && AddsFile(plan, t) && AddsDir(plan, t.path) ==> forall u :: u in tasks ==> !Needs(u, t.path))
  {
    hide Needs, AddsDir, AddsFile;
    if forall d :: AddsDir(plan, d) ==> LeadsAt(tasks, d) {
      forall i, j, k | 0 <= i < j < k < |tasks| && NewDirTask(plan, tasks[i]) && Needs(tasks[k], tasks[i].path)
        ensures Needs(tasks[j], tasks[i].path)
      {
        assert LeadsAt(tasks, tasks[i].path);
      }
    }
  }

  lemma UnharmedIff(base: Tree, tasks: seq<Task>)
    requires InOrder(tasks) && DeletesFit(base, tasks)
    ensures Unharmed(tasks, Walked(tasks)) <==> NoneNested(tasks)
  {
    hide Needs, Walked, InOrder, Within, IsUnder, DeletesFit;
    OrderedProper(tasks);
    WalkedUnderway(tasks, tasks);
    if Unharmed(tasks, Walked(tasks)) {
      forall t, u | t in tasks && u in tasks && t.DeleteTask? && u.DeleteTask? ensures !IsUnder(t.path, u.path) {
        if IsUnder(t.path, u.path) { NestedEntered(t, u); WithinSelf(t.path); }
      }
    }
    if NoneNested(tasks) {
      forall t, d | t in tasks && t.DeleteTask? && d in Walked(tasks) ensures !Within(t.path, d) {
        var u :| u in tasks && Needs(u, d);
        if Within(t.path, d) { EnteredNested(base, tasks, t, u, d); }
      }
    }
  }

  lemma NestedEntered(t: Task, u: Task)
    requires IsUnder(t.path, u.path)
    ensures Needs(u, t.path)
  {
  }

  lemma EnteredNested(base: Tree, tasks: seq<Task>, t: Task, u: Task, d: Path)
    requires DeletesFit(base, tasks) && t in tasks && u in tasks && t.DeleteTask? && Needs(u, d) && Within(t.path, d)
    ensures u.DeleteTask? && IsUnder(t.path, u.path)
  {
    NeedsWithin(u, d);
    WithinBelow(t.path, d, u.path);
    OnlyDeletedBelow(base, tasks, t, u);
    assert IsUnder(d, u.path) && |d| < |u.path|;
  }

  lemma ClearIff(s: Settings, base: Repo, plan: Plan, tasks: seq<Task>)
    requires Placeable(s, base, plan, tasks) && InOrder(tasks)
    ensures Clear(s, plan, tasks, Walked(tasks)) <==> MadeOnce(plan, tasks) && TextsFit(s, plan, tasks) && NoneNested(tasks)
  {
    hide Placeable, InOrder, Walked, MadeOnce, TextsFit, NoneNested, AddedOnce, Unharmed;
    DeletesOf(s, base, plan, tasks);
    AddedOnceIff(plan, tasks);
    UnharmedIff(base.tree, tasks);
  }

  // ----- the drive

  lemma PlacedIsIntended(s: Settings, base: Repo, plan: Plan, tasks: seq<Task>, tree: Tree)
    requires Placeable(s, base, plan, tasks) && InOrder(tasks)
    requires Clear(s, plan, tasks, Walked(tasks)) && IsPlaced(base, plan, tasks, Walked(tasks), tree)
    ensures IsIntended(base, plan, tasks, tree)
  {
    hide Placeable, InOrder, Walked, Clear, HoldsAt, CopyNode, FileNode, Retouched, Within, Needs;
    OrderedProper(tasks);
    WalkedUnderway(tasks, tasks);
    var dirs := Elements(Walked(tasks));
    forall p ensures HoldsAt(base, plan, tasks, dirs, p, NodeAt(tree, p)) { }
    forall t, p | t in tasks && t.DeleteTask? && Within(t.path, p) ensures p !in tree {
      DeletedHolds(base, plan, tasks, dirs, t, p, tree);
    }
    forall t, p | t in tasks && t.DirTask? && Copies(plan, t.path) && Within(t.path, p)
      ensures NodeAt(tree, p) == CopyNode(base, plan, tasks, t.path, p)
    {
      CopyEntered(s, base, plan, tasks, t);
      CopiedHolds(base, plan, tasks, dirs, t.path, p, NodeAt(tree, p));
    }
    forall t | t in tasks && t.FileTask? ensures t.path in plan.files && NodeAt(tree, t.path) == FileNode(base, plan.files[t.path]) {
      FileHeld(s, base, plan, tasks, t, NodeAt(tree, t.path));
    }
    forall p | Elsewhere(plan, tasks, p)
      ensures NodeAt(tree, p) == Retouched(plan, tasks, p, if p in base.tree then Some(base.tree[p])
                                                           else if exists t :: t in tasks && Needs(t, p) then Some(Dir(map[])) else None)
    {
      ElsewhereHolds(s, base, plan, tasks, dirs, p, NodeAt(tree, p));
    }
  }

  lemma DeletedHolds(base: Repo, plan: Plan, tasks: seq<Task>, dirs: set<Path>, t: Task, p: Path, tree: Tree)
    requires HoldsAt(base, plan, tasks, dirs, p, NodeAt(tree, p)) && t in tasks && t.DeleteTask? && Within(t.path, p)
    ensures p !in tree
  {
  }

  lemma CopiedHolds(base: Repo, plan: Plan, tasks: seq<Task>, dirs: set<Path>, d: Path, p: Path, node: Option<Node>)
    requires HoldsAt(base, plan, tasks, dirs, p, node) && d in dirs && Copies(plan, d) && Within(d, p)
    ensures node == CopyNode(base, plan, tasks, d, p)
  {
    hide Within, Original, Changed;
    assert InCopy(plan, dirs, d, p);
  }

  lemma CopyEntered(s: Settings, base: Repo, plan: Plan, tasks: seq<Task>, t: Task)
    requires Placeable(s, base, plan, tasks) && (forall u :: u in tasks ==> ProperTask(u))
    requires t in tasks && t.DirTask? && Copies(plan, t.path)
    ensures t.path in Walked(tasks)
  {
    hide Placeable, Walked, ProperTask, Original;
    WalkedUnderway(tasks, tasks);
    FitsIn(s, base, plan, tasks, t.path);
    RootInBase(s, base, plan, tasks);
    ItselfNeeded(t);
  }

  lemma RootInBase(s: Settings, base: Repo, plan: Plan, tasks: seq<Task>)
    requires Placeable(s, base, plan, tasks)
    ensures [] in base.tree
  {
  }

  lemma FileHeld(s: Settings, base: Repo, plan: Plan, tasks: seq<Task>, t: Task, node: Option<Node>)
    requires Placeable(s, base, plan, tasks) && Clear(s, plan, tasks, Walked(tasks)) && t in tasks && t.FileTask?
    requires HoldsAt(base, plan, tasks, Elements(Walked(tasks)), t.path, node)
    ensures t.path in plan.files && node == FileNode(base, plan.files[t.path])
  {
    hide Placeable, Walked, Within, FileNode, TextsFit, Unharmed, CopyNode;
    ProperOf(s, base, plan, tasks);
    assert FileTask(t.path) == t;
    CompleteFile(plan, tasks, t.path);
    FileNotGone(s, base, plan, tasks, tasks, t);
    forall d ensures !InCopy(plan, Elements(Walked(tasks)), d, t.path) {
      if InCopy(plan, Elements(Walked(tasks)), d, t.path) {
        FileNotInCopy(s, base, plan, tasks, t, d);
        NewFile(s, base, plan, tasks, tasks, d);
      }
    }
  }

  lemma ElsewhereHolds(s: Settings, base: Repo, plan: Plan, tasks: seq<Task>, dirs: set<Path>, p: Path, node: Option<Node>)
    requires Placeable(s, base, plan, tasks) && Elsewhere(plan, tasks, p) && HoldsAt(base, plan, tasks, dirs, p, node)
    requires forall d :: d in dirs <==> exists t :: t in tasks && Needs(t, d)
    ensures node == Retouched(plan, tasks, p, if p in base.tree then Some(base.tree[p])
                                              else if exists t :: t in tasks && Needs(t, p) then Some(Dir(map[])) else None)
  {
    hide Placeable, Within, FileNode, Copies, Needs, CopyNode, Retouched, Gone;
    DeletesOf(s, base, plan, tasks);
    forall d ensures !InCopy(plan, dirs, d, p) { ElsewhereNotCopied(plan, tasks, dirs, d, p); }
  }

  lemma ElsewhereNotCopied(plan: Plan, tasks: seq<Task>, dirs: set<Path>, d: Path, p: Path)
    requires CopiesFit(plan, tasks) && Elsewhere(plan, tasks, p)
    ensures !InCopy(plan, dirs, d, p)
  {
    hide Within, Copies;
    assert DirTask(d).path == d;
  }

  /**
   For checked and sorted tasks the reference editor accepts the drive exactly when nothing is asked for
   twice, nothing is deleted below something deleted, and every text fits the windows; the tree is then
   the intended one.
   */
  lemma DriveAcceptedIff(s: Settings, base: Repo, plan: Plan, tasks: seq<Task>, cmds: seq<EditorCommand>)
    requires Placeable(s, base, plan, tasks) && InOrder(tasks)
    requires WellNested(cmds) && EditRun(s.codecs, base, cmds) == AllPlaced(s, plan, base, tasks)
    ensures (exists tree :: Yields(s.codecs, base, cmds, tree)) <==> MadeOnce(plan, tasks) && NoneNested(tasks) && TextsFit(s, plan, tasks)
    ensures forall tree :: Yields(s.codecs, base, cmds, tree) ==> IsIntended(base, plan, tasks, tree)
  {
    hide Placeable, InOrder, WellNested, EditRun, AllPlaced, MadeOnce, NoneNested, TextsFit, Walked, IsPlaced, IsIntended, Clear;
    assert tasks[..|tasks|] == tasks;
    PlacedStands(s, base, plan, tasks, |tasks|);
    ClearIff(s, base, plan, tasks);
    var x := AllPlaced(s, plan, base, tasks);
    if x.Some? {
      PlacedIsIntended(s, base, plan, tasks, x.value.tree);
      assert Yields(s.codecs, base, cmds, x.value.tree);
    }
  }

  // ----- drives that are sent and refused

  /** An empty repository, whatever its history. */
  function EmptyRepo(h: History): Repo { Repo(map[[] := Dir(map[])], h) }

  /** `a` is a new directory with a task of its own, `a-b` and `a/c` are new empty files. */
  function FreshPlan(): Plan {
    var empty := Some(Put([]));
    Plan(map[A := PlanAdd(None)], map[], map[A_B := ResolvedFile(A_B, false, empty, []), A_C := ResolvedFile(A_C, false, empty, [])])
  }

  /** The builder reopens the directory it has just added, so the drive for these tasks is refused. */
  lemma ReopenedAddIsRefused(s: Settings, h: History, cmds: seq<EditorCommand>, tree: Tree)
    requires Faithful(s.codecs) && WellNested(cmds)
    requires EditRun(s.codecs, EmptyRepo(h), cmds) == AllPlaced(s, FreshPlan(), EmptyRepo(h), DirAndNeighbour())
    ensures Placeable(s, EmptyRepo(h), FreshPlan(), DirAndNeighbour()) && InOrder(DirAndNeighbour())
    ensures !Yields(s.codecs, EmptyRepo(h), cmds, tree)
  {
    hide *;
    NeighboursOrdered();
    FreshPlaceable(s, h);
    AskedTwice();
    DriveAcceptedIff(s, EmptyRepo(h), FreshPlan(), DirAndNeighbour(), cmds);
  }

  lemma AskedTwice()
    ensures !MadeOnce(FreshPlan(), DirAndNeighbour())
  {
    hide Needs;
    NeighbourBetween();
    var tasks := DirAndNeighbour();
    assert NewDirTask(FreshPlan(), tasks[0]) && Needs(tasks[2], tasks[0].path) && !Needs(tasks[1], tasks[0].path);
  }

  lemma FreshPlaceable(s: Settings, h: History)
    requires Faithful(s.codecs)
    ensures Placeable(s, EmptyRepo(h), FreshPlan(), DirAndNeighbour())
  {
    hide Faithful, Complete, Sound, PlanFits, TasksDiffer;
    FreshComplete();
    FreshFits(h);
    EmptySound(h);
  }

  lemma EmptySound(h: History)
    ensures Sound(EmptyRepo(h).tree)
  {
  }

  lemma FreshFits(h: History)
    ensures ProperPlan(FreshPlan()) && PlanFits(EmptyRepo(h), FreshPlan()) && TasksDiffer(DirAndNeighbour())
    ensures forall t :: t in DirAndNeighbour() ==> !t.DeleteTask?
  {
  }

  lemma FreshComplete()
    ensures Complete(FreshPlan(), DirAndNeighbour())
  {
    hide Needs, Walked, ProperTask, InOrder;
    var tasks := DirAndNeighbour();
    NeighboursOrdered();
    OrderedProper(tasks);
    WalkedUnderway(tasks, tasks);
    forall d | d in Walked(tasks) ensures d in FreshPlan().dirs {
      var t :| t in tasks && Needs(t, d);
      OnlyANeeded(t, d);
    }
    WalkedComplete(FreshPlan(), tasks);
  }

  lemma WalkedComplete(plan: Plan, tasks: seq<Task>)
    requires (forall d :: d in Walked(tasks) ==> d in plan.dirs) && forall t :: t in tasks && t.FileTask? ==> t.path in plan.files
    ensures Complete(plan, tasks)
  {
    hide DirsWalked, TargetsOf;
  }

  lemma OnlyANeeded(t: Task, d: Path)
    requires t.path in {A, A_B, A_C} && (t.DirTask? ==> t.path == A) && Needs(t, d)
    ensures d == A
  {
    if IsUnder(d, t.path) { UnderOnlyA(t.path, d); }
  }

  lemma UnderOnlyA(p: Path, d: Path)
    requires p in {[], A, A_B, A_C} && IsUnder(d, p)
    ensures d == A && p == A_C
  {
    var lead := d + [SLASH];
    assert lead == p[..|lead|] && lead[|d|] == SLASH;
    assert p[|d|] == SLASH && d == p[..|d|];
    assert A_C[..1] == A;
  }

  /** The directory `a` with the file `a/c`. */
  function SmallRepo(h: History): Repo { Repo(map[[] := Dir(map[]), A := Dir(map[]), A_C := File([], map[])], h) }

  /** The deletion of `a`, and that of `a/c`. */
  function NestedDeletes(): seq<Task> { [DeleteTask(A), DeleteTask(A_C)] }

  function OpenPlan(): Plan { Plan(map[A := PlanOpen], map[], map[]) }

  /** Deleting a directory and something in it passes every check, but the drive opens what it has just deleted. */
  lemma NestedDeletesAreRefused(s: Settings, h: History, cmds: seq<EditorCommand>, tree: Tree)
    requires Faithful(s.codecs) && WellNested(cmds)
    requires EditRun(s.codecs, SmallRepo(h), cmds) == AllPlaced(s, OpenPlan(), SmallRepo(h), NestedDeletes())
    ensures Placeable(s, SmallRepo(h), OpenPlan(), NestedDeletes()) && InOrder(NestedDeletes())
    ensures !Yields(s.codecs, SmallRepo(h), cmds, tree)
  {
    hide *;
    NestedOrdered();
    NestedPlaceable(s, h);
    OneBelowTheOther();
    DriveAcceptedIff(s, SmallRepo(h), OpenPlan(), NestedDeletes(), cmds);
  }

  lemma NestedOrdered()
    ensures InOrder(NestedDeletes())
  {
    assert Less(A, A_C);
  }

  lemma OneBelowTheOther()
    ensures !NoneNested(NestedDeletes())
  {
    var tasks := NestedDeletes();
    assert tasks[0] in tasks && tasks[1] in tasks;
    assert A + [SLASH] == A_C[..2];
  }

  lemma NestedPlaceable(s: Settings, h: History)
    requires Faithful(s.codecs)
    ensures Placeable(s, SmallRepo(h), OpenPlan(), NestedDeletes())
  {
    hide Faithful, Complete, Sound;
    NestedComplete();
    SmallSound(h);
  }

  lemma SmallSound(h: History)
    ensures Sound(SmallRepo(h).tree)
  {
    var tree := SmallRepo(h).tree;
    forall p, d | p in tree && IsUnder(d, p) ensures d in tree && tree[d].Dir? {
      UnderOnlyA(p, d);
    }
  }

  lemma NestedComplete()
    ensures Complete(OpenPlan(), NestedDeletes())
  {
    hide Needs, Walked, ProperTask, InOrder;
    var tasks := NestedDeletes();
    NestedOrdered();
    OrderedProper(tasks);
    WalkedUnderway(tasks, tasks);
    forall d | d in Walked(tasks) ensures d in OpenPlan().dirs {
      var t :| t in tasks && Needs(t, d);
      OnlyANeeded(t, d);
    }
    WalkedComplete(OpenPlan(), tasks);
  }
}
