/** What the tasks of the in-memory commit builder should make of a tree, path by path. */
module IntendedTree {
  import opened Bytes
  import opened Sections
  import opened Paths
  import opened DirChain
  import opened TreeEditor
  import opened Drives
  import opened CommitBuilder
  import opened Reopening

  // ----- what the checks before the drive establish

  /** A tree as a repository has it: a root, and nothing but directories above anything. */
  ghost predicate Sound(tree: Tree) {
    && [] in tree && tree[[]].Dir?
    && (forall p, d :: p in tree && IsUnder(d, p) ==> d in tree && tree[d].Dir?)
  }

  /** The URL of a copy source is that of the repository, a slash, and a path. */
  predicate Names(h: History, copy: (seq<byte>, u64), from: Path) {
    from != [] && copy.0 == h.root + [SLASH] + from
  }

  /** What the revision copied from has at the source with `below` behind it. */
  ghost function Original(h: History, copy: (seq<byte>, u64), below: seq<byte>): Option<Node> {
    if (exists from :: Names(h, copy, from)) && copy.1 in h.past then
      var from :| Names(h, copy, from);
      NodeAt(h.past[copy.1], from + below)
    else None
  }

  ghost predicate DirFits(base: Repo, d: Path, plan: DirPlan) {
    match plan
    case PlanOpen => d in base.tree && base.tree[d].Dir?
    case PlanAdd(None) => d !in base.tree
    case PlanAdd(Some(copy)) => d !in base.tree && Original(base.history, copy, []).Some? && Original(base.history, copy, []).value.Dir?
  }

  ghost predicate FileFits(base: Repo, f: ResolvedFile) {
    && (if f.present then f.path in base.tree && base.tree[f.path].File? else f.path !in base.tree)
    && match f.action
       case None => f.present
       case Some(Put(_)) => true
       case Some(Copy(url, rev)) =>
         !f.present && Original(base.history, (url, rev), []).Some? && Original(base.history, (url, rev), []).value.File?
  }

  /** The plans agree with the base tree, and what is copied is where it is copied from. */
  ghost predicate PlanFits(base: Repo, plan: Plan) {
    && (forall d :: d in plan.dirs ==> DirFits(base, d, plan.dirs[d]))
    && (forall p :: p in plan.files ==> FileFits(base, plan.files[p]))
  }

  predicate AddsDir(plan: Plan, d: Path) { d in plan.dirs && plan.dirs[d].PlanAdd? }

  predicate Copies(plan: Plan, d: Path) { d in plan.dirs && plan.dirs[d].PlanAdd? && plan.dirs[d].copyFrom.Some? }

  /** What is deleted is there, and nothing else is done at or below it. */
  ghost predicate DeletesFit(base: Tree, tasks: seq<Task>) {
    forall t :: t in tasks && t.DeleteTask? ==>
      t.path in base && forall u :: u in tasks && Within(t.path, u.path) ==> u.DeleteTask?
  }

  /** A directory is copied by a task of its own, and nothing is done below it. */
  ghost predicate CopiesFit(plan: Plan, tasks: seq<Task>) {
    forall d :: Copies(plan, d) ==> DirTask(d) in tasks && forall u :: u in tasks ==> !IsUnder(d, u.path)
  }

  /** Each task is there once. */
  ghost predicate TasksDiffer(tasks: seq<Task>) {
    forall i, j :: 0 <= i < j < |tasks| ==> tasks[i] != tasks[j]
  }

  /** What the builder has checked before it emits a command. */
  ghost predicate Placeable(s: Settings, base: Repo, plan: Plan, tasks: seq<Task>) {
    && Faithful(s.codecs) && Sound(base.tree) && ProperPlan(plan) && PlanFits(base, plan) && Complete(plan, tasks)
    && TasksDiffer(tasks) && DeletesFit(base.tree, tasks) && CopiesFit(plan, tasks)
  }

  // ----- what each path should hold

  /** The properties after these changes, in their order. */
  function Changed(props: Props, changes: seq<PropChange>): Props {
    if changes == [] then props
    else
      var before, c := Changed(props, changes[..|changes| - 1]), changes[|changes| - 1];
      match c.value case Some(v) => before[c.name := v] case None => before - {c.name}
  }

  /** The file before its text and properties are changed: as in the base, as copied, or empty. */
  ghost function FirstNode(base: Repo, f: ResolvedFile): Option<Node> {
    match f.action
    case Some(Copy(url, rev)) => Original(base.history, (url, rev), [])
    case Some(Put(_)) => if f.present then NodeAt(base.tree, f.path) else Some(File([], map[]))
    case None => if f.present then NodeAt(base.tree, f.path) else Some(File([], map[]))
  }

  /** The file with its new text, if it gets one, and its properties changed. */
  ghost function FileNode(base: Repo, f: ResolvedFile): Option<Node> {
    match FirstNode(base, f)
    case Some(File(contents, props)) =>
      Some(File(if f.action.Some? && f.action.value.Put? then f.action.value.contents else contents, Changed(props, f.props)))
    case _ => None
  }

  function PropsFor(plan: Plan, d: Path): seq<PropChange> {
    if d in plan.dirProps then plan.dirProps[d] else []
  }

  /** A directory with the properties changed that a task for it asks for. */
  function Retouched(plan: Plan, tasks: seq<Task>, p: Path, node: Option<Node>): Option<Node> {
    if DirTask(p) in tasks && node.Some? && node.value.Dir? then Some(Dir(Changed(node.value.props, PropsFor(plan, p)))) else node
  }

  ghost predicate Gone(tasks: seq<Task>, p: Path) {
    exists t :: t in tasks && t.DeleteTask? && Within(t.path, p)
  }

  ghost predicate InCopy(plan: Plan, dirs: set<Path>, d: Path, p: Path) {
    d in dirs && Copies(plan, d) && Within(d, p)
  }

  /** What a copied directory puts at `p`. */
  ghost function CopyNode(base: Repo, plan: Plan, tasks: seq<Task>, d: Path, p: Path): Option<Node>
    requires Copies(plan, d) && Within(d, p)
  {
    Retouched(plan, tasks, p, Original(base.history, plan.dirs[d].copyFrom.value, p[|d|..]))
  }

  /** What is at `p` when nothing above it is deleted or copied. */
  ghost function OwnNode(base: Repo, plan: Plan, tasks: seq<Task>, dirs: set<Path>, p: Path): Option<Node> {
    if FileTask(p) in tasks && p in plan.files then FileNode(base, plan.files[p])
    else Retouched(plan, tasks, p, if p in base.tree then NodeAt(base.tree, p) else if p in dirs then Some(Dir(map[])) else None)
  }

  /** With these tasks done and these directories entered, this is at `p`. */
  ghost predicate HoldsAt(base: Repo, plan: Plan, tasks: seq<Task>, dirs: set<Path>, p: Path, node: Option<Node>) {
    && (Gone(tasks, p) ==> node == None)
    && (forall d :: InCopy(plan, dirs, d, p) ==> node == CopyNode(base, plan, tasks, d, p))
    && (!Gone(tasks, p) && (forall d :: !InCopy(plan, dirs, d, p)) ==> node == OwnNode(base, plan, tasks, dirs, p))
  }

  /**
   The intended tree: nothing at or below a deleted path; a copied directory with everything below it as
   in the revision asked for; each file as its task says; and elsewhere what the base has, with empty
   directories above the tasks where it has nothing. Properties are changed as the tasks ask.
   */
  ghost predicate IsIntended(base: Repo, plan: Plan, tasks: seq<Task>, tree: Tree) {
    && (forall t, p :: t in tasks && t.DeleteTask? && Within(t.path, p) ==> p !in tree)
    && (forall t, p :: t in tasks && t.DirTask? && Copies(plan, t.path) && Within(t.path, p) ==>
          NodeAt(tree, p) == CopyNode(base, plan, tasks, t.path, p))
    && (forall t :: t in tasks && t.FileTask? ==> t.path in plan.files && NodeAt(tree, t.path) == FileNode(base, plan.files[t.path]))
    && (forall p :: Elsewhere(plan, tasks, p) ==>
          NodeAt(tree, p) == Retouched(plan, tasks, p, if p in base.tree then Some(base.tree[p])
                                                       else if exists t :: t in tasks && Needs(t, p) then Some(Dir(map[])) else None))
  }

  ghost predicate Elsewhere(plan: Plan, tasks: seq<Task>, p: Path) {
    !Gone(tasks, p) && FileTask(p) !in tasks && forall t :: t in tasks && t.DirTask? && Copies(plan, t.path) ==> !Within(t.path, p)
  }

  /** The intended tree is determined. */
  lemma IntendedUnique(base: Repo, plan: Plan, tasks: seq<Task>, a: Tree, b: Tree)
    requires IsIntended(base, plan, tasks, a) && IsIntended(base, plan, tasks, b)
    ensures a == b
  {
    forall p ensures NodeAt(a, p) == NodeAt(b, p) {
      IntendedAgree(base, plan, tasks, a, b, p);
    }
    SameNodes(a, b);
  }

  lemma IntendedAgree(base: Repo, plan: Plan, tasks: seq<Task>, a: Tree, b: Tree, p: Path)
    requires IsIntended(base, plan, tasks, a) && IsIntended(base, plan, tasks, b)
    ensures NodeAt(a, p) == NodeAt(b, p)
  {
    hide Needs, Within, CopyNode, FileNode, Retouched, Copies;
    if Gone(tasks, p) {
      var t :| t in tasks && t.DeleteTask? && Within(t.path, p);
    } else if t :| t in tasks && t.DirTask? && Copies(plan, t.path) && Within(t.path, p) {
      assert NodeAt(a, p) == CopyNode(base, plan, tasks, t.path, p) == NodeAt(b, p);
    } else if FileTask(p) in tasks {
      assert FileTask(p).path == p;
    } else {
      assert Elsewhere(plan, tasks, p);
    }
  }

  lemma SameNodes(a: Tree, b: Tree)
    requires forall p :: NodeAt(a, p) == NodeAt(b, p)
    ensures a == b
  {
    forall p ensures p in a <==> p in b { assert NodeAt(a, p) == NodeAt(b, p); }
    forall p | p in a ensures a[p] == b[p] { assert NodeAt(a, p) == NodeAt(b, p); }
  }

  // ----- properties

  /** The last change of a property, if there is one. */
  function LastChange(changes: seq<PropChange>, name: seq<byte>): Option<Option<seq<byte>>> {
    if changes == [] then None
    else if changes[|changes| - 1].name == name then Some(changes[|changes| - 1].value)
    else LastChange(changes[..|changes| - 1], name)
  }

  /** A property has the value its last change gives it, is gone if that takes it away, and is kept if it is not changed. */
  lemma {:induction false} LastChangeWins(props: Props, changes: seq<PropChange>, name: seq<byte>)
    ensures var after := Changed(props, changes);
      match LastChange(changes, name)
      case None => (name in after <==> name in props) && (name in props ==> after[name] == props[name])
      case Some(None) => name !in after
      case Some(Some(v)) => name in after && after[name] == v
    decreases |changes|
  {
    if changes != [] {
      LastChangeWins(props, changes[..|changes| - 1], name);
    }
  }

  // ----- what may and may not meet

  lemma WithinMeet(a: Path, b: Path, p: Path)
    requires Within(a, p) && Within(b, p)
    ensures Within(a, b) || IsUnder(b, a)
  {
    if |a| == |b| {
      assert a == p[..|a|] && b == p[..|b|];
    } else if |a| < |b| {
      assert b == p[..|b|] && a + [SLASH] == p[..|a| + 1] == b[..|a| + 1];
    } else {
      assert a == p[..|a|] && b + [SLASH] == p[..|b| + 1] == a[..|b| + 1];
    }
  }

  lemma WithinBelow(a: Path, b: Path, p: Path)
    requires Within(b, p)
    ensures Within(a, b) ==> Within(a, p)
    ensures IsUnder(a, b) ==> IsUnder(a, p)
  {
    if IsUnder(a, b) && IsUnder(b, p) {
      assert a + [SLASH] == b[..|a| + 1] == p[..|a| + 1];
    }
  }

  lemma NeedsWithin(t: Task, d: Path)
    requires Needs(t, d)
    ensures d != [] && Within(d, t.path)
  {
  }

  /** No directory on the way to a task lies below a copied one. */
  lemma NotBelowCopy(plan: Plan, tasks: seq<Task>, t: Task, d: Path, copied: Path)
    requires CopiesFit(plan, tasks) && t in tasks && Needs(t, d) && Copies(plan, copied)
    ensures !IsUnder(copied, d)
  {
    NeedsWithin(t, d);
    WithinBelow(copied, d, t.path);
  }

  /** Below a deleted path there are only deletions, so everything on the way to them is in the base. */
  lemma LeadsToDeleted(base: Tree, tasks: seq<Task>, t: Task, d: Path, u: Task)
    requires Sound(base) && DeletesFit(base, tasks)
    requires t in tasks && Needs(t, d) && u in tasks && u.DeleteTask? && Within(u.path, d)
    ensures d in base
  {
    NeedsWithin(t, d);
    WithinBelow(u.path, d, t.path);
  }

  /** No directory that is missing on the way to a task lies below a deleted one. */
  lemma NewNotDeleted(base: Repo, plan: Plan, tasks: seq<Task>, t: Task, d: Path, u: Task)
    requires Sound(base.tree) && PlanFits(base, plan) && DeletesFit(base.tree, tasks)
    requires t in tasks && Needs(t, d) && AddsDir(plan, d) && u in tasks && u.DeleteTask?
    ensures !Within(u.path, d)
  {
    hide Sound, DeletesFit, Within, Needs;
    assert DirFits(base, d, plan.dirs[d]);
    if Within(u.path, d) { LeadsToDeleted(base.tree, tasks, t, d, u); }
  }

  /** The source of a copy, as the reference editor finds it. */
  lemma OriginalIs(h: History, copy: (seq<byte>, u64), below: seq<byte>)
    ensures SourcePath(h, copy).Some? && copy.1 in h.past ==>
      Original(h, copy, below) == NodeAt(h.past[copy.1], SourcePath(h, copy).value + below)
    ensures Original(h, copy, []) == SourceNode(h, copy)
  {
    if SourcePath(h, copy).Some? {
      var from := SourcePath(h, copy).value;
      assert Names(h, copy, from);
      forall f | Names(h, copy, f) ensures f == from { OnlySource(h, copy, f); }
      assert from + [] == from;
    } else if from :| Names(h, copy, from) {
      OnlySource(h, copy, from);
    }
  }

  lemma OnlySource(h: History, copy: (seq<byte>, u64), from: Path)
    requires Names(h, copy, from)
    ensures SourcePath(h, copy) == Some(from)
  {
    var lead := h.root + [SLASH];
    assert copy.0 == lead + from && copy.0[|lead|..] == from;
    assert copy.0[..|lead|] == lead;
  }
}
