/** When the in-memory commit builder opens a directory twice, and what its deltas carry. */
module Reopening {
  import opened Bytes
  import opened SvndiffFormat
  import opened Sections
  import opened Encoder
  import opened Paths
  import opened Order
  import opened DirChain
  import opened TreeEditor
  import opened Drives
  import opened Walks
  import opened RoundTrip
  import opened CommitBuilder
  import Applier
  import StreamParser

  /** The task needs directory `d` open: it lies below it, or is about the directory itself. */
  predicate Needs(t: Task, d: Path) {
    IsUnder(d, t.path) || (t.DirTask? && t.path == d && d != [])
  }

  lemma NeedsIs(t: Task, d: Path)
    requires ProperTask(t)
    ensures d in Chain(Target(t)) <==> Needs(t, d)
  {
    if t.DirTask? {
      if t.path != [] {
        InChain(d, t.path);
      }
    } else {
      InChain(d, t.path);
    }
  }

  /** The builder sorts its tasks by path. */
  ghost predicate InOrder(tasks: seq<Task>) {
    && (forall t :: t in tasks ==> ProperTask(t))
    && (forall i, j :: 0 <= i < j < |tasks| ==> LessEq(tasks[i].path, tasks[j].path))
  }

  /** A directory with a task of its own is not left before everything below it is done. */
  ghost predicate DirTasksLead(tasks: seq<Task>) {
    forall i, j, k :: 0 <= i < j < k < |tasks| && tasks[i].DirTask? && Needs(tasks[k], tasks[i].path) ==> Needs(tasks[j], tasks[i].path)
  }

  lemma BetweenNeeds(tasks: seq<Task>, i: nat, j: nat, k: nat, d: Path)
    requires InOrder(tasks) && i < j < k < |tasks|
    requires tasks[i] == DirTask(d) ==> Needs(tasks[j], d)
    requires Needs(tasks[i], d) && Needs(tasks[k], d)
    ensures Needs(tasks[j], d)
  {
    hide Less, IsUnder, ProperTask;
    var p, q := tasks[i].path, tasks[k].path;
    if IsUnder(d, p) {
      if IsUnder(d, q) {
        UnderBetween(d, p, tasks[j].path, q);
      } else {
        UnderIsGreater(d, p);
        LessIrreflexive(d);
        assert LessEq(p, d);
        if Less(p, d) { LessTransitive(d, p, d); }
      }
    }
  }

  /** The directories the builder collects before planning: those above any task's target. */
  function RequiredDirs(tasks: seq<Task>): set<Path> {
    set t, d | t in tasks && d in Chain(Target(t)) :: d
  }

  lemma TargetsProper(tasks: seq<Task>)
    requires forall t :: t in tasks ==> ProperTask(t)
    ensures Targets(TargetsOf(tasks)) && |TargetsOf(tasks)| == |tasks|
    ensures forall k :: 0 <= k < |tasks| ==> TargetsOf(tasks)[k] == Target(tasks[k])
    ensures forall k, d :: 0 <= k < |tasks| ==> (d in Chain(TargetsOf(tasks)[k]) <==> Needs(tasks[k], d))
  {
    hide Needs, ProperTask, TargetsOf, Target, Chain, Relative;
    TargetsAre(tasks);
    var targets := TargetsOf(tasks);
    forall t | t in targets ensures t == [] || Relative(t) {
      var k :| 0 <= k < |targets| && targets[k] == t;
      TargetProper(tasks[k]);
    }
    forall k, d | 0 <= k < |tasks| ensures d in Chain(targets[k]) <==> Needs(tasks[k], d) {
      NeedsIs(tasks[k], d);
    }
  }

  /** A directory is needed by some task exactly when the walk enters it. */
  lemma WalkedIfNeeded(tasks: seq<Task>, d: Path)
    requires forall t :: t in tasks ==> ProperTask(t)
    ensures d in DirsWalked(TargetsOf(tasks)) <==> exists t :: t in tasks && Needs(t, d)
  {
    hide Needs, ProperTask, TargetsOf, Target, Chain, DirsWalked, Targets;
    TargetsProper(tasks);
    var targets := TargetsOf(tasks);
    WalkedCovers(targets, d);
    if t :| t in targets && d in Chain(t) {
      var k :| 0 <= k < |targets| && targets[k] == t;
      assert tasks[k] in tasks;
    }
    if t :| t in tasks && Needs(t, d) {
      var k :| 0 <= k < |tasks| && tasks[k] == t;
      assert targets[k] in targets;
    }
  }

  /** Plans for the collected directories and for the edited files are all the drive ever looks up. */
  lemma PlansSuffice(plan: Plan, tasks: seq<Task>)
    requires forall t :: t in tasks ==> ProperTask(t) && (t.FileTask? ==> t.path in plan.files)
    ensures RequiredDirs(tasks) <= plan.dirs.Keys <==> Complete(plan, tasks)
  {
    hide Chain, ProperTask, DirsWalked, TargetsOf, Target, Needs;
    forall d ensures d in DirsWalked(TargetsOf(tasks)) <==> d in RequiredDirs(tasks) {
      WalkedIfNeeded(tasks, d);
      forall t | t in tasks ensures d in Chain(Target(t)) <==> Needs(t, d) {
        NeedsIs(t, d);
      }
    }
    assert forall d :: d in RequiredDirs(tasks) <==> d in DirsWalked(TargetsOf(tasks));
  }

  /** A task for `d` itself is followed at once by everything below `d`. */
  ghost predicate LeadsAt(tasks: seq<Task>, d: Path) {
    forall i, j, k :: 0 <= i < j < k < |tasks| && tasks[i] == DirTask(d) && Needs(tasks[k], d) ==> Needs(tasks[j], d)
  }

  lemma LeadsContiguous(tasks: seq<Task>, d: Path)
    requires InOrder(tasks) && LeadsAt(tasks, d)
    ensures ContiguousAt(TargetsOf(tasks), d)
  {
    hide Needs, TargetsOf, Target, Chain, Targets, InOrder;
    TargetsProper(tasks) by { OrderedProper(tasks); }
    var targets := TargetsOf(tasks);
    forall i, j, k | 0 <= i < j < k < |targets| && d in Chain(targets[i]) && d in Chain(targets[k])
      ensures d in Chain(targets[j])
    {
      BetweenNeeds(tasks, i, j, k, d);
    }
  }

  lemma ContiguousLeads(tasks: seq<Task>, d: Path)
    requires InOrder(tasks) && ContiguousAt(TargetsOf(tasks), d)
    ensures LeadsAt(tasks, d)
  {
    hide Needs, TargetsOf, Target, Chain, Targets, InOrder;
    TargetsProper(tasks) by { OrderedProper(tasks); }
    var targets := TargetsOf(tasks);
    forall i, j, k | 0 <= i < j < k < |tasks| && tasks[i] == DirTask(d) && Needs(tasks[k], d) ensures Needs(tasks[j], d) {
      DirNeedsItself(tasks[i], tasks[k]);
      assert d in Chain(targets[i]) && d in Chain(targets[k]);
    }
  }

  lemma OrderedProper(tasks: seq<Task>)
    requires InOrder(tasks)
    ensures forall t :: t in tasks ==> ProperTask(t)
  {
  }

  /** On sorted tasks the walk enters `d` at most once, exactly when a task for `d` is followed at once by what is below. */
  lemma EnteredOnceIff(tasks: seq<Task>, d: Path)
    requires InOrder(tasks)
    ensures multiset(DirsWalked(TargetsOf(tasks)))[d] <= 1 <==> LeadsAt(tasks, d)
  {
    hide TargetsOf, DirsWalked, Targets, InOrder, ContiguousAt, LeadsAt;
    TargetsProper(tasks) by { OrderedProper(tasks); }
    OnceIffContiguous(TargetsOf(tasks), d);
    if LeadsAt(tasks, d) {
      LeadsContiguous(tasks, d);
    }
    if ContiguousAt(TargetsOf(tasks), d) {
      ContiguousLeads(tasks, d);
    }
  }

  /**
   Sorting alone does not keep the builder from opening a directory twice: it does not exactly when
   each directory that has a task of its own is followed at once by everything below it.
   */
  lemma OpensOnceIff(tasks: seq<Task>)
    requires InOrder(tasks)
    ensures Distinct(DirsWalked(TargetsOf(tasks))) <==> DirTasksLead(tasks)
  {
    hide Needs, Distinct, DirsWalked, TargetsOf, InOrder, LeadsAt, DirTasksLead;
    CountsDistinct(DirsWalked(TargetsOf(tasks)));
    forall d ensures multiset(DirsWalked(TargetsOf(tasks)))[d] <= 1 <==> LeadsAt(tasks, d) {
      EnteredOnceIff(tasks, d);
    }
    LeadEverywhere(tasks);
  }

  lemma LeadEverywhere(tasks: seq<Task>)
    ensures DirTasksLead(tasks) <==> forall d :: LeadsAt(tasks, d)
  {
    hide Needs;
    if forall d :: LeadsAt(tasks, d) {
      forall i, j, k | 0 <= i < j < k < |tasks| && tasks[i].DirTask? && Needs(tasks[k], tasks[i].path)
        ensures Needs(tasks[j], tasks[i].path)
      {
        assert LeadsAt(tasks, tasks[i].path);
      }
    }
  }

  lemma DirNeedsItself(t: Task, u: Task)
    requires t.DirTask? && Needs(u, t.path)
    ensures Needs(t, t.path)
  {
  }

  const A: Path := [97]
  const A_B: Path := [97, 45, 98]
  const A_C: Path := [97, 47, 99]

  /** The directory `a`, the file `a-b`, the file `a/c`. */
  function DirAndNeighbour(): seq<Task> { [DirTask(A), FileTask(A_B), FileTask(A_C)] }

  /** Sorted this way, `a` is opened, left and opened again. */
  lemma SortedTasksMayReopen()
    ensures InOrder(DirAndNeighbour()) && !Distinct(DirsWalked(TargetsOf(DirAndNeighbour())))
  {
    hide DirsWalked, TargetsOf, Distinct;
    NeighboursOrdered();
    NeighbourBetween();
    OpensOnceIff(DirAndNeighbour());
  }

  lemma NeighboursOrdered()
    ensures InOrder(DirAndNeighbour())
  {
    assert Less(A, A_B) && Less(A, A_C);
    assert A_B[1..] == [45, 98] && A_C[1..] == [47, 99];
    assert Less(A_B, A_C);
  }

  lemma NeighbourBetween()
    ensures Needs(FileTask(A_C), A) && !Needs(FileTask(A_B), A)
    ensures !DirTasksLead(DirAndNeighbour())
  {
    assert A + [SLASH] == A_C[..2] && (A + [SLASH])[1] != A_B[1];
    var tasks := DirAndNeighbour();
    assert Needs(tasks[2], A) && !Needs(tasks[1], A) && tasks[0].path == A;
  }

  /** Without directory tasks, as in the streaming builder, no directory is opened twice. */
  lemma FilesOnlyOpenOnce(tasks: seq<Task>)
    requires InOrder(tasks) && forall t :: t in tasks ==> !t.DirTask?
    ensures Distinct(DirsWalked(TargetsOf(tasks)))
  {
    hide Distinct, DirsWalked, InOrder;
    OpensOnceIff(tasks);
  }

  /**
   The delta sent for a file, applied to any base, yields the new contents exactly when the window
   size is within the decoder's limit or the text fits one window.
   */
  lemma DeltaCarriesText(s: Settings, src: Applier.Source, contents: seq<byte>)
    requires Faithful(s.codecs) && |contents| < MAX_SLICE_LEN
    ensures var r := Applier.Run(s.codecs, src, StreamParser.START, DeltaOf(s, contents));
      && (r.err == None <==> s.windowSize <= DELTA_WINDOW_MAX || |contents| <= DELTA_WINDOW_MAX)
      && (r.err == None ==> r.output == contents)
  {
    hide Faithful, EncodedStream, Pieces, Applier.Run;
    FulltextRoundTrip(s.codecs, src, s.version, s.level, contents, s.windowSize, DeltaOf(s, contents));
  }
}
