/** What a streaming commit should make of a base tree, and why walking sorted paths achieves it. */
module CommitMeaning {
  import opened Bytes
  import opened Paths
  import opened Order
  import opened DirChain
  import opened TreeEditor
  import opened Drives
  import opened Walks
  import opened RoundTrip
  import opened FileDelta

  /** A file to be written: whether it exists in the base, and the runs of bytes its reader has to give. */
  datatype StreamFile = StreamFile(path: Path, present: bool, runs: seq<seq<byte>>)

  // ----- the intended tree

  ghost predicate IsPut(files: seq<StreamFile>, p: Path) {
    exists f :: f in files && f.path == p
  }

  /** Every directory some file lies under. */
  ghost function Ancestors(files: seq<StreamFile>): set<Path> {
    set f, d | f in files && d in Chain(ParentDir(f.path)) :: d
  }

  /** The properties of the file the base has at `p`, if it has one. */
  function KeptProps(base: Tree, p: Path): Props {
    if p in base && base[p].File? then base[p].props else map[]
  }

  /** `base` with the files written and `dirs` made directories where they were missing; properties stay. */
  ghost predicate Holds(base: Tree, files: seq<StreamFile>, dirs: set<Path>, tree: Tree) {
    && (forall p :: p in tree <==> p in base || IsPut(files, p) || p in dirs)
    && (forall f :: f in files ==> f.path in tree && tree[f.path] == File(Flatten(f.runs), KeptProps(base, f.path)))
    && (forall p :: p in tree && !IsPut(files, p) ==> tree[p] == if p in base then base[p] else Dir(map[]))
  }

  /** The base tree with each file set to what its reader delivered and missing ancestors added. */
  ghost predicate IsResult(base: Tree, files: seq<StreamFile>, tree: Tree) {
    Holds(base, files, Ancestors(files), tree)
  }

  /** No file is to be written where another one needs a directory. */
  ghost predicate NoFileAsDirectory(files: seq<StreamFile>) {
    forall f, g :: f in files && g in files ==> !IsUnder(f.path, g.path)
  }

  /** No read into a buffer of `size` bytes returns more than a window may hold. */
  ghost predicate ReadsFit(files: seq<StreamFile>, size: nat)
    requires size > 0
  {
    forall f :: f in files ==> AllFit(Delivered(f.runs, size))
  }

  ghost predicate Good(files: seq<StreamFile>, size: nat)
    requires size > 0
  {
    NoFileAsDirectory(files) && ReadsFit(files, size)
  }

  // ----- what the commit has established before it sends anything

  predicate SortedByPath(files: seq<StreamFile>) {
    forall i, j :: 0 <= i < j < |files| ==> Less(files[i].path, files[j].path)
  }

  /** The existence flags agree with the base, and no path is a directory there. */
  ghost predicate FilesMatch(base: Tree, files: seq<StreamFile>) {
    forall f :: f in files ==>
      && Relative(f.path)
      && (if f.present then f.path in base && base[f.path].File? else f.path !in base)
  }

  /** Every directory needed is planned: opened when the base has it, added when it has nothing. */
  ghost predicate PlansMatch(base: Tree, files: seq<StreamFile>, plans: map<Path, DirPlan>) {
    forall d :: d in Ancestors(files) ==>
      && d in plans
      && (if plans[d].PlanOpen? then d in base && base[d].Dir? else plans[d] == PlanAdd(None) && d !in base)
  }

  // ----- entering directories

  function Elems(paths: seq<Path>): set<Path> {
    set d | d in paths
  }

  lemma ElemsSnoc(dirs: set<Path>, before: seq<Path>, d: Path)
    ensures dirs + Elems(before + [d]) == dirs + Elems(before) + {d}
    ensures Elems([]) == {}
  {
  }

  /** These directories are needed and neither written as files nor made before. */
  ghost predicate MayAdd(files: seq<StreamFile>, done: seq<StreamFile>, dirs: set<Path>, entered: seq<Path>) {
    Distinct(entered) && forall d :: d in entered ==> d in Ancestors(files) && !IsPut(done, d) && d !in dirs
  }

  lemma MayAddSnoc(files: seq<StreamFile>, done: seq<StreamFile>, dirs: set<Path>, before: seq<Path>, d: Path)
    requires MayAdd(files, done, dirs, before + [d])
    ensures MayAdd(files, done, dirs, before)
    ensures d in Ancestors(files) && !IsPut(done, d) && d !in dirs + Elems(before)
  {
    hide Ancestors, IsPut;
    var entered := before + [d];
    assert forall k :: 0 <= k < |before| ==> entered[k] == before[k];
    assert entered[|before|] == d && d in entered;
    forall e | e in before ensures e in entered { }
  }

  lemma {:induction false} EnterAllAdds(base: Tree, files: seq<StreamFile>, done: seq<StreamFile>, plans: map<Path, DirPlan>,
                                        dirs: set<Path>, x: Content, entered: seq<Path>) returns (y: Content)
    requires PlansMatch(base, files, plans) && Holds(base, done, dirs, x.tree)
    requires MayAdd(files, done, dirs, entered)
    ensures forall d :: d in entered ==> d in plans
    ensures EnterAll(plans, Some(x), entered) == Some(y) && y.delta == x.delta
    ensures Holds(base, done, dirs + Elems(entered), y.tree)
    decreases |entered|
  {
    hide Holds, MayAdd, Elems, Enter, PlansMatch, Ancestors, IsPut;
    if entered == [] {
      ElemsSnoc(dirs, [], []);
      assert dirs + {} == dirs;
      y := x;
    } else {
      var before, d := entered[..|entered| - 1], entered[|entered| - 1];
      assert entered == before + [d];
      MayAddSnoc(files, done, dirs, before, d);
      var x' := EnterAllAdds(base, files, done, plans, dirs, x, before);
      ElemsSnoc(dirs, before, d);
      y := EnterAdds(base, files, done, plans, dirs + Elems(before), x', d);
    }
  }

  lemma EnterAdds(base: Tree, files: seq<StreamFile>, done: seq<StreamFile>, plans: map<Path, DirPlan>,
                  dirs: set<Path>, x: Content, d: Path) returns (y: Content)
    requires PlansMatch(base, files, plans) && Holds(base, done, dirs, x.tree)
    requires d in Ancestors(files) && !IsPut(done, d) && d !in dirs
    ensures d in plans && Enter(plans, Some(x), d) == Some(y) && y.delta == x.delta
    ensures Holds(base, done, dirs + {d}, y.tree)
  {
    hide Ancestors;
    y := if plans[d].PlanOpen? then x else x.(tree := x.tree[d := Dir(map[])]);
    if plans[d].PlanOpen? {
      assert d in x.tree && x.tree[d] == base[d];
    } else {
      assert d !in x.tree;
    }
    HoldsWithDir(base, done, dirs, x.tree, d, y.tree);
  }

  lemma HoldsWithDir(base: Tree, done: seq<StreamFile>, dirs: set<Path>, tree: Tree, d: Path, tree': Tree)
    requires Holds(base, done, dirs, tree) && !IsPut(done, d)
    requires if d in base then tree' == tree else tree' == tree[d := Dir(map[])]
    ensures Holds(base, done, dirs + {d}, tree')
  {
    forall f | f in done ensures f.path in tree' && tree'[f.path] == File(Flatten(f.runs), KeptProps(base, f.path)) {
      assert IsPut(done, f.path);
    }
  }

  /** Planned, and copied from nowhere. */
  predicate PlainlyPlanned(plans: map<Path, DirPlan>, entered: seq<Path>) {
    forall e :: e in entered ==> e in plans && (plans[e].PlanAdd? ==> plans[e].copyFrom == None)
  }

  /** Adding a directory where the tree already has something is refused. */
  lemma {:induction false} EnterAllRefused(plans: map<Path, DirPlan>, x: Option<Content>, entered: seq<Path>, d: Path)
    requires PlainlyPlanned(plans, entered)
    requires x.Some? ==> d in entered && plans[d].PlanAdd? && d in x.value.tree
    ensures EnterAll(plans, x, entered) == None
    decreases |entered|
  {
    if entered != [] {
      var before, last := entered[..|entered| - 1], entered[|entered| - 1];
      assert entered == before + [last];
      if x.None? || d in before {
        EnterAllRefused(plans, x, before, d);
      } else {
        EnterAllKeeps(plans, x, before);
      }
    }
  }

  lemma {:induction false} EnterAllKeeps(plans: map<Path, DirPlan>, x: Option<Content>, entered: seq<Path>)
    requires PlainlyPlanned(plans, entered) && x.Some?
    ensures var y := EnterAll(plans, x, entered); y.Some? ==> x.value.tree.Keys <= y.value.tree.Keys
    decreases |entered|
  {
    if entered != [] {
      EnterAllKeeps(plans, x, entered[..|entered| - 1]);
    }
  }

  // ----- walking from one file to the next

  /** The directory open before file `i` is reached. */
  function Before(files: seq<StreamFile>, i: nat): Path
    requires i <= |files|
  {
    if i == 0 then [] else ParentDir(files[i - 1].path)
  }

  /** The directories entered on the way to file `i`. */
  function Entered(files: seq<StreamFile>, i: nat): seq<Path>
    requires i < |files|
  {
    Walk(Before(files, i), ParentDir(files[i].path))
  }

  lemma InAncestors(files: seq<StreamFile>, d: Path)
    requires forall f :: f in files ==> Relative(f.path)
    ensures d in Ancestors(files) <==> exists f :: f in files && IsUnder(d, f.path)
  {
    if d in Ancestors(files) {
      var f :| f in files && d in Chain(ParentDir(f.path));
      InChain(d, f.path);
    }
    if exists f :: f in files && IsUnder(d, f.path) {
      var f :| f in files && IsUnder(d, f.path);
      InChain(d, f.path);
    }
  }

  /**
   Contiguity: a directory entered on the way to a file is above none of the files before it, since
   otherwise it would be above the last of them and still be open.
   */
  lemma EnteredIsNew(files: seq<StreamFile>, i: nat, d: Path)
    requires i < |files| && SortedByPath(files) && forall f :: f in files ==> Relative(f.path)
    requires d in Entered(files, i)
    ensures d !in Ancestors(files[..i])
  {
    hide Chain, Less, Entered, Ancestors, IsUnder, ParentDir, Relative;
    assert files[i] in files;
    EnteredAbove(files, i, d);
    if d in Ancestors(files[..i]) {
      assert forall f :: f in files[..i] ==> f in files;
      InAncestors(files[..i], d);
      var g :| g in files[..i] && IsUnder(d, g.path);
      LastIsUnder(files, i, g, d);
      var last := files[i - 1];
      assert last in files;
      InChain(d, last.path);
      InChain(d, files[i].path);
      EnteredIs(files, i);
    }
  }

  lemma LastIsUnder(files: seq<StreamFile>, i: nat, g: StreamFile, d: Path)
    requires i < |files| && SortedByPath(files)
    requires g in files[..i] && IsUnder(d, g.path) && IsUnder(d, files[i].path)
    ensures i > 0 && IsUnder(d, files[i - 1].path)
  {
    hide IsUnder, Less;
    var k :| 0 <= k < i && files[k] == g;
    UnderBetween(d, g.path, files[i - 1].path, files[i].path);
  }

  /** What is entered completes the ancestors of the files so far. */
  lemma AncestorsGrow(files: seq<StreamFile>, i: nat)
    requires i < |files|
    ensures Ancestors(files[..i + 1]) == Ancestors(files[..i]) + Elems(Entered(files, i))
  {
    hide Chain, ParentDir;
    var target := Chain(ParentDir(files[i].path));
    var open := Chain(Before(files, i));
    var n := CommonLen(open, target);
    assert files[..i + 1] == files[..i] + [files[i]];
    forall d | d in Ancestors(files[..i + 1])
      ensures d in Ancestors(files[..i]) || d in Entered(files, i)
    {
      var f :| f in files[..i + 1] && d in Chain(ParentDir(f.path));
      if f !in files[..i] {
        var k :| 0 <= k < |target| && target[k] == d;
        if k < n {
          assert d == target[..n][k] == open[..n][k];
          assert d in open;
          OpenIsAbove(files, i, d);
        } else {
          assert Entered(files, i)[k - n] == d;
        }
      }
    }
    forall d | d in Entered(files, i) ensures d in Ancestors(files[..i + 1]) {
      assert files[i] in files[..i + 1] && d in target;
    }
    forall d | d in Ancestors(files[..i]) ensures d in Ancestors(files[..i + 1]) {
      var f :| f in files[..i] && d in Chain(ParentDir(f.path));
      assert f in files[..i + 1];
    }
  }

  lemma OpenIsAbove(files: seq<StreamFile>, i: nat, d: Path)
    requires i <= |files| && d in Chain(Before(files, i))
    ensures d in Ancestors(files[..i])
  {
    if i > 0 {
      assert files[i - 1] in files[..i];
    }
  }

  // ----- one file at a time

  /** The content once the first `i` files are written: refused as soon as one of them does not go in. */
  ghost predicate Progress(base: Tree, files: seq<StreamFile>, size: nat, i: nat, x: Option<Content>)
    requires size > 0 && i <= |files|
  {
    if Good(files[..i], size) then x.Some? && x.value.delta == None && IsResult(base, files[..i], x.value.tree)
    else x == None
  }

  /** No file written before this one stands where this one needs a directory. */
  ghost predicate Clear(files: seq<StreamFile>, i: nat)
    requires i < |files|
  {
    forall f :: f in files[..i] ==> !IsUnder(f.path, files[i].path)
  }

  /** The content once the directories on the way to file `i` are entered. */
  ghost predicate Reached(base: Tree, files: seq<StreamFile>, size: nat, i: nat, x: Option<Content>)
    requires size > 0 && i < |files|
  {
    if Good(files[..i], size) && Clear(files, i) then
      x.Some? && x.value.delta == None && Holds(base, files[..i], Ancestors(files[..i + 1]), x.value.tree)
    else x == None
  }

  ghost predicate Planned(base: Tree, files: seq<StreamFile>, plans: map<Path, DirPlan>) {
    SortedByPath(files) && FilesMatch(base, files) && PlansMatch(base, files, plans)
  }

  /** A file is never above one sorted before it. */
  lemma NotAboveEarlier(files: seq<StreamFile>, i: nat, f: StreamFile)
    requires SortedByPath(files) && i < |files| && f in files[..i + 1]
    ensures !IsUnder(files[i].path, f.path)
    ensures f in files[..i] ==> f.path != files[i].path
  {
    var k :| 0 <= k <= i && files[k] == f;
    LessIrreflexive(f.path);
    if IsUnder(files[i].path, f.path) {
      UnderIsGreater(files[i].path, f.path);
      if k < i {
        LessTransitive(f.path, files[i].path, f.path);
      }
    }
  }

  lemma GoodGrows(files: seq<StreamFile>, size: nat, i: nat)
    requires size > 0 && i < |files| && SortedByPath(files)
    ensures Good(files[..i + 1], size)
       <==> Good(files[..i], size) && Clear(files, i) && AllFit(Delivered(files[i].runs, size))
  {
    hide Less, IsUnder, Delivered, AllFit;
    assert files[..i + 1] == files[..i] + [files[i]];
    forall f | f in files[..i + 1] ensures !IsUnder(files[i].path, f.path) {
      NotAboveEarlier(files, i, f);
    }
    assert files[i] in files[..i + 1];
    assert forall f :: f in files[..i] ==> f in files[..i + 1];
  }

  lemma EnteredAbove(files: seq<StreamFile>, i: nat, d: Path)
    requires i < |files| && Relative(files[i].path) && d in Entered(files, i)
    ensures IsUnder(d, files[i].path) && d in Ancestors(files)
  {
    InChain(d, files[i].path);
    assert d in Chain(ParentDir(files[i].path)) && files[i] in files;
  }

  /** What is entered: the directories above the file that are not above the file before it, each once. */
  lemma EnteredIs(files: seq<StreamFile>, i: nat)
    requires i < |files| && forall f :: f in files ==> Relative(f.path)
    ensures forall d :: d in Entered(files, i) <==> d in Chain(ParentDir(files[i].path)) && d !in Chain(Before(files, i))
    ensures Distinct(Entered(files, i))
  {
    hide Chain, Relative, ParentDir, Distinct, Walk;
    assert files[i] in files;
    ParentRelative(files[i].path);
    if i > 0 {
      assert files[i - 1] in files;
      ParentRelative(files[i - 1].path);
    }
    WalkEnters(Before(files, i), ParentDir(files[i].path));
  }

  lemma EnteredPlanned(base: Tree, files: seq<StreamFile>, plans: map<Path, DirPlan>, i: nat)
    requires i < |files| && Planned(base, files, plans)
    ensures PlainlyPlanned(plans, Entered(files, i))
  {
    hide Entered, Ancestors;
    forall d | d in Entered(files, i) ensures d in plans && (plans[d].PlanAdd? ==> plans[d].copyFrom == None) {
      assert files[i] in files;
      EnteredAbove(files, i, d);
    }
  }

  lemma EnteredMayAdd(base: Tree, files: seq<StreamFile>, plans: map<Path, DirPlan>, i: nat)
    requires i < |files| && Planned(base, files, plans) && Clear(files, i)
    ensures MayAdd(files, files[..i], Ancestors(files[..i]), Entered(files, i))
  {
    hide Entered, Ancestors, IsUnder, Less, PlansMatch, Distinct, Relative;
    EnteredIs(files, i);
    forall d | d in Entered(files, i)
      ensures d in Ancestors(files) && !IsPut(files[..i], d) && d !in Ancestors(files[..i])
    {
      assert files[i] in files;
      EnteredAbove(files, i, d);
      EnteredIsNew(files, i, d);
    }
  }

  /** A file written earlier where a directory is needed now is entered anew, since nothing open lies under it. */
  lemma FileInTheWay(files: seq<StreamFile>, i: nat, f: StreamFile)
    requires i < |files| && SortedByPath(files) && NoFileAsDirectory(files[..i])
    requires forall g :: g in files ==> Relative(g.path)
    requires f in files[..i] && IsUnder(f.path, files[i].path)
    ensures f.path in Entered(files, i)
  {
    hide Chain, Less, CommonLen, Relative, ParentDir, IsUnder;
    assert files[i] in files && i > 0;
    InChain(f.path, files[i].path);
    var last := files[i - 1];
    assert last in files && last in files[..i];
    InChain(f.path, last.path);
    EnteredIs(files, i);
  }

  lemma FileRefusesDirectory(base: Tree, files: seq<StreamFile>, plans: map<Path, DirPlan>, i: nat, x: Option<Content>, f: StreamFile)
    requires i < |files| && Planned(base, files, plans) && NoFileAsDirectory(files[..i])
    requires x.Some? ==> IsResult(base, files[..i], x.value.tree)
    requires f in files[..i] && IsUnder(f.path, files[i].path)
    requires PlainlyPlanned(plans, Entered(files, i))
    ensures EnterAll(plans, x, Entered(files, i)) == None
  {
    hide Entered, Ancestors, IsUnder, Less, NoFileAsDirectory, EnterAll;
    FileInTheWay(files, i, f);
    assert f in files && files[i] in files;
    EnteredAbove(files, i, f.path);
    EnterAllRefused(plans, x, Entered(files, i), f.path);
  }

  lemma DirsStep(base: Tree, files: seq<StreamFile>, size: nat, plans: map<Path, DirPlan>, i: nat, x: Option<Content>)
    requires size > 0 && i < |files| && Planned(base, files, plans) && Progress(base, files, size, i, x)
    ensures forall d :: d in Entered(files, i) ==> d in plans
    ensures Reached(base, files, size, i, EnterAll(plans, x, Entered(files, i)))
  {
    hide Entered, Ancestors, IsUnder, EnterAll, Holds, MayAdd, NoFileAsDirectory, ReadsFit, SortedByPath, FilesMatch, PlansMatch;
    EnteredPlanned(base, files, plans, i);
    if x == None {
      EnterAllRefused(plans, x, Entered(files, i), []);
    } else if !Clear(files, i) {
      var f :| f in files[..i] && IsUnder(f.path, files[i].path);
      FileRefusesDirectory(base, files, plans, i, x, f);
    } else {
      EnteredMayAdd(base, files, plans, i);
      var y := EnterAllAdds(base, files, files[..i], plans, Ancestors(files[..i]), x.value, Entered(files, i));
      AncestorsGrow(files, i);
    }
  }

  /** The content after writing one file: it must go where the base has a file, or where there is nothing. */
  function AfterFile(x: Option<Content>, f: StreamFile, size: nat): Option<Content>
    requires size > 0
  {
    if x.None? then None
    else if (if f.present then f.path in x.value.tree && x.value.tree[f.path].File? else f.path !in x.value.tree)
            && AllFit(Delivered(f.runs, size))
    then Some(x.value.(tree := x.value.tree[f.path := File(Flatten(f.runs), KeptProps(x.value.tree, f.path))], delta := None))
    else None
  }

  lemma FileStep(base: Tree, files: seq<StreamFile>, size: nat, plans: map<Path, DirPlan>, i: nat, x: Option<Content>)
    requires size > 0 && i < |files| && Planned(base, files, plans) && Reached(base, files, size, i, x)
    ensures Progress(base, files, size, i + 1, AfterFile(x, files[i], size))
  {
    hide Ancestors, IsUnder, Holds, NoFileAsDirectory, ReadsFit, SortedByPath, PlansMatch, Delivered, AllFit, Clear, Good;
    GoodGrows(files, size, i);
    if x.Some? {
      var f, tree := files[i], x.value.tree;
      assert f in files;
      FileIsNew(base, files, i, tree);
      if AllFit(Delivered(f.runs, size)) {
        HoldsWithFile(base, files, i, tree);
      }
    }
  }

  lemma FileIsNew(base: Tree, files: seq<StreamFile>, i: nat, tree: Tree)
    requires i < |files| && SortedByPath(files) && FilesMatch(base, files)
    requires Holds(base, files[..i], Ancestors(files[..i + 1]), tree)
    ensures var p := files[i].path;
      && !IsPut(files[..i], p) && p !in Ancestors(files[..i + 1])
      && (p in tree <==> p in base) && (p in base ==> tree[p] == base[p])
  {
    hide Ancestors, IsUnder, SortedByPath;
    var p := files[i].path;
    forall f | f in files[..i + 1] ensures !IsUnder(p, f.path) && (f in files[..i] ==> f.path != p) {
      NotAboveEarlier(files, i, f);
    }
    assert forall f :: f in files[..i] ==> f in files[..i + 1];
    assert forall f :: f in files[..i + 1] ==> f in files;
    InAncestors(files[..i + 1], p);
  }

  lemma PutSnoc(files: seq<StreamFile>, f: StreamFile, p: Path)
    ensures IsPut(files + [f], p) <==> IsPut(files, p) || p == f.path
  {
    if IsPut(files, p) {
      var g :| g in files && g.path == p;
      assert g in files + [f];
    }
    assert f in files + [f];
  }

  lemma HoldsWithFile(base: Tree, files: seq<StreamFile>, i: nat, tree: Tree)
    requires i < |files| && !IsPut(files[..i], files[i].path)
    requires Holds(base, files[..i], Ancestors(files[..i + 1]), tree)
    ensures IsResult(base, files[..i + 1], tree[files[i].path := File(Flatten(files[i].runs), KeptProps(base, files[i].path))])
  {
    hide Ancestors, IsPut, KeptProps, Flatten;
    var f := files[i];
    assert files[..i + 1] == files[..i] + [f];
    forall p ensures IsPut(files[..i + 1], p) <==> IsPut(files[..i], p) || p == f.path {
      PutSnoc(files[..i], f, p);
    }
    forall g | g in files[..i] ensures g.path != f.path {
      PutIs(files[..i], g);
    }
  }

  lemma PutIs(files: seq<StreamFile>, g: StreamFile)
    requires g in files
    ensures IsPut(files, g.path)
  {
  }
}
