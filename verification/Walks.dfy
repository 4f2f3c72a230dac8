/** Which directories a walk over a list of target directories opens, and when it opens none twice. */
module Walks {
  import opened Paths
  import opened DirChain
  import opened TreeEditor
  import opened Drives

  function Previous(targets: seq<Path>): Path {
    if |targets| < 2 then [] else targets[|targets| - 2]
  }

  /** The directories entered when walking from the root to each of the targets in turn. */
  function DirsWalked(targets: seq<Path>): seq<Path> {
    if targets == [] then []
    else DirsWalked(targets[..|targets| - 1]) + Walk(Previous(targets), targets[|targets| - 1])
  }

  ghost predicate Targets(targets: seq<Path>) {
    forall t :: t in targets ==> t == [] || Relative(t)
  }

  // ----- one walk

  lemma {:induction false} CommonAtLeast(a: seq<Path>, b: seq<Path>, c: seq<Path>)
    requires c <= a && c <= b
    ensures CommonLen(a, b) >= |c|
  {
    if c != [] {
      assert c[1..] <= a[1..] && c[1..] <= b[1..];
      CommonAtLeast(a[1..], b[1..], c[1..]);
    }
  }

  lemma NotLater(paths: seq<Path>, j: nat, n: nat)
    requires j < n <= |paths| && Distinct(paths)
    ensures paths[j] !in paths[n..]
  {
  }

  lemma ChainEndsWith(d: Path, b: Path)
    requires Chain(d) != [] && Chain(d) <= Chain(b)
    ensures Chain(b)[|Chain(d)| - 1] == d
  {
    assert Chain(d)[|Chain(d)| - 1] == d;
  }

  lemma OnlyInSecond(a: seq<Path>, b: seq<Path>, n: nat, d: Path)
    requires n <= |a| && n <= |b| && a[..n] == b[..n] && d in b && d !in a
    ensures d in b[n..]
  {
    assert d !in a[..n];
    assert b == b[..n] + b[n..];
  }

  lemma DistinctSuffix(paths: seq<Path>, n: nat)
    requires n <= |paths| && Distinct(paths)
    ensures Distinct(paths[n..])
  {
  }

  /** A walk enters exactly the directories above the target that are not open already, each once. */
  lemma WalkEnters(a: Path, b: Path)
    requires (a == [] || Relative(a)) && (b == [] || Relative(b))
    ensures forall d :: d in Walk(a, b) <==> d in Chain(b) && d !in Chain(a)
    ensures Distinct(Walk(a, b))
  {
    hide Chain, Relative, CommonLen, Distinct;
    var n := CommonLen(Chain(a), Chain(b));
    ChainDistinctly(b);
    DistinctSuffix(Chain(b), n);
    forall d | d in Chain(b) ensures d in Walk(a, b) <==> d !in Chain(a) {
      if d in Chain(a) {
        SharedChain(a, b, d);
        ChainEndsWith(d, b);
        CommonAtLeast(Chain(a), Chain(b), Chain(d));
        NotLater(Chain(b), |Chain(d)| - 1, n);
      } else {
        OnlyInSecond(Chain(a), Chain(b), n, d);
      }
    }
  }

  lemma ChainDistinctly(dir: Path)
    ensures Distinct(Chain(dir))
  {
    ChainDistinct(dir);
  }

  lemma DistinctAppend(a: seq<Path>, b: seq<Path>)
    ensures Distinct(a + b) <==> Distinct(a) && Distinct(b) && forall d :: d in b ==> d !in a
  {
    var s := a + b;
    assert forall i :: 0 <= i < |a| ==> s[i] == a[i];
    assert forall j :: 0 <= j < |b| ==> s[|a| + j] == b[j];
    if Distinct(s) {
      forall d | d in b ensures d !in a {
        var j :| 0 <= j < |b| && b[j] == d;
        assert s[|a| + j] == d;
      }
      forall i, j | 0 <= i < j < |b| ensures b[i] != b[j] {
        assert s[|a| + i] != s[|a| + j];
      }
    }
    if Distinct(a) && Distinct(b) && forall d :: d in b ==> d !in a {
      forall i, j | 0 <= i < j < |s| ensures s[i] != s[j] {
        if i < |a| && j >= |a| {
          assert s[j] == b[j - |a|] && b[j - |a|] in b && s[i] in a;
        } else if i >= |a| {
          assert s[i] == b[i - |a|] && s[j] == b[j - |a|];
        }
      }
    }
  }

  // ----- many walks

  lemma PreviousIs(targets: seq<Path>)
    requires Targets(targets)
    ensures Previous(targets) == [] || Relative(Previous(targets))
    ensures |targets| >= 2 ==> Previous(targets) == targets[..|targets| - 1][|targets| - 2]
    ensures |targets| < 2 ==> Chain(Previous(targets)) == []
  {
    if |targets| >= 2 {
      assert targets[|targets| - 2] in targets;
    }
  }

  /** The directories entered are those above some target. */
  lemma {:induction false} WalkedCovers(targets: seq<Path>, d: Path)
    requires Targets(targets)
    ensures d in DirsWalked(targets) <==> exists t :: t in targets && d in Chain(t)
    decreases |targets|
  {
    hide Chain, Relative, Walk, Targets, Previous;
    if targets != [] {
      var before, last := targets[..|targets| - 1], targets[|targets| - 1];
      assert targets == before + [last] && last in targets && forall t :: t in before ==> t in targets;
      PreviousIs(targets);
      TargetsSplit(before, last);
      WalkedCovers(before, d);
      WalkEnters(Previous(targets), last);
      if d in Chain(last) && d in Chain(Previous(targets)) {
        PreviousEarlier(targets);
      }
    }
  }

  lemma TargetsSplit(before: seq<Path>, last: Path)
    ensures Targets(before + [last]) <==> Targets(before) && (last == [] || Relative(last))
  {
    hide Relative;
    assert last in before + [last] && forall t :: t in before ==> t in before + [last];
  }

  lemma PreviousEarlier(targets: seq<Path>)
    requires targets != [] && Chain(Previous(targets)) != []
    ensures Previous(targets) in targets[..|targets| - 1]
  {
    if |targets| >= 2 {
      assert targets[..|targets| - 1][|targets| - 2] == Previous(targets);
    }
  }

  /** Once left, the directory is not needed again. */
  ghost predicate ContiguousAt(targets: seq<Path>, d: Path) {
    forall i, j, k :: 0 <= i < j < k < |targets| && d in Chain(targets[i]) && d in Chain(targets[k]) ==> d in Chain(targets[j])
  }

  /** How often a directory is entered: once at most, exactly when the targets under it are neighbours. */
  lemma {:induction false} OnceIffContiguous(targets: seq<Path>, d: Path)
    requires Targets(targets)
    ensures multiset(DirsWalked(targets))[d] <= 1 <==> ContiguousAt(targets, d)
    decreases |targets|
  {
    hide Chain, Relative, Walk, ContiguousAt, Distinct;
    if targets == [] {
      NoneContiguous(d);
    } else {
      var before, last := targets[..|targets| - 1], targets[|targets| - 1];
      assert last in targets && forall t :: t in before ==> t in targets;
      OnceIffContiguous(before, d);
      PreviousIs(targets);
      WalkEnters(Previous(targets), last);
      var walk := Walk(Previous(targets), last);
      CountOf(walk, d);
      WalkedCovers(before, d);
      assert multiset(DirsWalked(targets)) == multiset(DirsWalked(before)) + multiset(walk);
      if d in walk {
        EnteredLast(targets, d);
      } else {
        NotEnteredLast(targets, d);
      }
    }
  }

  lemma NoneContiguous(d: Path)
    ensures ContiguousAt([], d)
  {
  }

  lemma CountOf(paths: seq<Path>, d: Path)
    requires Distinct(paths)
    ensures multiset(paths)[d] == if d in paths then 1 else 0
  {
    if d in paths {
      var i :| 0 <= i < |paths| && paths[i] == d;
      var a, b := paths[..i], paths[i + 1..];
      assert paths == a + [d] + b;
      assert d !in a && d !in b;
    }
  }

  /** A directory entered for the last target, which was not open: no earlier target may be under it. */
  lemma EnteredLast(targets: seq<Path>, d: Path)
    requires targets != [] && d in Chain(targets[|targets| - 1]) && d !in Chain(Previous(targets))
    ensures ContiguousAt(targets, d) ==> forall t :: t in targets[..|targets| - 1] ==> d !in Chain(t)
    ensures (forall t :: t in targets[..|targets| - 1] ==> d !in Chain(t)) ==> ContiguousAt(targets, d)
  {
    hide Chain;
    var n := |targets| - 1;
    var before := targets[..n];
    assert forall i :: 0 <= i < n ==> before[i] == targets[i];
    if exists t :: t in before && d in Chain(t) {
      var t :| t in before && d in Chain(t);
      var i :| 0 <= i < n && before[i] == t;
      assert n >= 2 ==> Previous(targets) == targets[n - 1];
      assert d in Chain(targets[i]) && i < n - 1;
    } else {
      forall i | 0 <= i < n ensures d !in Chain(targets[i]) {
        assert before[i] in before;
      }
    }
  }

  /** A last target under nothing new does not change where its directories are needed. */
  lemma NotEnteredLast(targets: seq<Path>, d: Path)
    requires targets != [] && (d in Chain(targets[|targets| - 1]) ==> d in Chain(Previous(targets)))
    requires |targets| < 2 ==> Chain(Previous(targets)) == []
    ensures ContiguousAt(targets, d) <==> ContiguousAt(targets[..|targets| - 1], d)
  {
    hide Chain;
    var n := |targets| - 1;
    var before := targets[..n];
    assert forall i :: 0 <= i < n ==> before[i] == targets[i];
    if ContiguousAt(before, d) {
      forall i, j, k | 0 <= i < j < k <= n && d in Chain(targets[i]) && d in Chain(targets[k])
        ensures d in Chain(targets[j])
      {
        if k == n {
          assert d in Chain(before[n - 1]);
        }
      }
    }
  }

  lemma CountsDistinct(paths: seq<Path>)
    ensures Distinct(paths) <==> forall d :: multiset(paths)[d] <= 1
  {
    if Distinct(paths) {
      forall d ensures multiset(paths)[d] <= 1 { CountOf(paths, d); }
    } else {
      var i, j :| 0 <= i < j < |paths| && paths[i] == paths[j];
      var a, b := paths[..j], paths[j..];
      assert paths == a + b && a[i] in multiset(a) && b[0] in multiset(b);
      assert multiset(paths)[paths[i]] >= 2;
    }
  }
}
