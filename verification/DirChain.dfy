/** Parent directories, the chain of directories above a path, and the tokens of an editor drive. */
module DirChain {
  import opened Bytes
  import opened Paths
  import opened Order
  import Decimal

  type Path = seq<byte>
  type Token = seq<byte>

  /** One past the last slash; 0 when there is none. */
  function AfterLastSlash(p: Path): (i: nat)
    ensures i <= |p|
    ensures i > 0 ==> p[i - 1] == SLASH
    ensures forall k :: i <= k < |p| ==> p[k] != SLASH
  {
    if p == [] then 0 else if p[|p| - 1] == SLASH then |p| else AfterLastSlash(p[..|p| - 1])
  }

  function ParentDir(p: Path): (d: Path)
    ensures p != [] ==> |d| < |p|
    ensures d <= p
  {
    if AfterLastSlash(p) == 0 then [] else p[..AfterLastSlash(p) - 1]
  }

  /** `dir` and the directories above it, outermost first; nothing for the root. */
  function Chain(dir: Path): seq<Path>
    decreases |dir|
  {
    if dir == [] then [] else Chain(ParentDir(dir)) + [dir]
  }

  /** `p` lies in directory `d` or below it. */
  predicate IsUnder(d: Path, p: Path) {
    d != [] && d + [SLASH] <= p
  }

  // ----- facts about relative paths

  lemma LastSlashIs(p: Path, i: nat)
    requires i <= |p| && (i > 0 ==> p[i - 1] == SLASH)
    requires forall k :: i <= k < |p| ==> p[k] != SLASH
    ensures AfterLastSlash(p) == i
  {
  }

  lemma ParentIs(d: Path, name: seq<byte>)
    requires SLASH !in name
    ensures ParentDir(d + [SLASH] + name) == d
  {
    var p := d + [SLASH] + name;
    forall k | |d| + 1 <= k < |p| ensures p[k] != SLASH {
      assert p[k] == name[k - |d| - 1] && name[k - |d| - 1] in name;
    }
    LastSlashIs(p, |d| + 1);
    assert p[..|d|] == d;
  }

  lemma ParentRelative(p: Path)
    requires Relative(p)
    ensures ParentDir(p) == [] || (Relative(ParentDir(p)) && IsUnder(ParentDir(p), p))
  {
    var i := AfterLastSlash(p);
    if i > 0 {
      var d := ParentDir(p);
      assert p[0] == d[0] && d[|d| - 1] == p[i - 2];
      assert forall k :: 0 <= k < |d| ==> d[k] == p[k];
      assert d + [SLASH] == p[..i];
    }
  }

  /** The chain of a relative path goes down one directory at a time. */
  lemma ChainShape(dir: Path)
    requires dir == [] || Relative(dir)
    ensures forall k :: 0 <= k < |Chain(dir)| ==>
      && Relative(Chain(dir)[k])
      && ParentDir(Chain(dir)[k]) == (if k == 0 then [] else Chain(dir)[k - 1])
      && Chain(Chain(dir)[k]) == Chain(dir)[..k + 1]
  {
    forall k | 0 <= k < |Chain(dir)|
      ensures Relative(Chain(dir)[k])
      ensures ParentDir(Chain(dir)[k]) == (if k == 0 then [] else Chain(dir)[k - 1])
      ensures Chain(Chain(dir)[k]) == Chain(dir)[..k + 1]
    {
      ChainShapeAt(dir, k);
    }
  }

  lemma {:induction false} ChainShapeAt(dir: Path, k: nat)
    requires (dir == [] || Relative(dir)) && k < |Chain(dir)|
    ensures Relative(Chain(dir)[k])
    ensures ParentDir(Chain(dir)[k]) == (if k == 0 then [] else Chain(dir)[k - 1])
    ensures Chain(Chain(dir)[k]) == Chain(dir)[..k + 1]
    decreases |dir|
  {
    hide *;
    ChainUnfolds(dir);
    ChainAt(dir, k);
    if k < |Chain(ParentDir(dir))| {
      ParentRelative(dir);
      ChainShapeAt(ParentDir(dir), k);
    }
  }

  lemma ChainUnfolds(dir: Path)
    ensures dir == [] ==> Chain(dir) == []
    ensures dir != [] ==> |ParentDir(dir)| < |dir| && Chain(dir) == Chain(ParentDir(dir)) + [dir]
  {
  }

  lemma ChainAt(dir: Path, k: nat)
    requires dir != [] && k < |Chain(dir)|
    ensures |Chain(dir)| == |Chain(ParentDir(dir))| + 1
    ensures k < |Chain(ParentDir(dir))| ==>
      && Chain(dir)[k] == Chain(ParentDir(dir))[k]
      && Chain(dir)[..k + 1] == Chain(ParentDir(dir))[..k + 1]
      && (k > 0 ==> Chain(dir)[k - 1] == Chain(ParentDir(dir))[k - 1])
    ensures k == |Chain(ParentDir(dir))| ==> Chain(dir)[k] == dir && Chain(dir)[..k + 1] == Chain(dir)
    ensures k == |Chain(ParentDir(dir))| ==> ParentDir(dir) == if k == 0 then [] else Chain(dir)[k - 1]
  {
    hide Chain, ParentDir;
    ChainUnfolds(dir);
    ChainUnfolds(ParentDir(dir));
  }

  /** The directories in the chain above a path are exactly those it lies under. */
  lemma {:induction false} InChain(d: Path, p: Path)
    requires Relative(p)
    ensures d in Chain(ParentDir(p)) <==> IsUnder(d, p)
    decreases |p|
  {
    ParentRelative(p);
    var up := ParentDir(p);
    assert IsUnder(d, p) ==> p[|d|] == SLASH;
    if up != [] {
      InChain(d, up);
      if IsUnder(d, p) && d != up {
        UnderParent(d, p);
      }
      if IsUnder(d, up) {
        assert d + [SLASH] <= up <= p;
      }
    }
  }

  lemma UnderParent(d: Path, p: Path)
    requires Relative(p) && IsUnder(d, p) && d != ParentDir(p)
    ensures IsUnder(d, ParentDir(p))
  {
    var i := AfterLastSlash(p);
    assert p[|d|] == SLASH;
    assert |d| < i;
    assert d == p[..|d|] && ParentDir(p) == p[..i - 1];
    assert d + [SLASH] <= p[..i - 1];
  }

  /** A path below another comes later in the order. */
  lemma UnderIsGreater(d: Path, p: Path)
    requires IsUnder(d, p)
    ensures Less(d, p)
  {
    assert d < p;
    PrefixLess(d, p);
  }

  /** Sorted paths under one directory are neighbours: what lies between them is under it too. */
  lemma UnderBetween(d: Path, x: Path, y: Path, z: Path)
    requires IsUnder(d, x) && IsUnder(d, z) && LessEq(x, y) && LessEq(y, z)
    ensures IsUnder(d, y)
  {
    PrefixBetween(d + [SLASH], x, y, z);
  }

  /** Chains that share a directory share everything above it. */
  lemma SharedChain(a: Path, b: Path, d: Path)
    requires (a == [] || Relative(a)) && (b == [] || Relative(b))
    requires d in Chain(a) && d in Chain(b)
    ensures |Chain(d)| > 0 && Chain(d) <= Chain(a) && Chain(d) <= Chain(b)
  {
    hide *;
    var i :| 0 <= i < |Chain(a)| && Chain(a)[i] == d;
    var j :| 0 <= j < |Chain(b)| && Chain(b)[j] == d;
    ChainShapeAt(a, i);
    ChainShapeAt(b, j);
  }

  lemma {:induction false} ChainDistinct(dir: Path)
    ensures forall i, j :: 0 <= i < j < |Chain(dir)| ==> Chain(dir)[i] != Chain(dir)[j]
    ensures forall d :: d in Chain(dir) ==> |d| <= |dir|
    decreases |dir|
  {
    if dir != [] {
      ChainDistinct(ParentDir(dir));
    }
  }

  /** What stands before the names in directory `d`. */
  function Lead(d: Path): seq<byte> {
    if d == [] then [] else d + [SLASH]
  }

  /** `rest` read part by part behind `current`, without its empty parts. */
  function Squeezed(current: Path, rest: seq<byte>): Path
    decreases |rest|
  {
    var i := NextSlash(rest);
    var next := if i == 0 then current else Lead(current) + rest[..i];
    if i == |rest| then next else Squeezed(next, rest[i + 1..])
  }

  /**
   The directory names from the root down, built up piece by piece. Empty parts are skipped, so the
   chain is that of the text without them: for a relative path, its own.
   */
  method DirPrefixes(dir: Path) returns (out: seq<Path>)
    ensures out == Chain(Squeezed([], dir))
    ensures dir == [] || Relative(dir) ==> out == Chain(dir)
  {
    hide *;
    SqueezedProper(dir);
    ChainUnfolds([]);
    if dir == [] {
      return [];
    }
    out := [];
    var current: Path := [];
    var rest, more := dir, true;
    while more
      invariant out == Chain(current)
      invariant Squeezed([], dir) == if more then Squeezed(current, rest) else current
      decreases more, |rest|
    {
      var i := NextSlash(rest);
      SqueezedUnfolds(current, rest);
      if rest[..i] != [] {
        var next := AppendPart(current, rest[..i]);
        PartOf(rest);
        ChainGrows(current, rest[..i], next);
        out := out + [next];
        current := next;
      }
      if i < |rest| {
        rest := rest[i + 1..];
      } else {
        more := false;
      }
    }
  }

  lemma SqueezedUnfolds(current: Path, rest: seq<byte>)
    ensures var i := NextSlash(rest);
      var next := if rest[..i] == [] then current else Lead(current) + rest[..i];
      Squeezed(current, rest) == if i == |rest| then next else Squeezed(next, rest[i + 1..])
  {
    hide NextSlash, Lead;
    assert |rest[..NextSlash(rest)]| == NextSlash(rest);
  }

  lemma SqueezedProper(dir: Path)
    ensures dir == [] || Relative(dir) ==> Squeezed([], dir) == dir
  {
    hide Relative;
    if Relative(dir) {
      Start(dir);
      SqueezedRelative(dir, [], dir);
    }
  }

  /** A relative path has no empty parts to leave out. */
  lemma {:induction false} SqueezedRelative(dir: Path, current: Path, rest: seq<byte>)
    requires Relative(dir) && dir == Lead(current) + rest && rest != [] && rest[0] != SLASH
    ensures Squeezed(current, rest) == dir
    decreases |rest|
  {
    hide Relative, Squeezed, NextSlash, Lead;
    var i := NextSlash(rest);
    var next := Lead(current) + rest[..i];
    PartOf(rest);
    FirstPart(rest);
    SqueezedUnfolds(current, rest);
    PartMoved(dir, current, rest, next);
    if i < |rest| {
      SqueezedRelative(dir, next, rest[i + 1..]);
    }
  }

  lemma FirstPart(rest: seq<byte>)
    requires rest != [] && rest[0] != SLASH
    ensures rest[..NextSlash(rest)] != []
  {
  }

  method AppendPart(current: Path, part: seq<byte>) returns (next: Path)
    ensures next == Lead(current) + part
  {
    next := current;
    if next != [] {
      next := next + [SLASH];
    }
    next := next + part;
  }

  lemma Start(dir: Path)
    requires Relative(dir)
    ensures dir != [] && dir[0] != SLASH && dir == Lead([]) + dir
  {
  }

  lemma LeadIs(d: Path, part: seq<byte>)
    ensures Lead(d) + part == if d == [] then part else d + [SLASH] + part
  {
  }

  lemma ChainGrows(before: Path, part: seq<byte>, current: Path)
    requires part != [] && SLASH !in part
    requires current == Lead(before) + part
    ensures Chain(current) == Chain(before) + [current]
  {
    LeadIs(before, part);
    if before == [] {
      forall k | 0 <= k < |part| ensures part[k] != SLASH { assert part[k] in part; }
      LastSlashIs(current, 0);
    } else {
      ParentIs(before, part);
    }
  }

  lemma PartOf(rest: seq<byte>)
    ensures SLASH !in rest[..NextSlash(rest)]
  {
    var part := rest[..NextSlash(rest)];
    assert forall k :: 0 <= k < |part| ==> part[k] == rest[k];
  }

  /** With the next part moved behind `before`, what is left starts the part after it. */
  lemma PartMoved(dir: Path, before: Path, rest: seq<byte>, current: Path)
    requires Relative(dir) && dir == Lead(before) + rest && rest != []
    requires current == Lead(before) + rest[..NextSlash(rest)] && rest[..NextSlash(rest)] != []
    ensures var i := NextSlash(rest);
      if i == |rest| then dir == current
      else dir == Lead(current) + rest[i + 1..] && rest[i + 1..] != [] && rest[i + 1] != SLASH
  {
    hide *;
    var i := NextSlash(rest);
    if i < |rest| {
      CutAtSlash(rest, i);
      MovedOn(dir, Lead(before), rest[..i], rest[i + 1..], current);
      NoDoubleSlash(dir, current, rest[i + 1..]);
      LeadIs(current, rest[i + 1..]);
    } else {
      assert rest[..i] == rest;
    }
  }

  lemma MovedOn(dir: Path, lead: seq<byte>, part: seq<byte>, after: seq<byte>, current: Path)
    requires dir == lead + (part + ([SLASH] + after)) && current == lead + part && part != []
    ensures dir == current + [SLASH] + after && current != []
  {
    Regroup(lead, part, [SLASH] + after);
    Regroup(current, [SLASH], after);
  }

  lemma CutAtSlash(rest: seq<byte>, i: nat)
    requires i < |rest| && rest[i] == SLASH
    ensures rest == rest[..i] + ([SLASH] + rest[i + 1..])
  {
  }

  lemma NoDoubleSlash(dir: Path, current: Path, rest: seq<byte>)
    requires Relative(dir) && dir == current + [SLASH] + rest
    ensures rest != [] && rest[0] != SLASH
  {
    assert dir[|current|] == SLASH && dir[|dir| - 1] != SLASH;
    assert |current| < |dir| - 1 && dir[|current| + 1] == rest[0];
  }

  function NextSlash(s: seq<byte>): (i: nat)
    ensures i <= |s| && (i < |s| ==> s[i] == SLASH)
    ensures forall k :: 0 <= k < i ==> s[k] != SLASH
  {
    if s == [] || s[0] == SLASH then 0 else 1 + NextSlash(s[1..])
  }

  // ----- tokens

  const ROOT_TOKEN: Token := [114]

  function DirToken(n: nat): Token { [100] + Decimal.Numeral(n) }

  function FileToken(n: nat): Token { [102] + Decimal.Numeral(n) }

  /** Tokens a generator that has given out `dirs` and `files` tokens may have produced. */
  ghost predicate Issued(t: Token, dirs: nat, files: nat) {
    || t == ROOT_TOKEN
    || (exists k :: 1 <= k <= dirs && t == DirToken(k))
    || (exists k :: 1 <= k <= files && t == FileToken(k))
  }

  /** Tokens are `r`, `d` and a number, `f` and a number; no two of them are the same. */
  lemma TokensDistinct(a: nat, b: nat)
    ensures ROOT_TOKEN == ['r' as int] && DirToken(a) == ['d' as int] + Decimal.Numeral(a) && FileToken(a) == ['f' as int] + Decimal.Numeral(a)
    ensures DirToken(a) == DirToken(b) ==> a == b
    ensures FileToken(a) == FileToken(b) ==> a == b
    ensures DirToken(a) != FileToken(b) && DirToken(a) != ROOT_TOKEN && FileToken(a) != ROOT_TOKEN
  {
    assert DirToken(a)[1..] == Decimal.Numeral(a) && FileToken(a)[1..] == Decimal.Numeral(a);
    assert DirToken(b)[1..] == Decimal.Numeral(b) && FileToken(b)[1..] == Decimal.Numeral(b);
    assert DirToken(a)[0] == 100 && FileToken(b)[0] == 102 && FileToken(a)[0] == 102;
    if DirToken(a) == DirToken(b) || FileToken(a) == FileToken(b) {
      Decimal.NumeralInjective(a, b);
    }
  }

  lemma NextDirTokenFresh(dirs: nat, files: nat)
    ensures !Issued(DirToken(dirs + 1), dirs, files)
  {
    forall k | true
      ensures k == dirs + 1 || k < 0 || DirToken(k) != DirToken(dirs + 1)
      ensures k < 0 || FileToken(k) != DirToken(dirs + 1)
    {
      if k >= 0 { TokensDistinct(k, dirs + 1); TokensDistinct(dirs + 1, k); }
    }
    TokensDistinct(dirs + 1, 0);
  }

  lemma NextFileTokenFresh(dirs: nat, files: nat)
    ensures !Issued(FileToken(files + 1), dirs, files)
  {
    forall k | true
      ensures k == files + 1 || k < 0 || FileToken(k) != FileToken(files + 1)
      ensures k < 0 || DirToken(k) != FileToken(files + 1)
    {
      if k >= 0 { TokensDistinct(k, files + 1); }
    }
    TokensDistinct(files + 1, 0);
  }

  class TokenGen {
    var nextDir: nat
    var nextFile: nat

    constructor ()
      ensures nextDir == 0 && nextFile == 0
    {
      nextDir, nextFile := 0, 0;
    }

    method Dir() returns (t: Token)
      modifies this
      ensures nextDir == old(nextDir) + 1 && nextFile == old(nextFile) && t == DirToken(nextDir)
    {
      nextDir := nextDir + 1;
      t := [100] + Decimal.Numeral(nextDir);
    }

    method File() returns (t: Token)
      modifies this
      ensures nextFile == old(nextFile) + 1 && nextDir == old(nextDir) && t == FileToken(nextFile)
    {
      nextFile := nextFile + 1;
      t := [102] + Decimal.Numeral(nextFile);
    }
  }
}
