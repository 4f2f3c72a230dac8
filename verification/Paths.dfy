/** Repository-relative paths and their canonical form (the non-Windows build). */
module Paths {
  import opened Bytes
  import Utf8

  const SLASH: byte := 47
  const BACKSLASH: byte := 92
  const DOT: byte := 46
  const NUL: byte := 0
  const DOTDOT: seq<byte> := [46, 46]

  datatype PathError = EmptyPath | UnsafePath

  predicate IsSep(b: byte) { b == SLASH || b == BACKSLASH }

  // ----- segments

  /** Index of the first separator; |s| when there is none. */
  function FirstSep(s: seq<byte>): (i: nat)
    ensures i <= |s|
    ensures forall k :: 0 <= k < i ==> !IsSep(s[k])
    ensures i < |s| ==> IsSep(s[i])
  {
    if s == [] || IsSep(s[0]) then 0 else 1 + FirstSep(s[1..])
  }

  /** `str::split` on either separator. */
  function Split(s: seq<byte>): (r: seq<seq<byte>>)
    ensures r != []
    decreases |s|
  {
    var i := FirstSep(s);
    if i == |s| then [s] else [s[..i]] + Split(s[i + 1..])
  }

  predicate IsKept(seg: seq<byte>) { seg != [] && seg != [DOT] }

  function Kept(segs: seq<seq<byte>>): (r: seq<seq<byte>>)
    ensures forall k :: 0 <= k < |r| ==> IsKept(r[k])
  {
    if segs == [] then []
    else (if IsKept(segs[0]) then [segs[0]] else []) + Kept(segs[1..])
  }

  /** The segments that count: neither empty nor ".". */
  function Segments(s: seq<byte>): seq<seq<byte>> {
    Kept(Split(s))
  }

  function Join(segs: seq<seq<byte>>): seq<byte> {
    if segs == [] then [] else if |segs| == 1 then segs[0] else segs[0] + [SLASH] + Join(segs[1..])
  }

  // ----- the canonical form, in terms of the segments alone

  predicate Safe(segs: seq<seq<byte>>) {
    forall seg :: seg in segs ==> seg != DOTDOT && NUL !in seg
  }

  function Canonical(path: seq<byte>, allowEmpty: bool): Result<seq<byte>, PathError> {
    var segs := Segments(path);
    if segs == [] then (if allowEmpty then Ok([]) else Err(EmptyPath))
    else if Safe(segs) then Ok(Join(segs))
    else Err(UnsafePath)
  }

  // ----- the code

  function TrimStart(s: seq<byte>): seq<byte> {
    if s != [] && IsSep(s[0]) then TrimStart(s[1..]) else s
  }

  function TrimEnd(s: seq<byte>): seq<byte> {
    if s != [] && IsSep(s[|s| - 1]) then TrimEnd(s[..|s| - 1]) else s
  }

  /**
   Canonicalization: a path whose trimmed form needs no change is answered as it is, any other is
   rebuilt from the kept segments.
   */
  method CanonicalizeRelPath(path: seq<byte>, allowEmpty: bool) returns (r: Result<seq<byte>, PathError>)
    ensures r == Canonical(path, allowEmpty)
  {
    hide Split, Join;
    var trimmed := TrimEnd(TrimStart(path));
    TrimKeepsSegments(path);
    if trimmed == [] {
      EmptySegments();
      if allowEmpty {
        return Ok([]);
      }
      return Err(EmptyPath);
    }
    NulIsInASegment(trimmed);
    if NUL in trimmed {
      return Err(UnsafePath);
    }
    var parts: seq<seq<byte>> := [];
    var needsAlloc := BACKSLASH in trimmed;
    var segs := Split(trimmed);
    var i := 0;
    while i < |segs|
      invariant 0 <= i <= |segs|
      invariant parts == Kept(segs[..i])
      invariant !needsAlloc ==> BACKSLASH !in trimmed && parts == segs[..i]
      invariant DOTDOT !in parts
    {
      var seg := segs[i];
      assert segs[..i + 1] == segs[..i] + [seg];
      KeptSnoc(segs[..i], seg);
      i := i + 1;
      if seg == [] {
        needsAlloc := true;
        continue;
      }
      if seg == [DOT] {
        needsAlloc := true;
        continue;
      }
      if seg == DOTDOT {
        KeptHas(segs, i - 1);
        return Err(UnsafePath);
      }
      parts := parts + [seg];
    }
    assert segs[..i] == segs;
    if parts == [] {
      if allowEmpty {
        return Ok([]);
      }
      return Err(EmptyPath);
    }
    if !needsAlloc {
      JoinSplit(trimmed);
      return Ok(trimmed);
    }
    return Ok(Join(parts));
  }

  method ValidateRelPath(path: seq<byte>) returns (r: Result<seq<byte>, PathError>)
    ensures r == Canonical(path, false)
  {
    r := CanonicalizeRelPath(path, false);
  }

  method ValidateRelDirPath(path: seq<byte>) returns (r: Result<seq<byte>, PathError>)
    ensures r == Canonical(path, true)
  {
    r := CanonicalizeRelPath(path, true);
  }

  // ----- lemmas about the pieces

  lemma {:induction false} KeptAppend(a: seq<seq<byte>>, b: seq<seq<byte>>)
    ensures Kept(a + b) == Kept(a) + Kept(b)
  {
    if a == [] {
      assert a + b == b;
    } else {
      assert (a + b)[1..] == a[1..] + b;
      KeptAppend(a[1..], b);
    }
  }

  lemma KeptOne(seg: seq<byte>)
    ensures Kept([seg]) == if IsKept(seg) then [seg] else []
  {
    assert [seg][1..] == [];
  }

  lemma KeptSnoc(segs: seq<seq<byte>>, seg: seq<byte>)
    ensures Kept(segs + [seg]) == if IsKept(seg) then Kept(segs) + [seg] else Kept(segs)
  {
    KeptAppend(segs, [seg]);
    KeptOne(seg);
  }

  lemma KeptHas(segs: seq<seq<byte>>, k: nat)
    requires k < |segs| && IsKept(segs[k])
    ensures segs[k] in Kept(segs)
  {
    assert segs == segs[..k] + ([segs[k]] + segs[k + 1..]);
    KeptAppend(segs[..k], [segs[k]] + segs[k + 1..]);
    assert ([segs[k]] + segs[k + 1..])[1..] == segs[k + 1..];
  }

  lemma EmptySegments()
    ensures Segments([]) == []
  {
    assert Split([]) == [[]];
    KeptOne([]);
  }

  lemma {:induction false} SplitAppendSep(s: seq<byte>, sep: byte)
    requires IsSep(sep)
    ensures Split(s + [sep]) == Split(s) + [[]]
    decreases |s|
  {
    hide Split, FirstSep;
    var i := FirstSep(s);
    SplitUnfolds(s, i);
    SplitUnfolds(s + [sep], i);
    if i == |s| {
      assert (s + [sep])[..i] == s && (s + [sep])[i + 1..] == [];
      SplitUnfolds([], 0);
    } else {
      assert (s + [sep])[..i] == s[..i] && (s + [sep])[i + 1..] == s[i + 1..] + [sep];
      SplitAppendSep(s[i + 1..], sep);
      Regroup([s[..i]], Split(s[i + 1..]), [[]]);
    }
  }

  lemma FirstSepIs(s: seq<byte>, i: nat)
    requires i <= |s| && (forall k :: 0 <= k < i ==> !IsSep(s[k])) && (i < |s| ==> IsSep(s[i]))
    ensures FirstSep(s) == i
  {
  }

  lemma {:induction false} TrimStartKeeps(s: seq<byte>)
    ensures Segments(TrimStart(s)) == Segments(s)
    ensures NUL in TrimStart(s) <==> NUL in s
    decreases |s|
  {
    if s != [] && IsSep(s[0]) {
      TrimStartKeeps(s[1..]);
      FirstSepIs(s, 0);
      assert s[..0] == [];
      KeptAppend([[]], Split(s[1..]));
      KeptOne([]);
    }
  }

  lemma {:induction false} TrimEndKeeps(s: seq<byte>)
    ensures Segments(TrimEnd(s)) == Segments(s)
    ensures NUL in TrimEnd(s) <==> NUL in s
    decreases |s|
  {
    hide Split, FirstSep, Kept;
    if s != [] && IsSep(s[|s| - 1]) {
      var t, sep := s[..|s| - 1], s[|s| - 1];
      TrimEndKeeps(t);
      assert s == t + [sep];
      SplitAppendSep(t, sep);
      KeptSnoc(Split(t), []);
    }
  }

  lemma TrimKeepsSegments(path: seq<byte>)
    ensures Segments(TrimEnd(TrimStart(path))) == Segments(path)
  {
    TrimStartKeeps(path);
    TrimEndKeeps(TrimStart(path));
  }

  lemma {:induction false} SplitAround(a: seq<byte>, sep: byte, b: seq<byte>)
    requires IsSep(sep)
    ensures Split(a + [sep] + b) == Split(a) + Split(b)
    decreases |a|
  {
    hide Split, FirstSep;
    var i := FirstSep(a);
    var s := a + [sep] + b;
    SplitUnfolds(a, i);
    SplitUnfolds(s, i);
    if i == |a| {
      assert s[..i] == a && s[i + 1..] == b;
    } else {
      assert s[..i] == a[..i] && s[i + 1..] == a[i + 1..] + [sep] + b;
      SplitAround(a[i + 1..], sep, b);
      Regroup([a[..i]], Split(a[i + 1..]), Split(b));
    }
  }

  /** Slashes and backslashes alike part a path; what lies between them counts unless it is empty or a single dot. */
  lemma SegmentsAround(a: seq<byte>, sep: byte, b: seq<byte>)
    ensures sep == '/' as int || sep == '\\' as int ==> Segments(a + [sep] + b) == Segments(a) + Segments(b)
    ensures '/' as int !in a && '\\' as int !in a ==> Segments(a) == if a == [] || a == ['.' as int] then [] else [a]
  {
    hide Split, Kept;
    if IsSep(sep) {
      SplitAround(a, sep, b);
      KeptAppend(Split(a), Split(b));
    }
    if SLASH !in a && BACKSLASH !in a {
      SplitUnfolds(a, |a|);
      KeptOne(a);
    }
  }

  /** A NUL byte sits in a segment that is kept. */
  lemma {:induction false} NulIsInASegment(s: seq<byte>)
    ensures NUL in s <==> exists seg :: seg in Segments(s) && NUL in seg
    decreases |s|
  {
    hide Kept, Split, FirstSep;
    var i := FirstSep(s);
    SplitUnfolds(s, i);
    if i == |s| {
      KeptOne(s);
      if NUL in s { assert s in Segments(s); }
    } else {
      var a, b := s[..i], s[i + 1..];
      NulIsInASegment(b);
      KeptAppend([a], Split(b));
      KeptOne(a);
      NulAround(s, i);
      assert Segments(s) == (if IsKept(a) then [a] else []) + Segments(b);
      if NUL in a { assert IsKept(a) && a in Segments(s); }
      if NUL in b {
        var seg :| seg in Segments(b) && NUL in seg;
        assert seg in Segments(s);
      }
    }
  }

  lemma NulAround(s: seq<byte>, i: nat)
    requires i < |s| && IsSep(s[i])
    ensures NUL in s <==> NUL in s[..i] || NUL in s[i + 1..]
  {
    assert s == s[..i] + ([s[i]] + s[i + 1..]);
  }

  /** Without a backslash, joining the split pieces gives the text back. */
  lemma {:induction false} JoinSplit(s: seq<byte>)
    requires BACKSLASH !in s
    ensures Join(Split(s)) == s
    decreases |s|
  {
    hide Split;
    var i := FirstSep(s);
    SplitUnfolds(s, i);
    if i < |s| {
      JoinSplit(s[i + 1..]);
      assert Split(s)[1..] == Split(s[i + 1..]);
      assert s == s[..i] + [SLASH] + s[i + 1..];
    }
  }

  // ----- what is canonical about the result

  /** A segment the way a canonical path has it. */
  predicate Clean(seg: seq<byte>) {
    IsKept(seg) && seg != DOTDOT && NUL !in seg && SLASH !in seg && BACKSLASH !in seg
  }

  lemma {:induction false} SplitHasNoSeps(s: seq<byte>)
    ensures forall seg :: seg in Split(s) ==> SLASH !in seg && BACKSLASH !in seg
    decreases |s|
  {
    var i := FirstSep(s);
    if i < |s| {
      SplitHasNoSeps(s[i + 1..]);
    }
  }

  lemma {:induction false} KeptAreAmong(segs: seq<seq<byte>>)
    ensures forall seg :: seg in Kept(segs) ==> seg in segs
  {
    if segs != [] {
      KeptAreAmong(segs[1..]);
    }
  }

  lemma {:induction false} KeptOfKept(segs: seq<seq<byte>>)
    requires forall seg :: seg in segs ==> IsKept(seg)
    ensures Kept(segs) == segs
  {
    if segs != [] {
      KeptOfKept(segs[1..]);
    }
  }

  /** Splitting undoes joining. */
  lemma {:induction false} SplitJoin(segs: seq<seq<byte>>)
    requires segs != [] && forall seg :: seg in segs ==> SLASH !in seg && BACKSLASH !in seg
    ensures Split(Join(segs)) == segs
    decreases |segs|
  {
    hide Split;
    var first, rest := segs[0], segs[1..];
    assert first in segs;
    var s := Join(segs);
    SplitUnfolds(s, |first|);
    if |segs| > 1 {
      SplitJoin(rest);
      assert s[..|first|] == first && s[|first| + 1..] == Join(rest);
    } else {
      assert s[..|first|] == first && segs == [first];
    }
  }

  /**
   An accepted path is empty or a list of clean segments: none is empty, ".", or "..", none holds a
   backslash or a NUL, and they are the segments of the path it came from.
   */
  lemma CanonicalSegments(path: seq<byte>, allowEmpty: bool)
    requires Canonical(path, allowEmpty).Ok?
    ensures var q := Canonical(path, allowEmpty).value;
      && (q == [] ==> allowEmpty && Segments(path) == [])
      && (q != [] ==> Split(q) == Segments(path) && forall seg :: seg in Split(q) ==> Clean(seg))
  {
    hide Split, Join, Kept;
    var segs := Segments(path);
    KeptAreAmong(Split(path));
    SplitHasNoSeps(path);
    if segs != [] {
      SplitJoin(segs);
      assert forall seg :: seg in segs ==> Clean(seg);
      JoinNotEmpty(segs);
    }
  }

  lemma JoinNotEmpty(segs: seq<seq<byte>>)
    requires segs != [] && segs[0] != []
    ensures Join(segs) != []
  {
  }

  /** A path is refused for being empty, unless that is allowed, and for a segment that is two dots or holds a NUL; for nothing else. */
  lemma RefusedPaths(path: seq<byte>, allowEmpty: bool)
    ensures Canonical(path, allowEmpty) == Err(EmptyPath) <==> Segments(path) == [] && !allowEmpty
    ensures Canonical(path, allowEmpty) == Err(UnsafePath) <==> exists seg :: seg in Segments(path) && (seg == ['.' as int, '.' as int] || 0 in seg)
  {
    hide Split, Join, Kept;
  }

  /** Canonicalization is idempotent, whichever of the two entry points it goes through again. */
  lemma CanonicalIdempotent(path: seq<byte>, allowEmpty: bool)
    requires Canonical(path, allowEmpty).Ok?
    ensures var q := Canonical(path, allowEmpty).value;
      Canonical(q, true) == Ok(q) && (q != [] ==> Canonical(q, false) == Ok(q))
  {
    hide Split, Join, Kept;
    var q := Canonical(path, allowEmpty).value;
    CanonicalSegments(path, allowEmpty);
    if q == [] {
      EmptySegments();
    } else {
      KeptOfKept(Split(q));
    }
  }

  /** Joining clean segments and canonicalizing gives them back: every clean path is its own form. */
  lemma CleanIsCanonical(segs: seq<seq<byte>>)
    requires segs != [] && forall seg :: seg in segs ==> Clean(seg)
    ensures Canonical(Join(segs), false) == Ok(Join(segs))
  {
    hide Split, Join, Kept;
    SplitJoin(segs);
    KeptOfKept(segs);
  }

  // ----- canonical paths as text

  /** No empty segment at either end or in between. */
  predicate Relative(p: seq<byte>) {
    && p != [] && p[0] != SLASH && p[|p| - 1] != SLASH
    && forall i :: 0 <= i < |p| - 1 ==> !(p[i] == SLASH && p[i + 1] == SLASH)
  }

  lemma {:induction false} JoinRelative(segs: seq<seq<byte>>)
    requires segs != [] && forall seg :: seg in segs ==> seg != [] && SLASH !in seg
    ensures Relative(Join(segs))
    decreases |segs|
  {
    var first, rest := segs[0], segs[1..];
    assert first in segs && first[0] in first && first[|first| - 1] in first;
    if |segs| > 1 {
      forall seg | seg in rest ensures seg != [] && SLASH !in seg { assert seg in segs; }
      JoinRelative(rest);
      var p, q := Join(segs), Join(rest);
      assert p == first + [SLASH] + q;
      forall i | 0 <= i < |p| - 1 ensures !(p[i] == SLASH && p[i + 1] == SLASH) {
        if i < |first| {
          assert p[i] == first[i] && first[i] in first;
        } else if i > |first| {
          assert p[i] == q[i - |first| - 1] && p[i + 1] == q[i - |first|];
        }
      }
    } else {
      forall i | 0 <= i < |first| - 1 ensures first[i] != SLASH {
        assert first[i] in first;
      }
    }
  }

  lemma CanonicalRelative(path: seq<byte>)
    requires Canonical(path, false).Ok?
    ensures Relative(Canonical(path, false).value)
  {
    hide Split, Join, Kept;
    var segs := Segments(path);
    KeptAreAmong(Split(path));
    SplitHasNoSeps(path);
    JoinRelative(segs);
  }

  // ----- canonical paths as UTF-8

  lemma {:induction false} SplitValid(s: seq<byte>)
    requires Utf8.Valid(s)
    ensures forall seg :: seg in Split(s) ==> Utf8.Valid(seg)
    decreases |s|
  {
    hide Split, Utf8.Valid;
    var i := FirstSep(s);
    SplitUnfolds(s, i);
    if i < |s| {
      assert s == s[..i] + [s[i]] + s[i + 1..];
      Utf8.ValidAround(s[..i], s[i], s[i + 1..]);
      SplitValid(s[i + 1..]);
    }
  }

  lemma {:induction false} JoinValid(segs: seq<seq<byte>>)
    requires forall seg :: seg in segs ==> Utf8.Valid(seg)
    ensures Utf8.Valid(Join(segs))
    decreases |segs|
  {
    if |segs| > 1 {
      JoinValid(segs[1..]);
      Utf8.ValidAround(segs[0], SLASH, Join(segs[1..]));
    }
  }

  lemma CanonicalValid(path: seq<byte>, allowEmpty: bool)
    requires Utf8.Valid(path) && Canonical(path, allowEmpty).Ok?
    ensures Utf8.Valid(Canonical(path, allowEmpty).value)
  {
    hide Split, Join, Kept, Utf8.Valid;
    SplitValid(path);
    KeptAreAmong(Split(path));
    JoinValid(Segments(path));
    JoinValid([]);
    NothingJoined();
  }

  lemma NothingJoined()
    ensures Join([]) == []
  {
  }

  // ----- directories above a canonical path

  lemma {:induction false} SplitUnfolds(s: seq<byte>, i: nat)
    requires i <= |s| && (forall k :: 0 <= k < i ==> !IsSep(s[k])) && (i < |s| ==> IsSep(s[i]))
    ensures Split(s) == if i == |s| then [s] else [s[..i]] + Split(s[i + 1..])
  {
    FirstSepIs(s, i);
  }

  lemma CutAt(d: seq<byte>, rest: seq<byte>, i: nat)
    requires i <= |d|
    ensures var s := d + [SLASH] + rest;
      && s[..i] == d[..i]
      && s[i + 1..] == if i < |d| then d[i + 1..] + [SLASH] + rest else rest
  {
  }

  lemma {:induction false} SplitAtSlash(d: seq<byte>, rest: seq<byte>)
    ensures Split(d + [SLASH] + rest) == Split(d) + Split(rest)
    decreases |d|
  {
    hide Split, FirstSep;
    var i, s := FirstSep(d), d + [SLASH] + rest;
    assert forall k :: 0 <= k < |d| ==> s[k] == d[k];
    assert s[|d|] == SLASH;
    SplitUnfolds(s, i);
    SplitUnfolds(d, i);
    CutAt(d, rest, i);
    if i < |d| {
      SplitAtSlash(d[i + 1..], rest);
      Regroup([d[..i]], Split(d[i + 1..]), Split(rest));
    } else {
      assert d[..i] == d;
    }
  }

  lemma {:induction false} JoinHasNoBackslash(segs: seq<seq<byte>>)
    requires forall seg :: seg in segs ==> BACKSLASH !in seg
    ensures BACKSLASH !in Join(segs)
  {
    if segs != [] {
      assert segs[0] in segs;
      JoinHasNoBackslash(segs[1..]);
    }
  }

  /** A directory above a canonical path is in canonical form. */
  lemma AboveCanonical(path: seq<byte>, d: seq<byte>)
    requires Canonical(path, false).Ok? && d != [] && d + [SLASH] <= Canonical(path, false).value
    ensures Canonical(d, true) == Ok(d)
  {
    hide Split, Join, Kept;
    var q := Canonical(path, false).value;
    var rest := q[|d| + 1..];
    assert q == d + [SLASH] + rest;
    CanonicalSegments(path, false);
    SplitAtSlash(d, rest);
    forall seg | seg in Split(d) ensures Clean(seg) { assert seg in Split(q); }
    JoinHasNoBackslash(Segments(path));
    assert BACKSLASH !in d;
    JoinSplit(d);
    KeptOfKept(Split(d));
  }
}
