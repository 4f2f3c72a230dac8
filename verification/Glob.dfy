/** The host-pattern matcher of the OpenSSH configuration reader. */
module Glob {
  import opened Bytes

  const STAR: byte := 42
  const QUESTION: byte := 63

  function LowerByte(b: byte): byte {
    if 65 <= b <= 90 then b + 32 else b
  }

  /** `to_ascii_lowercase`. */
  function Lower(s: seq<byte>): (r: seq<byte>)
    ensures |r| == |s|
    ensures forall i :: 0 <= i < |s| ==> r[i] == LowerByte(s[i])
  {
    seq(|s|, i requires 0 <= i < |s| => LowerByte(s[i]))
  }

  // ----- what a pattern means

  /** '*' stands for any run of bytes, '?' for any one byte, everything else for itself. */
  ghost predicate Matches(p: seq<byte>, t: seq<byte>)
    decreases |p|
  {
    if p == [] then t == []
    else if p[0] == STAR then exists k :: 0 <= k <= |t| && Matches(p[1..], t[k..])
    else t != [] && Fits(p[0], t[0]) && Matches(p[1..], t[1..])
  }

  predicate Fits(c: byte, b: byte) { c == QUESTION || c == b }

  /** The same byte, or the same letter in the other case. */
  predicate SameLetter(c: byte, b: byte) {
    c == b || ('A' as int <= c <= 'Z' as int && b == c + 32) || ('a' as int <= c <= 'z' as int && b == c - 32)
  }

  /** A host pattern, read as it stands: `*` is any run of bytes, `?` any one byte, the case of letters does not count. */
  ghost predicate GlobMatches(pattern: seq<byte>, text: seq<byte>)
    decreases |pattern|
  {
    if pattern == [] then text == []
    else if pattern[0] == '*' as int then exists k :: 0 <= k <= |text| && GlobMatches(pattern[1..], text[k..])
    else text != [] && (pattern[0] == '?' as int || SameLetter(pattern[0], text[0])) && GlobMatches(pattern[1..], text[1..])
  }

  lemma LowerIs(s: seq<byte>)
    ensures |Lower(s)| == |s|
    ensures s != [] ==> Lower(s)[0] == LowerByte(s[0])
    ensures forall k :: 0 <= k <= |s| ==> Lower(s[k..]) == Lower(s)[k..]
  {
  }

  lemma LettersFold(c: byte, b: byte)
    ensures c != '*' as int ==> (Fits(LowerByte(c), LowerByte(b)) <==> c == '?' as int || SameLetter(c, b)) && LowerByte(c) != STAR
    ensures c == '*' as int ==> LowerByte(c) == STAR
  {
  }

  /** Folding both sides first comes to the same. */
  lemma {:induction false} FoldedFirst(pattern: seq<byte>, text: seq<byte>)
    ensures GlobMatches(pattern, text) <==> Matches(Lower(pattern), Lower(text))
    decreases |pattern|
  {
    hide Lower, LowerByte, Fits, SameLetter;
    LowerIs(pattern);
    LowerIs(text);
    if pattern == [] {
      assert Lower(pattern) == [] && (Lower(text) == [] <==> text == []);
    } else {
      var p, t := Lower(pattern), Lower(text);
      assert Lower(pattern[1..]) == p[1..];
      if pattern[0] == '*' as int {
        LettersFold(pattern[0], 0);
        forall k | 0 <= k <= |text| ensures GlobMatches(pattern[1..], text[k..]) <==> Matches(p[1..], t[k..]) {
          FoldedFirst(pattern[1..], text[k..]);
          assert Lower(text[k..]) == t[k..];
        }
      } else {
        LettersFold(pattern[0], if text == [] then 0 else text[0]);
        if text != [] {
          FoldedFirst(pattern[1..], text[1..]);
          assert Lower(text[1..]) == t[1..];
        }
      }
    }
  }

  // ----- what the loop answers

  /** The loop's variables; `star` is the last star passed, tried so far from `starText`. */
  datatype State = State(pi: nat, ti: nat, star: Option<nat>, starText: nat)

  predicate InBounds(p: seq<byte>, t: seq<byte>, s: State) {
    && s.pi <= |p| && s.starText <= s.ti <= |t|
    && (s.star.Some? ==> s.star.value < s.pi)
  }

  function AllStars(p: seq<byte>): bool {
    p == [] || (p[0] == STAR && AllStars(p[1..]))
  }

  /** The answer from state `s`. Either the retried start or the place in the pattern advances. */
  function Scan(p: seq<byte>, t: seq<byte>, s: State): bool
    requires InBounds(p, t, s)
    decreases |t| - s.starText, |p| - s.pi
  {
    if s.ti == |t| then AllStars(p[s.pi..])
    else if s.pi < |p| && Fits(p[s.pi], t[s.ti]) then Scan(p, t, s.(pi := s.pi + 1, ti := s.ti + 1))
    else if s.pi < |p| && p[s.pi] == STAR then Scan(p, t, State(s.pi + 1, s.ti, Some(s.pi), s.ti))
    else if s.star.Some? then Scan(p, t, State(s.star.value + 1, s.starText + 1, s.star, s.starText + 1))
    else false
  }

  const START := State(0, 0, None, 0)

  function WildcardResult(pattern: seq<byte>, text: seq<byte>): bool {
    Scan(Lower(pattern), Lower(text), START)
  }

  method WildcardMatch(pattern: seq<byte>, text: seq<byte>) returns (r: bool)
    ensures r == WildcardResult(pattern, text)
  {
    var p, t := Lower(pattern), Lower(text);
    var patternIdx: nat, textIdx: nat := 0, 0;
    var starIdx: Option<nat> := None;
    var starTextIdx: nat := 0;
    while textIdx < |t|
      invariant InBounds(p, t, State(patternIdx, textIdx, starIdx, starTextIdx))
      invariant Scan(p, t, State(patternIdx, textIdx, starIdx, starTextIdx)) == Scan(p, t, START)
      decreases |t| - starTextIdx, |p| - patternIdx
    {
      if patternIdx < |p| && (p[patternIdx] == QUESTION || p[patternIdx] == t[textIdx]) {
        patternIdx := patternIdx + 1;
        textIdx := textIdx + 1;
      } else if patternIdx < |p| && p[patternIdx] == STAR {
        starIdx := Some(patternIdx);
        patternIdx := patternIdx + 1;
        starTextIdx := textIdx;
      } else if starIdx.Some? {
        patternIdx := starIdx.value + 1;
        starTextIdx := starTextIdx + 1;
        textIdx := starTextIdx;
      } else {
        return false;
      }
    }
    while patternIdx < |p| && p[patternIdx] == STAR
      invariant patternIdx <= |p| && AllStars(p[patternIdx..]) == Scan(p, t, START)
    {
      patternIdx := patternIdx + 1;
    }
    return patternIdx == |p|;
  }

  lemma MatchesPlain(p: seq<byte>, t: seq<byte>)
    requires p != [] && p[0] != STAR
    ensures Matches(p, t) <==> t != [] && Fits(p[0], t[0]) && Matches(p[1..], t[1..])
  {
  }

  lemma MatchesNothing(t: seq<byte>)
    ensures Matches([], t) <==> t == []
  {
  }

  // ----- no wrong match

  lemma StarAbsorbs(p: seq<byte>, t: seq<byte>, k: nat)
    requires p != [] && p[0] == STAR && k <= |t| && Matches(p[1..], t[k..])
    ensures Matches(p, t)
  {
  }

  lemma StarTakes(p: seq<byte>, t: seq<byte>) returns (k: nat)
    requires p != [] && p[0] == STAR && Matches(p, t)
    ensures k <= |t| && Matches(p[1..], t[k..])
  {
    k :| 0 <= k <= |t| && Matches(p[1..], t[k..]);
  }

  lemma {:induction false} StarsMatchNothing(p: seq<byte>)
    requires AllStars(p)
    ensures Matches(p, [])
  {
    hide Matches;
    if p == [] {
      MatchesNothing([]);
    } else {
      StarsMatchNothing(p[1..]);
      var nothing: seq<byte> := [];
      assert nothing[0..] == nothing;
      StarAbsorbs(p, nothing, 0);
    }
  }

  /** Whatever the state still accepts, the whole pattern accepts. */
  ghost predicate Justified(p: seq<byte>, t: seq<byte>, s: State)
    requires InBounds(p, t, s)
  {
    && (Matches(p[s.pi..], t[s.ti..]) ==> Matches(p, t))
    && (s.star.Some? ==> forall k :: s.starText <= k <= |t| && Matches(p[s.star.value + 1..], t[k..]) ==> Matches(p, t))
  }

  lemma JustifiedFit(p: seq<byte>, t: seq<byte>, s: State)
    requires InBounds(p, t, s) && Justified(p, t, s) && s.pi < |p| && s.ti < |t| && Fits(p[s.pi], t[s.ti])
    ensures Justified(p, t, s.(pi := s.pi + 1, ti := s.ti + 1))
  {
    hide Matches;
    var pr, tr := p[s.pi..], t[s.ti..];
    assert pr[1..] == p[s.pi + 1..] && tr[1..] == t[s.ti + 1..];
    if Matches(pr[1..], tr[1..]) {
      if p[s.pi] == STAR {
        StarAbsorbs(pr, tr, 1);
      } else {
        MatchesPlain(pr, tr);
      }
    }
  }

  lemma JustifiedStar(p: seq<byte>, t: seq<byte>, s: State)
    requires InBounds(p, t, s) && Justified(p, t, s) && s.pi < |p| && p[s.pi] == STAR
    ensures Justified(p, t, State(s.pi + 1, s.ti, Some(s.pi), s.ti))
  {
    hide Matches;
    var pr, tr := p[s.pi..], t[s.ti..];
    assert pr[1..] == p[s.pi + 1..];
    forall k | s.ti <= k <= |t| && Matches(p[s.pi + 1..], t[k..]) ensures Matches(p, t) {
      assert tr[k - s.ti..] == t[k..];
      StarAbsorbs(pr, tr, k - s.ti);
    }
  }

  lemma JustifiedRetry(p: seq<byte>, t: seq<byte>, s: State)
    requires InBounds(p, t, s) && Justified(p, t, s) && s.star.Some? && s.ti < |t|
    ensures Justified(p, t, State(s.star.value + 1, s.starText + 1, s.star, s.starText + 1))
  {
    hide Matches;
  }

  lemma JustifiedAtEnd(p: seq<byte>, t: seq<byte>, s: State)
    requires InBounds(p, t, s) && Justified(p, t, s) && s.ti == |t| && AllStars(p[s.pi..])
    ensures Matches(p, t)
  {
    hide Matches;
    StarsMatchNothing(p[s.pi..]);
    assert t[s.ti..] == [];
  }

  lemma {:induction false} ScanSound(p: seq<byte>, t: seq<byte>, s: State)
    requires InBounds(p, t, s) && Justified(p, t, s) && Scan(p, t, s)
    ensures Matches(p, t)
    decreases |t| - s.starText, |p| - s.pi
  {
    hide Matches, Justified, AllStars;
    if s.ti == |t| {
      JustifiedAtEnd(p, t, s);
    } else if s.pi < |p| && Fits(p[s.pi], t[s.ti]) {
      JustifiedFit(p, t, s);
      ScanSound(p, t, s.(pi := s.pi + 1, ti := s.ti + 1));
    } else if s.pi < |p| && p[s.pi] == STAR {
      JustifiedStar(p, t, s);
      ScanSound(p, t, State(s.pi + 1, s.ti, Some(s.pi), s.ti));
    } else {
      JustifiedRetry(p, t, s);
      ScanSound(p, t, State(s.star.value + 1, s.starText + 1, s.star, s.starText + 1));
    }
  }

  // ----- no missed match, in a text without stars

  /** A stretch of pattern without stars takes exactly as many bytes. */
  lemma {:induction false} PlainPrefix(p: seq<byte>, n: nat, t: seq<byte>)
    requires n <= |p| && Matches(p, t)
    requires forall i :: 0 <= i < n ==> p[i] != STAR
    ensures n <= |t| && Matches(p[n..], t[n..])
    decreases n
  {
    hide Matches;
    if n > 0 {
      MatchesPlain(p, t);
      PlainPrefix(p[1..], n - 1, t[1..]);
      assert p[1..][n - 1..] == p[n..] && t[1..][n - 1..] == t[n..];
    } else {
      assert p[0..] == p && t[0..] == t;
    }
  }

  lemma StarReachesBack(p: seq<byte>, t: seq<byte>, j: nat)
    requires p != [] && p[0] == STAR && j <= |t| && Matches(p, t[j..])
    ensures Matches(p, t)
  {
    hide Matches;
    var k := StarTakes(p, t[j..]);
    assert t[j..][k..] == t[j + k..];
    StarAbsorbs(p, t, j + k);
  }

  lemma {:induction false} NothingMatchesStars(p: seq<byte>)
    requires Matches(p, [])
    ensures AllStars(p)
  {
    hide Matches;
    if p != [] {
      if p[0] != STAR {
        MatchesPlain(p, []);
      }
      var k := StarTakes(p, []);
      var nothing: seq<byte> := [];
      assert nothing[k..] == nothing;
      NothingMatchesStars(p[1..]);
    }
  }

  /** Some later start of the last star would do. */
  ghost predicate LaterStart(p: seq<byte>, t: seq<byte>, s: State)
    requires InBounds(p, t, s)
  {
    s.star.Some? && exists k :: s.starText < k <= |t| && Matches(p[s.star.value + 1..], t[k..])
  }

  /** Since the last star, the pattern has no star and has taken one byte for each of its own. */
  ghost predicate Stretch(p: seq<byte>, t: seq<byte>, s: State)
    requires InBounds(p, t, s)
  {
    s.star.Some? ==>
      && p[s.star.value] == STAR
      && s.pi - (s.star.value + 1) == s.ti - s.starText
      && forall i :: s.star.value < i < s.pi ==> p[i] != STAR
  }

  /** A later start of the last star leads beyond the current position with the same pattern left. */
  lemma LaterStartCarries(p: seq<byte>, t: seq<byte>, s: State) returns (j: nat)
    requires InBounds(p, t, s) && Stretch(p, t, s) && LaterStart(p, t, s)
    ensures s.ti < j <= |t| && Matches(p[s.pi..], t[j..])
  {
    hide Matches;
    var k :| s.starText < k <= |t| && Matches(p[s.star.value + 1..], t[k..]);
    var behind := p[s.star.value + 1..];
    var n := s.pi - (s.star.value + 1);
    assert forall i :: 0 <= i < n ==> behind[i] == p[s.star.value + 1 + i];
    PlainPrefix(behind, n, t[k..]);
    assert behind[n..] == p[s.pi..] && t[k..][n..] == t[k + n..];
    j := k + n;
  }

  /** Something the pattern accepts is still within reach. */
  ghost predicate Hopeful(p: seq<byte>, t: seq<byte>, s: State) {
    InBounds(p, t, s) && Stretch(p, t, s) && (Matches(p[s.pi..], t[s.ti..]) || LaterStart(p, t, s))
  }

  lemma {:induction false} ScanComplete(p: seq<byte>, t: seq<byte>, s: State)
    requires Hopeful(p, t, s)
    requires forall i :: 0 <= i < |t| ==> t[i] != STAR
    ensures Scan(p, t, s)
    decreases |t| - s.starText, |p| - s.pi
  {
    if s.ti == |t| {
      HopefulAtEnd(p, t, s);
    } else {
      hide Hopeful;
      var s' := HopefulStep(p, t, s);
      ScanComplete(p, t, s');
    }
  }

  lemma HopefulAtEnd(p: seq<byte>, t: seq<byte>, s: State)
    requires Hopeful(p, t, s) && s.ti == |t|
    ensures AllStars(p[s.pi..])
  {
    hide Matches;
    if LaterStart(p, t, s) {
      var j := LaterStartCarries(p, t, s);
    }
    assert t[s.ti..] == [];
    NothingMatchesStars(p[s.pi..]);
  }

  lemma HopefulStep(p: seq<byte>, t: seq<byte>, s: State) returns (s': State)
    requires Hopeful(p, t, s) && s.ti < |t| && t[s.ti] != STAR
    ensures Hopeful(p, t, s') && Scan(p, t, s) == Scan(p, t, s')
    ensures s'.starText > s.starText || (s'.starText == s.starText && s'.pi > s.pi)
  {
    assert InBounds(p, t, s);
    hide Hopeful, Matches;
    if s.pi < |p| && p[s.pi] == STAR {
      s' := State(s.pi + 1, s.ti, Some(s.pi), s.ti);
      HopefulStar(p, t, s, s');
    } else if s.pi < |p| && Fits(p[s.pi], t[s.ti]) {
      s' := s.(pi := s.pi + 1, ti := s.ti + 1);
      HopefulFit(p, t, s, s');
    } else {
      HopefulRetry(p, t, s);
      s' := State(s.star.value + 1, s.starText + 1, s.star, s.starText + 1);
    }
  }

  lemma HopefulStar(p: seq<byte>, t: seq<byte>, s: State, s': State)
    requires Hopeful(p, t, s) && s.pi < |p| && p[s.pi] == STAR
    requires s' == State(s.pi + 1, s.ti, Some(s.pi), s.ti)
    ensures Hopeful(p, t, s')
  {
    hide Matches;
    var k := StarTakesOver(p, t, s);
  }

  lemma HopefulFit(p: seq<byte>, t: seq<byte>, s: State, s': State)
    requires Hopeful(p, t, s) && s.pi < |p| && s.ti < |t| && p[s.pi] != STAR
    requires s' == s.(pi := s.pi + 1, ti := s.ti + 1)
    ensures Hopeful(p, t, s')
  {
    hide Matches;
    MatchesPlain(p[s.pi..], t[s.ti..]);
    assert p[s.pi..][1..] == p[s'.pi..] && t[s.ti..][1..] == t[s'.ti..];
  }

  lemma HopefulRetry(p: seq<byte>, t: seq<byte>, s: State)
    requires Hopeful(p, t, s) && s.ti < |t|
    requires s.pi == |p| || (p[s.pi] != STAR && !Fits(p[s.pi], t[s.ti]))
    ensures s.star.Some?
    ensures Hopeful(p, t, State(s.star.value + 1, s.starText + 1, s.star, s.starText + 1))
  {
    hide Matches;
    MatchesNothing(t[s.ti..]);
    if s.pi < |p| {
      MatchesPlain(p[s.pi..], t[s.ti..]);
    } else {
      assert p[s.pi..] == [];
    }
    var k :| s.starText < k <= |t| && Matches(p[s.star.value + 1..], t[k..]);
    var s' := State(s.star.value + 1, s.starText + 1, s.star, s.starText + 1);
    assert k > s'.starText ==> LaterStart(p, t, s');
  }

  /** At a new star the old one can be forgotten: whatever it would reach, the new one reaches. */
  lemma StarTakesOver(p: seq<byte>, t: seq<byte>, s: State) returns (k: nat)
    requires InBounds(p, t, s) && Stretch(p, t, s) && s.pi < |p| && p[s.pi] == STAR
    requires Matches(p[s.pi..], t[s.ti..]) || LaterStart(p, t, s)
    ensures s.ti <= k <= |t| && Matches(p[s.pi + 1..], t[k..])
  {
    hide Matches;
    var pr, tr := p[s.pi..], t[s.ti..];
    assert pr[1..] == p[s.pi + 1..];
    if LaterStart(p, t, s) {
      var j := LaterStartCarries(p, t, s);
      assert tr[j - s.ti..] == t[j..];
      StarReachesBack(pr, tr, j - s.ti);
    }
    var k' := StarTakes(pr, tr);
    assert tr[k'..] == t[s.ti + k'..];
    k := s.ti + k';
  }

  // ----- texts with stars

  lemma {:induction false} ScanFits(p: seq<byte>, t: seq<byte>, s: State, m: nat)
    requires InBounds(p, t, s) && s.pi + m <= |p| && s.ti + m <= |t|
    requires forall k :: s.pi <= k < s.pi + m ==> Fits(p[k], t[k - s.pi + s.ti])
    ensures Scan(p, t, s) == Scan(p, t, s.(pi := s.pi + m, ti := s.ti + m))
    decreases m
  {
    if m > 0 {
      assert Fits(p[s.pi], t[s.ti]);
      ScanFits(p, t, s.(pi := s.pi + 1, ti := s.ti + 1), m - 1);
    }
  }

  function Questions(n: nat): (q: seq<byte>)
    ensures |q| == n
    ensures forall i :: 0 <= i < n ==> q[i] == QUESTION
  {
    seq(n, _ => QUESTION)
  }

  /** As many question marks as the text has bytes, with a star where the text has its own. */
  function Defeating(n: nat, i: nat): seq<byte>
    requires i < n
  {
    Questions(i) + [STAR] + Questions(n - i)
  }

  lemma {:induction false} QuestionsMatch(n: nat, more: seq<byte>, t: seq<byte>)
    requires n <= |t| && Matches(more, t[n..])
    ensures Matches(Questions(n) + more, t)
    decreases n
  {
    hide Matches;
    var p := Questions(n) + more;
    if n == 0 {
      assert p == more && t[0..] == t;
    } else {
      MatchesPlain(p, t);
      assert p[1..] == Questions(n - 1) + more && t[1..][n - 1..] == t[n..];
      QuestionsMatch(n - 1, more, t[1..]);
    }
  }

  lemma QuestionsMatchAll(t: seq<byte>)
    ensures Matches(Questions(|t|), t)
  {
    hide Matches;
    assert t[|t|..] == [];
    MatchesNothing([]);
    QuestionsMatch(|t|, [], t);
    assert Questions(|t|) + [] == Questions(|t|);
  }

  lemma StarredMatches(q: seq<byte>, t: seq<byte>)
    requires Matches(q, t)
    ensures Matches([STAR] + q, t)
  {
    hide Matches;
    assert ([STAR] + q)[1..] == q && t[0..] == t;
    StarAbsorbs([STAR] + q, t, 0);
  }

  lemma DefeatingMatches(t: seq<byte>, i: nat)
    requires i < |t|
    ensures Matches(Defeating(|t|, i), t)
  {
    hide Matches, Questions;
    var q := Questions(|t| - i);
    QuestionsMatchAll(t[i..]);
    StarredMatches(q, t[i..]);
    QuestionsMatch(i, [STAR] + q, t);
    assert Defeating(|t|, i) == Questions(i) + ([STAR] + q);
  }

  /** A star in the text is taken literally by the star of this pattern, and the match is missed. */
  lemma DefeatingMissed(t: seq<byte>, i: nat)
    requires i < |t| && t[i] == STAR
    ensures !Scan(Defeating(|t|, i), t, START)
  {
    hide Scan, Defeating;
    var p := Defeating(|t|, i);
    DefeatingBytes(|t|, i);
    ScanFits(p, t, START, |t|);
    ScanEnds(p, t, State(|t|, |t|, None, 0));
  }

  lemma DefeatingBytes(n: nat, i: nat)
    requires i < n
    ensures |Defeating(n, i)| == n + 1
    ensures forall k :: 0 <= k <= n ==> Defeating(n, i)[k] == if k == i then STAR else QUESTION
  {
  }

  /** A text exhausted before a question mark is not matched. */
  lemma ScanEnds(p: seq<byte>, t: seq<byte>, s: State)
    requires InBounds(p, t, s) && s.ti == |t| && s.pi < |p| && p[s.pi] == QUESTION
    ensures !Scan(p, t, s)
  {
  }

  lemma LowerPattern(p: seq<byte>)
    requires forall i :: 0 <= i < |p| ==> p[i] == STAR || p[i] == QUESTION
    ensures Lower(p) == p
  {
  }

  // ----- the matcher against the meaning

  /** The matcher never accepts a text its pattern does not match. */
  lemma NeverWrong(pattern: seq<byte>, text: seq<byte>)
    requires WildcardResult(pattern, text)
    ensures GlobMatches(pattern, text)
  {
    hide Matches, Scan, Lower, GlobMatches;
    var p, t := Lower(pattern), Lower(text);
    assert p[0..] == p && t[0..] == t;
    ScanSound(p, t, START);
    FoldedFirst(pattern, text);
  }

  /** The matcher decides glob matching for every pattern, exactly on the texts without a '*'. */
  lemma DecidesGlob(text: seq<byte>)
    ensures (forall pattern :: WildcardResult(pattern, text) <==> GlobMatches(pattern, text)) <==> '*' as int !in text
  {
    hide Matches, Scan, Lower, GlobMatches, WildcardResult;
    if STAR in text {
      var pattern := Defeated(text);
    } else {
      forall pattern ensures WildcardResult(pattern, text) <==> GlobMatches(pattern, text) {
        StarlessDecided(pattern, text);
      }
    }
  }

  /** A text with a star is refused by some pattern that it matches. */
  lemma Defeated(text: seq<byte>) returns (pattern: seq<byte>)
    requires STAR in text
    ensures GlobMatches(pattern, text) && !WildcardResult(pattern, text)
  {
    hide Matches, Scan, Lower, GlobMatches;
    var t := Lower(text);
    var i :| 0 <= i < |text| && text[i] == STAR;
    LowerIs(text);
    LowerAt(text, i);
    pattern := Defeating(|t|, i);
    LowerPattern(pattern);
    DefeatingMatches(t, i);
    DefeatingMissed(t, i);
    FoldedFirst(pattern, text);
  }

  lemma LowerAt(s: seq<byte>, i: nat)
    requires i < |s|
    ensures |Lower(s)| == |s| && (Lower(s)[i] == STAR <==> s[i] == STAR)
  {
  }

  lemma StarlessDecided(pattern: seq<byte>, text: seq<byte>)
    requires STAR !in text
    ensures WildcardResult(pattern, text) <==> GlobMatches(pattern, text)
  {
    hide Matches, Scan, Lower, GlobMatches;
    var p, t := Lower(pattern), Lower(text);
    FoldedFirst(pattern, text);
    if WildcardResult(pattern, text) {
      NeverWrong(pattern, text);
    }
    if GlobMatches(pattern, text) {
      assert p[0..] == p && t[0..] == t;
      LowerIs(text);
      forall i | 0 <= i < |t| ensures t[i] != STAR { LowerAt(text, i); assert text[i] in text; }
      ScanComplete(p, t, START);
    }
  }

  /** Without a star in the pattern there is nothing to come back to. */
  lemma {:induction false} ScanPlain(p: seq<byte>, t: seq<byte>, s: State)
    requires InBounds(p, t, s) && s.star == None && forall i :: 0 <= i < |p| ==> p[i] != STAR
    ensures Scan(p, t, s) <==> Matches(p[s.pi..], t[s.ti..])
    decreases |p| - s.pi
  {
    hide Matches;
    var pr, tr := p[s.pi..], t[s.ti..];
    if s.pi < |p| {
      MatchesPlain(pr, tr);
      if s.ti < |t| && Fits(p[s.pi], t[s.ti]) {
        ScanPlain(p, t, s.(pi := s.pi + 1, ti := s.ti + 1));
        assert pr[1..] == p[s.pi + 1..] && tr[1..] == t[s.ti + 1..];
      }
    } else {
      MatchesNothing(tr);
      assert pr == [];
    }
  }

  /** A pattern without a star is decided on every text, stars in it or not. */
  lemma PlainPatternsDecided(pattern: seq<byte>, text: seq<byte>)
    requires '*' as int !in pattern
    ensures WildcardResult(pattern, text) <==> GlobMatches(pattern, text)
  {
    hide Matches, Scan, Lower, GlobMatches;
    var p, t := Lower(pattern), Lower(text);
    FoldedFirst(pattern, text);
    assert p[0..] == p && t[0..] == t;
    forall i | 0 <= i < |p| ensures p[i] != STAR { LowerAt(pattern, i); assert pattern[i] in pattern; }
    ScanPlain(p, t, START);
  }
}
