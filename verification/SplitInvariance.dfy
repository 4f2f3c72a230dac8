/**
 The outcome of applying a delta does not depend on how its bytes are cut into chunks, unless a
 window header is so long that a cut can leave more of it pending than the parser tolerates.
 */
module SplitInvariance {
  import opened Bytes
  import opened SvndiffFormat
  import opened StreamParser
  import opened Sections
  import opened Applier

  /** The longest window header in a sequence of complete windows. */
  function LongestHeader(body: seq<byte>): nat
    decreases |body|
  {
    match HeaderOf(body)
    case Ok(Some(h)) =>
      if |body| < Needed(h) then 0
      else
        var rest := LongestHeader(body[Needed(h)..]);
        if h.headerLen > rest then h.headerLen else rest
    case _ => 0
  }

  /** The bytes behind the stream header. */
  function BodyOf(stream: seq<byte>): seq<byte> {
    if |stream| < SVNDIFF_HEADER_LEN then [] else stream[SVNDIFF_HEADER_LEN..]
  }

  predicate SameOutcome(a: Fed, b: Fed) {
    && a.err.None? == b.err.None?
    && (a.err.None? ==> a.output == b.output)
  }

  // ----- the outcome of a whole body

  function Plus(v: StreamView, more: seq<byte>): StreamView {
    v.(unread := v.unread + more)
  }

  /** The output of a body that consists of complete, acceptable windows. */
  function Reference(codecs: Codecs, src: Source, v: StreamView): Option<seq<byte>>
    decreases |v.unread|
  {
    if v.unread == [] then Some([])
    else match NextOutput(codecs, src, v)
      case (v', Ok(Some(data))) => PrependTo(data, Reference(codecs, src, v'))
      case _ => None
  }

  function PrependTo(data: seq<byte>, rest: Option<seq<byte>>): Option<seq<byte>> {
    match rest case None => None case Some(r) => Some(data + r)
  }

  /** A window that is taken, or a header that is refused, is so whatever follows. */
  lemma NextExtends(codecs: Codecs, src: Source, v: StreamView, more: seq<byte>)
    requires NextOutput(codecs, src, v).1 != Ok(None)
    requires HeaderOf(v.unread) != Ok(None)
    ensures NextOutput(codecs, src, Plus(v, more)) ==
      (Plus(NextOutput(codecs, src, v).0, more), NextOutput(codecs, src, v).1)
  {
    hide WindowOutput;
    HeaderExtends(v.unread, more);
    var header := HeaderOf(v.unread);
    if header.Ok? {
      var h := header.value.value;
      if |v.unread| >= Needed(h) {
        TakeExtends(v, VersionOf(v).value, h, more);
      }
    }
  }

  lemma TakeExtends(v: StreamView, version: Version, h: WindowHeader, more: seq<byte>)
    requires 0 < h.headerLen && Needed(h) <= |v.unread|
    ensures TakeWindow(Plus(v, more), version, h) == (Plus(TakeWindow(v, version, h).0, more), TakeWindow(v, version, h).1)
  {
    var u := v.unread + more;
    assert u[Needed(h)..] == v.unread[Needed(h)..] + more;
    assert u[h.headerLen..h.headerLen + h.insLen] == v.unread[h.headerLen..h.headerLen + h.insLen];
    assert u[h.headerLen + h.insLen..Needed(h)] == v.unread[h.headerLen + h.insLen..Needed(h)];
  }

  /** A header still incomplete after `m` bytes is longer than `m`. */
  lemma PendingIsLong(s: seq<byte>, more: seq<byte>)
    requires HeaderOf(s) == Ok(None)
    requires HeaderOf(s + more).Ok? && HeaderOf(s + more).value.Some?
    ensures HeaderOf(s + more).value.value.headerLen > |s|
  {
    assert (s + more)[..|s|] == s;
    if HeaderOf(s + more).value.value.headerLen <= |s| {
      HeaderNeedsOnly(s + more, |s|);
    }
  }

  /** A first window and its effect on the longest header of what is left. */
  lemma FirstWindow(codecs: Codecs, src: Source, v: StreamView)
    requires NextOutput(codecs, src, v).1.Ok? && NextOutput(codecs, src, v).1.value.Some?
    ensures v.unread != []
    ensures HeaderOf(v.unread).Ok? && HeaderOf(v.unread).value.Some?
    ensures var h := HeaderOf(v.unread).value.value;
      && |v.unread| >= Needed(h)
      && NextOutput(codecs, src, v).0.unread == v.unread[Needed(h)..]
      && LongestHeader(v.unread) >= h.headerLen
      && LongestHeader(v.unread) >= LongestHeader(v.unread[Needed(h)..])
  {
    hide WindowOutput;
  }

  /** Draining part of a body, against the outcome of the whole. */
  lemma {:induction false} DrainAgainst(codecs: Codecs, src: Source, v: StreamView, more: seq<byte>)
    ensures var f := Drain(codecs, src, v);
      var whole := Reference(codecs, src, Plus(v, more));
      && (f.err.None? ==> NextOutput(codecs, src, f.view).1 == Ok(None)
                          && whole == PrependTo(f.output, Reference(codecs, src, Plus(f.view, more)))
                          && LongestHeader(Plus(v, more).unread) >= LongestHeader(Plus(f.view, more).unread))
      && (f.err.Some? ==> whole == None || LongestHeader(Plus(v, more).unread) > MAX_PENDING_HEADER + 1)
    decreases |v.unread|
  {
    hide WindowOutput, NextOutput, HeaderOf;
    var (v', next) := NextOutput(codecs, src, v);
    StillPending(codecs, src, v);
    if next == Ok(None) {
      NothingWritten(Reference(codecs, src, Plus(v, more)));
    } else if HeaderOf(v.unread) == Ok(None) {
      if Reference(codecs, src, Plus(v, more)).Some? {
        FirstWindow(codecs, src, Plus(v, more));
        PendingIsLong(v.unread, more);
      }
    } else {
      NextExtends(codecs, src, v, more);
      if next.Ok? {
        FirstWindow(codecs, src, Plus(v, more));
        DrainAgainst(codecs, src, v', more);
        PrependTwice(next.value.value, Drain(codecs, src, v').output, Reference(codecs, src, Plus(Drain(codecs, src, v').view, more)));
      }
    }
  }

  lemma NothingWritten(o: Option<seq<byte>>)
    ensures o == PrependTo([], o)
  {
    if o.Some? { assert [] + o.value == o.value; }
  }

  lemma PrependTwice(a: seq<byte>, b: seq<byte>, o: Option<seq<byte>>)
    ensures PrependTo(a, PrependTo(b, o)) == PrependTo(a + b, o)
  {
    if o.Some? { assert a + (b + o.value) == (a + b) + o.value; }
  }

  /** With no window to take the parser is left alone, and a pending header is only refused when long. */
  lemma StillPending(codecs: Codecs, src: Source, v: StreamView)
    ensures NextOutput(codecs, src, v).1 == Ok(None) ==> NextOutput(codecs, src, v).0 == v
    ensures NextOutput(codecs, src, v).1 != Ok(None) ==> v.unread != []
    ensures NextOutput(codecs, src, v).1 != Ok(None) && HeaderOf(v.unread) == Ok(None)
            ==> NextOutput(codecs, src, v).1.Err? && |v.unread| > MAX_PENDING_HEADER
  {
    hide WindowOutput;
  }

  // ----- the outcome of a list of chunks

  /** What feeding `rest` to a parser in state `v`, as one chunk, should come to. */
  function Goal(codecs: Codecs, src: Source, v: StreamView, rest: seq<byte>): Option<seq<byte>>
    requires |v.received| <= SVNDIFF_HEADER_LEN
  {
    if v.received + rest == [] then Some(BaseBytes(src))
    else
      var (v', err) := Pushed(v, rest);
      if err.Some? || |v'.received| < SVNDIFF_HEADER_LEN then None else Reference(codecs, src, v')
  }

  /** Header bytes and body bytes are told apart the same way however the input is cut. */
  lemma PushedSplit(v: StreamView, a: seq<byte>, b: seq<byte>)
    requires Sound(v)
    ensures Pushed(v, a).1.Some? ==> Pushed(v, a + b).1.Some?
    ensures Pushed(v, a).1.None? ==> Sound(Pushed(v, a).0) && Pushed(v, a + b) == Pushed(Pushed(v, a).0, b)
    ensures |v.received| == SVNDIFF_HEADER_LEN ==> Pushed(v, a) == (Plus(v, a), None)
  {
    hide VersionOfHeader;
    var needed := SVNDIFF_HEADER_LEN - |v.received|;
    assert v.received + a[..0] == v.received && a[0..] == a;
    if |a| < needed {
      SplitInsideHeader(v, a, b);
    } else {
      assert (a + b)[..needed] == a[..needed];
      assert v.unread + (a + b)[needed..] == (v.unread + a[needed..]) + b;
      var v1 := Pushed(v, a).0;
      assert v1.received + b[..0] == v1.received && b[0..] == b;
    }
  }

  lemma SplitInsideHeader(v: StreamView, a: seq<byte>, b: seq<byte>)
    requires Sound(v) && |v.received| + |a| < SVNDIFF_HEADER_LEN
    ensures Pushed(v, a) == (v.(received := v.received + a), None)
    ensures Pushed(v, a + b) == Pushed(v.(received := v.received + a), b)
  {
    hide VersionOfHeader;
    var needed := SVNDIFF_HEADER_LEN - |v.received|;
    var n := if |a + b| <= needed then |a + b| else needed;
    assert (a + b)[..n] == a + b[..n - |a|];
    assert v.received + (a + b)[..n] == (v.received + a) + b[..n - |a|];
    assert a[..|a|] == a && (a + b)[n..] == b[n - |a|..];
    assert v.unread == [] && v.unread + a[|a|..] == [];
  }

  /** Every list of chunks reaches the goal, or stops at a header that is too long to be cut. */
  lemma {:induction false} RunAgainst(codecs: Codecs, src: Source, v: StreamView, chunks: seq<seq<byte>>)
    requires Sound(v) && NextOutput(codecs, src, v).1 == Ok(None)
    ensures var r := Run(codecs, src, v, chunks);
      var rest := Flatten(chunks);
      && (r.err.None? ==> Goal(codecs, src, v, rest) == Some(r.output))
      && (r.err.Some? ==> Goal(codecs, src, v, rest) == None
                          || LongestHeader(Pushed(v, rest).0.unread) > MAX_PENDING_HEADER + 1)
    decreases |chunks|
  {
    hide NextOutput, Drain, LongestHeader, HeaderOf, Pushed;
    if chunks == [] {
      EndAgainst(codecs, src, v);
    } else {
      var s := Flatten(chunks[1..]);
      PushedSplit(v, chunks[0], s);
      var (v1, err) := Pushed(v, chunks[0]);
      if err.None? {
        var f := Drain(codecs, src, v1);
        PushedSplit(v1, s, []);
        if |v1.received| < SVNDIFF_HEADER_LEN {
          NoWindowBeforeHeader(codecs, src, v1);
          EmptyStays(v, chunks[0]);
          RunAgainst(codecs, src, v1, chunks[1..]);
          assert [] + Run(codecs, src, v1, chunks[1..]).output == Run(codecs, src, v1, chunks[1..]).output;
        } else {
          DrainAgainst(codecs, src, v1, s);
          if f.err.None? {
            PushedSplit(f.view, s, []);
            RunAgainst(codecs, src, f.view, chunks[1..]);
          }
          PushedCompletes(v, chunks[0], s);
        }
      } else {
        PushFailure(v, chunks[0]);
      }
    }
  }

  lemma EndAgainst(codecs: Codecs, src: Source, v: StreamView)
    requires Sound(v) && NextOutput(codecs, src, v).1 == Ok(None)
    ensures var r := FinishFeed(src, v);
      && (r.err.None? ==> Goal(codecs, src, v, []) == Some(r.output))
      && (r.err.Some? ==> Goal(codecs, src, v, []) == None)
  {
    hide NextOutput;
    assert v.received + [] == v.received && v.unread + [] == v.unread;
    assert Pushed(v, []) == (v, None);
  }

  lemma NoWindowBeforeHeader(codecs: Codecs, src: Source, v: StreamView)
    requires |v.received| < SVNDIFF_HEADER_LEN
    ensures NextOutput(codecs, src, v) == (v, Ok(None)) && Drain(codecs, src, v) == Fed(v, [], None)
  {
  }

  lemma EmptyStays(v: StreamView, a: seq<byte>)
    requires |v.received| <= SVNDIFF_HEADER_LEN && |Pushed(v, a).0.received| < SVNDIFF_HEADER_LEN
    ensures Pushed(v, a).0.received == v.received + a
  {
  }

  lemma PushFailure(v: StreamView, a: seq<byte>)
    requires |v.received| <= SVNDIFF_HEADER_LEN && Pushed(v, a).1.Some?
    ensures a != []
  {
  }

  lemma PushedCompletes(v: StreamView, a: seq<byte>, b: seq<byte>)
    requires |v.received| <= SVNDIFF_HEADER_LEN && |Pushed(v, a).0.received| == SVNDIFF_HEADER_LEN
    ensures v.received + (a + b) != []
  {
  }

  // ----- one chunk, and the cut that fails

  /** Draining a whole acceptable body leaves nothing behind. */
  lemma {:induction false} WholeDrains(codecs: Codecs, src: Source, v: StreamView)
    requires Reference(codecs, src, v).Some?
    ensures Drain(codecs, src, v).err == None && Drain(codecs, src, v).view.unread == []
    decreases |v.unread|
  {
    hide WindowOutput, HeaderOf;
    if v.unread != [] {
      hide NextOutput;
      WholeDrains(codecs, src, NextOutput(codecs, src, v).0);
    }
  }

  lemma OneChunk(codecs: Codecs, src: Source, stream: seq<byte>)
    ensures Run(codecs, src, START, [stream]).err == None <==> Goal(codecs, src, START, stream).Some?
    ensures Run(codecs, src, START, [stream]).err == None ==>
      Goal(codecs, src, START, stream) == Some(Run(codecs, src, START, [stream]).output)
  {
    hide NextOutput, Drain, Pushed, Reference;
    assert [stream][1..] == [] && stream + [] == stream;
    assert Flatten([stream]) == stream;
    NoWindowBeforeHeader(codecs, src, START);
    RunAgainst(codecs, src, START, [stream]);
    RunStep(codecs, src, START, [stream]);
    if Goal(codecs, src, START, stream).Some? {
      PushedSplit(START, stream, []);
      var v1 := Pushed(START, stream).0;
      if stream == [] {
        NothingPushed();
        NoWindowBeforeHeader(codecs, src, START);
      } else {
        WholeDrains(codecs, src, v1);
        RunStep(codecs, src, Drain(codecs, src, v1).view, []);
      }
    }
  }

  lemma NothingPushed()
    ensures Pushed(START, []) == (START, None)
  {
  }

  /** A window does not depend on the bytes behind it. */
  lemma WindowAlone(codecs: Codecs, src: Source, v: StreamView)
    requires NextOutput(codecs, src, v).1.Ok? && NextOutput(codecs, src, v).1.value.Some?
    ensures var h := HeaderOf(v.unread).value.value;
      && HeaderOf(v.unread[..Needed(h)]) == HeaderOf(v.unread)
      && NextOutput(codecs, src, v.(unread := v.unread[..Needed(h)]))
         == (NextOutput(codecs, src, v).0.(unread := []), NextOutput(codecs, src, v).1)
  {
    hide WindowOutput, HeaderOf, VersionOfHeader, TakeWindow;
    FirstWindow(codecs, src, v);
    var h := HeaderOf(v.unread).value.value;
    var cut := v.(unread := v.unread[..Needed(h)]);
    HeaderNeedsOnly(v.unread, Needed(h));
    assert cut.unread + v.unread[Needed(h)..] == v.unread;
    TakeExtends(cut, VersionOf(v).value, h, v.unread[Needed(h)..]);
  }

  /** In an acceptable body with a longer header, some prefix is refused when drained. */
  lemma {:induction false} LongCut(codecs: Codecs, src: Source, v: StreamView) returns (n: nat)
    requires Reference(codecs, src, v).Some? && LongestHeader(v.unread) > MAX_PENDING_HEADER + 1
    ensures n <= |v.unread| && Drain(codecs, src, v.(unread := v.unread[..n])).err.Some?
    decreases |v.unread|
  {
    hide NextOutput, HeaderOf;
    LongestOfNothing();
    FirstWindow(codecs, src, v);
    var h := HeaderOf(v.unread).value.value;
    if h.headerLen > MAX_PENDING_HEADER + 1 {
      n := MAX_PENDING_HEADER + 1;
      PrefixPends(v.unread, n);
      PendingRefused(codecs, src, v, v.(unread := v.unread[..n]));
    } else {
      var v' := NextOutput(codecs, src, v).0;
      var n' := LongCut(codecs, src, v');
      n := Needed(h) + n';
      var cut := v.(unread := v.unread[..Needed(h)]);
      WindowAlone(codecs, src, v);
      assert v.unread[..n] == cut.unread + v'.unread[..n'];
      NextExtends(codecs, src, cut, v'.unread[..n']);
      assert [] + v'.unread[..n'] == v'.unread[..n'];
      assert Plus(cut, v'.unread[..n']) == v.(unread := v.unread[..n]);
    }
  }

  lemma PendingRefused(codecs: Codecs, src: Source, v: StreamView, cut: StreamView)
    requires NextOutput(codecs, src, v).1.Ok? && NextOutput(codecs, src, v).1.value.Some?
    requires cut.received == v.received && HeaderOf(cut.unread) == Ok(None) && |cut.unread| > MAX_PENDING_HEADER
    ensures Drain(codecs, src, cut).err.Some?
  {
    hide WindowOutput;
  }

  lemma LongestOfNothing()
    ensures LongestHeader([]) == 0
  {
  }

  /** A proper prefix of a header is incomplete. */
  lemma PrefixPends(s: seq<byte>, n: nat)
    requires HeaderOf(s).Ok? && HeaderOf(s).value.Some? && n < HeaderOf(s).value.value.headerLen
    ensures HeaderOf(s[..n]) == Ok(None)
  {
    assert s[..n] + s[n..] == s;
    if HeaderOf(s[..n]) != Ok(None) {
      HeaderExtends(s[..n], s[n..]);
    }
  }

  /** A stream that is accepted whole and has an over-long header is refused when cut inside that header. */
  lemma SomeCutFails(codecs: Codecs, src: Source, stream: seq<byte>) returns (chunks: seq<seq<byte>>)
    requires Run(codecs, src, START, [stream]).err == None
    requires LongestHeader(BodyOf(stream)) > MAX_PENDING_HEADER + 1
    ensures Flatten(chunks) == stream && Run(codecs, src, START, chunks).err.Some?
  {
    hide NextOutput, Reference, Drain, Pushed, Run, Goal, LongestHeader, VersionOfHeader, Flatten;
    OneChunk(codecs, src, stream);
    var v1 := AcceptedStart(codecs, src, stream);
    var n := LongCut(codecs, src, v1);
    var k := SVNDIFF_HEADER_LEN + n;
    chunks := [stream[..k], stream[k..]];
    assert Flatten(chunks) == stream by {
      hide *;
      FlattenPair(stream[..k], stream[k..]);
      assert stream[..k] + stream[k..] == stream;
    }
    StartPushed(stream[..k]);
    assert stream[..k][..SVNDIFF_HEADER_LEN] == stream[..SVNDIFF_HEADER_LEN];
    assert BodyOf(stream[..k]) == BodyOf(stream)[..n];
    RunStep(codecs, src, START, chunks);
  }

  lemma AcceptedStart(codecs: Codecs, src: Source, stream: seq<byte>) returns (v1: StreamView)
    requires Goal(codecs, src, START, stream).Some? && LongestHeader(BodyOf(stream)) > 0
    ensures |stream| >= SVNDIFF_HEADER_LEN && VersionOfHeader(stream[..SVNDIFF_HEADER_LEN]).Some?
    ensures v1 == StreamView(stream[..SVNDIFF_HEADER_LEN], BodyOf(stream), 0, 0)
    ensures Reference(codecs, src, v1).Some?
  {
    hide Pushed, VersionOfHeader, Reference, LongestHeader, BodyOf;
    LongestOfNothing();
    StartPushed(stream);
    v1 := Pushed(START, stream).0;
    NothingBehindHeader(stream);
    assert START.received + stream == stream;
  }

  lemma NothingBehindHeader(stream: seq<byte>)
    ensures |stream| < SVNDIFF_HEADER_LEN ==> BodyOf(stream) == []
  {
  }

  /** A fresh parser splits its first chunk into header and body. */
  lemma StartPushed(stream: seq<byte>)
    ensures |stream| >= SVNDIFF_HEADER_LEN && VersionOfHeader(stream[..SVNDIFF_HEADER_LEN]).Some? ==>
      Pushed(START, stream) == (StreamView(stream[..SVNDIFF_HEADER_LEN], BodyOf(stream), 0, 0), None)
    ensures |stream| >= SVNDIFF_HEADER_LEN && VersionOfHeader(stream[..SVNDIFF_HEADER_LEN]).None? ==>
      Pushed(START, stream).1.Some?
    ensures |stream| < SVNDIFF_HEADER_LEN ==> Pushed(START, stream) == (StreamView(stream, [], 0, 0), None)
  {
    hide VersionOfHeader;
    if |stream| >= SVNDIFF_HEADER_LEN {
      assert START.received + stream[..SVNDIFF_HEADER_LEN] == stream[..SVNDIFF_HEADER_LEN];
      assert START.unread + stream[SVNDIFF_HEADER_LEN..] == BodyOf(stream);
    } else {
      assert START.received + stream[..|stream|] == stream;
      assert START.unread + stream[|stream|..] == [];
    }
  }

  /**
   Every way of cutting a stream has the outcome of feeding it whole, exactly when the stream is
   refused whole or none of its window headers is longer than 51 bytes.
   */
  lemma CutsAgree(codecs: Codecs, src: Source, stream: seq<byte>)
    ensures (forall chunks :: Flatten(chunks) == stream ==>
              SameOutcome(Run(codecs, src, START, chunks), Run(codecs, src, START, [stream])))
       <==> (Run(codecs, src, START, [stream]).err.Some? || LongestHeader(BodyOf(stream)) <= MAX_PENDING_HEADER + 1)
  {
    var whole := Run(codecs, src, START, [stream]);
    if whole.err == None && LongestHeader(BodyOf(stream)) > MAX_PENDING_HEADER + 1 {
      var chunks := SomeCutFails(codecs, src, stream);
      assert !SameOutcome(Run(codecs, src, START, chunks), whole);
    } else {
      forall chunks | Flatten(chunks) == stream
        ensures SameOutcome(Run(codecs, src, START, chunks), whole)
      {
        CutAgrees(codecs, src, stream, chunks);
      }
    }
  }

  lemma CutAgrees(codecs: Codecs, src: Source, stream: seq<byte>, chunks: seq<seq<byte>>)
    requires Flatten(chunks) == stream
    requires Run(codecs, src, START, [stream]).err.Some? || LongestHeader(BodyOf(stream)) <= MAX_PENDING_HEADER + 1
    ensures SameOutcome(Run(codecs, src, START, chunks), Run(codecs, src, START, [stream]))
  {
    hide NextOutput, Reference, Drain, LongestHeader, Run;
    OneChunk(codecs, src, stream);
    NoWindowBeforeHeader(codecs, src, START);
    RunAgainst(codecs, src, START, chunks);
    LongestOfNothing();
    StartPushed(stream);
  }
}
