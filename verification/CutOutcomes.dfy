/**
 Refused streams too: without over-long headers every cut stops with the same error, and has written
 the same bytes by then.
 */
module CutOutcomes {
  import opened Bytes
  import opened SvndiffFormat
  import opened StreamParser
  import opened Sections
  import opened Applier
  import opened SplitInvariance

  type Outcome = (Option<DeltaError>, seq<byte>)

  function OutcomeOf(f: Fed): Outcome {
    (f.err, f.output)
  }

  function Behind(written: seq<byte>, o: Outcome): Outcome {
    (o.0, written + o.1)
  }

  /** The longest complete window header, the last one included when its window is cut short or refused. */
  function LongestSeen(body: seq<byte>): nat
    decreases |body|
  {
    match Uints(body, 5)
    case None => 0
    case Some((_, used)) =>
      match HeaderOf(body)
      case Ok(Some(h)) =>
        if |body| < Needed(h) then used
        else
          var rest := LongestSeen(body[Needed(h)..]);
          if used > rest then used else rest
      case _ => used
  }

  /** What becomes of the unread bytes when nothing else arrives. */
  function Ending(codecs: Codecs, src: Source, v: StreamView): Outcome
    requires |v.received| <= SVNDIFF_HEADER_LEN
  {
    var f := Drain(codecs, src, v);
    if f.err.Some? then OutcomeOf(f) else Behind(f.output, OutcomeOf(FinishFeed(src, f.view)))
  }

  /** The outcome of `rest` in one piece. */
  function Whole(codecs: Codecs, src: Source, v: StreamView, rest: seq<byte>): Outcome
    requires |v.received| <= SVNDIFF_HEADER_LEN
  {
    match Pushed(v, rest)
    case (_, Some(e)) => (Some(e), [])
    case (v', None) => Ending(codecs, src, v')
  }

  // ----- draining part of a body

  lemma EndingUnfolds(codecs: Codecs, src: Source, v: StreamView)
    requires |v.received| <= SVNDIFF_HEADER_LEN
    ensures match NextOutput(codecs, src, v)
      case (v', Err(e)) => Ending(codecs, src, v) == (Some(e), [])
      case (v', Ok(None)) => Ending(codecs, src, v) == OutcomeOf(FinishFeed(src, v'))
      case (v', Ok(Some(data))) => Ending(codecs, src, v) == Behind(data, Ending(codecs, src, v'))
  {
    hide NextOutput;
    match NextOutput(codecs, src, v)
    case (_, Err(_)) =>
    case (v', Ok(None)) =>
      assert [] + FinishFeed(src, v').output == FinishFeed(src, v').output;
    case (v', Ok(Some(data))) =>
      var f := Drain(codecs, src, v');
      assert data + (f.output + FinishFeed(src, f.view).output) == (data + f.output) + FinishFeed(src, f.view).output;
  }

  /** A header that completes behind a pending part is longer than that part. */
  lemma CompletedIsLong(s: seq<byte>, more: seq<byte>)
    requires HeaderOf(s) == Ok(None) && HeaderOf(s + more) != Ok(None)
    ensures LongestSeen(s + more) > |s|
  {
    hide Uints;
    var used := Uints(s + more, 5).value.1;
    assert (s + more)[..|s|] == s;
    if used <= |s| {
      UintsNeedOnly(s + more, 5, |s|);
    }
  }

  lemma SeenGoesOn(codecs: Codecs, src: Source, v: StreamView)
    requires NextOutput(codecs, src, v).1.Ok? && NextOutput(codecs, src, v).1.value.Some?
    ensures LongestSeen(v.unread) >= LongestSeen(NextOutput(codecs, src, v).0.unread)
  {
    hide WindowOutput, Uints;
  }

  lemma HeaderStaysRefused(codecs: Codecs, src: Source, v: StreamView, more: seq<byte>)
    requires NextOutput(codecs, src, v).1 != Ok(None) && HeaderOf(v.unread) == Ok(None)
    requires HeaderOf(v.unread + more) == Ok(None)
    ensures NextOutput(codecs, src, Plus(v, more)).1 == NextOutput(codecs, src, v).1
    ensures NextOutput(codecs, src, v).1.Err?
  {
    hide WindowOutput, HeaderOf;
  }

  /** Draining what has arrived and then the rest comes to the same as draining it all. */
  lemma {:induction false} DrainThenRest(codecs: Codecs, src: Source, v: StreamView, more: seq<byte>)
    requires |v.received| <= SVNDIFF_HEADER_LEN && LongestSeen(v.unread + more) <= MAX_PENDING_HEADER + 1
    ensures var f := Drain(codecs, src, v);
      if f.err.Some? then Ending(codecs, src, Plus(v, more)) == OutcomeOf(f)
      else
        && Ending(codecs, src, Plus(v, more)) == Behind(f.output, Ending(codecs, src, Plus(f.view, more)))
        && LongestSeen(f.view.unread + more) <= MAX_PENDING_HEADER + 1
        && NextOutput(codecs, src, f.view).1 == Ok(None)
    decreases |v.unread|
  {
    hide NextOutput, HeaderOf, LongestSeen, Ending;
    var (v', next) := NextOutput(codecs, src, v);
    StillPending(codecs, src, v);
    EndingUnfolds(codecs, src, Plus(v, more));
    if next == Ok(None) {
      var e := Ending(codecs, src, Plus(v, more));
      assert [] + e.1 == e.1;
    } else if HeaderOf(v.unread) == Ok(None) {
      if HeaderOf(v.unread + more) != Ok(None) {
        CompletedIsLong(v.unread, more);
      }
      HeaderStaysRefused(codecs, src, v, more);
    } else {
      NextExtends(codecs, src, v, more);
      if next.Ok? {
        SeenGoesOn(codecs, src, Plus(v, more));
        DrainThenRest(codecs, src, v', more);
        var f := Drain(codecs, src, v');
        if f.err.None? {
          var e := Ending(codecs, src, Plus(f.view, more));
          assert next.value.value + (f.output + e.1) == (next.value.value + f.output) + e.1;
        }
      }
    }
  }

  // ----- chunks

  lemma SameRefusal(v: StreamView, a: seq<byte>, b: seq<byte>)
    requires |v.received| <= SVNDIFF_HEADER_LEN && Pushed(v, a).1.Some? && Pushed(v, b).1.Some?
    ensures Pushed(v, a).1 == Pushed(v, b).1
  {
  }

  lemma {:induction false} ChunksAgree(codecs: Codecs, src: Source, v: StreamView, chunks: seq<seq<byte>>)
    requires Sound(v) && NextOutput(codecs, src, v).1 == Ok(None)
    requires LongestSeen(Pushed(v, Flatten(chunks)).0.unread) <= MAX_PENDING_HEADER + 1
    ensures OutcomeOf(Run(codecs, src, v, chunks)) == Whole(codecs, src, v, Flatten(chunks))
    decreases |chunks|
  {
    hide NextOutput, Drain, LongestSeen, HeaderOf, Pushed, Ending, Finished, Run;
    RunStep(codecs, src, v, chunks);
    if chunks == [] {
      StillPending(codecs, src, v);
      EndingUnfolds(codecs, src, v);
      PushedNothing(v);
    } else {
      var a, s := chunks[0], Flatten(chunks[1..]);
      PushedSplit(v, a, s);
      var (v1, err) := Pushed(v, a);
      if err.Some? {
        SameRefusal(v, a, a + s);
      } else if |v1.received| < SVNDIFF_HEADER_LEN {
        NoWindowBeforeHeader(codecs, src, v1);
        ChunksAgree(codecs, src, v1, chunks[1..]);
        var r := Run(codecs, src, v1, chunks[1..]);
        assert [] + r.output == r.output;
      } else {
        PushedSplit(v1, s, []);
        DrainThenRest(codecs, src, v1, s);
        var f := Drain(codecs, src, v1);
        if f.err.None? {
          PushedSplit(f.view, s, []);
          ChunksAgree(codecs, src, f.view, chunks[1..]);
        }
      }
    }
  }

  lemma PushedNothing(v: StreamView)
    requires |v.received| <= SVNDIFF_HEADER_LEN && Sound(v)
    ensures Pushed(v, []) == (v, None)
  {
    assert v.received + [] == v.received && v.unread + [] == v.unread;
  }

  /**
   Without a header over 51 bytes, the last complete one counted too, every cut of a stream comes to
   the same end: the same success or the same error, and the same bytes written before it.
   */
  lemma EveryCutEndsAlike(codecs: Codecs, src: Source, stream: seq<byte>, chunks: seq<seq<byte>>)
    requires Flatten(chunks) == stream && LongestSeen(BodyOf(stream)) <= MAX_PENDING_HEADER + 1
    ensures var whole := Run(codecs, src, START, [stream]);
      var cut := Run(codecs, src, START, chunks);
      cut.err == whole.err && cut.output == whole.output
  {
    hide NextOutput, LongestSeen, Run, Whole, Ending;
    StartPushed(stream);
    NoWindowBeforeHeader(codecs, src, START);
    NothingSeen();
    FlattenOne(stream);
    if Pushed(START, stream).1.Some? {
      RefusedUnread(START, stream);
    }
    ChunksAgree(codecs, src, START, chunks);
    ChunksAgree(codecs, src, START, [stream]);
  }

  lemma RefusedUnread(v: StreamView, a: seq<byte>)
    requires |v.received| <= SVNDIFF_HEADER_LEN && Pushed(v, a).1.Some?
    ensures Pushed(v, a).0.unread == v.unread
  {
  }

  lemma NothingSeen()
    ensures LongestSeen([]) == 0
  {
  }
}
