/**
 The applier over a base file against the applier over the same base in memory. They differ on
 one point: an empty source view placed beyond the end of the base.
 */
module FileRefinement {
  import opened Bytes
  import opened SvndiffFormat
  import opened StreamParser
  import opened Sections
  import opened Applier
  import opened SplitInvariance
  import Instructions

  function Memory(file: Option<seq<byte>>): Source {
    InMemory(BaseBytes(FileBacked(file)))
  }

  predicate InBase(h: WindowHeader, baseLen: nat) {
    h.sviewLen == 0 ==> h.sviewOffset <= baseLen
  }

  /** No window places an empty source view beyond the end of the base. */
  predicate EmptyViewsInBase(body: seq<byte>, baseLen: nat)
    decreases |body|
  {
    match HeaderOf(body)
    case Ok(Some(h)) =>
      |body| < Needed(h) || (InBase(h, baseLen) && EmptyViewsInBase(body[Needed(h)..], baseLen))
    case _ => true
  }

  lemma WindowRefines(codecs: Codecs, file: Option<seq<byte>>, w: ParsedWindow)
    ensures WindowOutput(codecs, Memory(file), w).Ok? ==>
      WindowOutput(codecs, FileBacked(file), w) == WindowOutput(codecs, Memory(file), w)
      && InBase(w.header, |BaseBytes(FileBacked(file))|)
    ensures WindowOutput(codecs, FileBacked(file), w).Ok? && WindowOutput(codecs, Memory(file), w).Err? ==>
      !InBase(w.header, |BaseBytes(FileBacked(file))|)
  {
    hide DecodedSection, Instructions.WindowResult;
    var base, h := BaseBytes(FileBacked(file)), w.header;
    if h.sviewLen == 0 && h.sviewOffset <= |base| {
      assert base[h.sviewOffset..h.sviewOffset + h.sviewLen] == [];
    }
  }

  lemma NextRefines(codecs: Codecs, file: Option<seq<byte>>, v: StreamView)
    ensures var m := NextOutput(codecs, Memory(file), v);
      var f := NextOutput(codecs, FileBacked(file), v);
      && m.0 == f.0
      && (m.1.Ok? ==> f.1 == m.1)
      && (f.1 == Ok(None) ==> m.1 == Ok(None))
      && (f.1.Ok? && f.1.value.Some? ==>
            HeaderOf(v.unread).Ok? && HeaderOf(v.unread).value.Some?
            && (m.1.Ok? <==> InBase(HeaderOf(v.unread).value.value, |BaseBytes(FileBacked(file))|)))
  {
    hide HeaderOf, WindowOutput, InBase;
    var next := Next(v);
    if next.1.Ok? && next.1.value.Some? {
      WindowRefines(codecs, file, next.1.value.value);
    }
  }

  /** The body bytes a parser in state `v` still has to go through when `rest` arrives. */
  function BodyAhead(v: StreamView, rest: seq<byte>): seq<byte>
    requires |v.received| <= SVNDIFF_HEADER_LEN
  {
    Pushed(v, rest).0.unread
  }

  lemma {:induction false} DrainRefines(codecs: Codecs, file: Option<seq<byte>>, v: StreamView, more: seq<byte>)
    ensures var m := Drain(codecs, Memory(file), v);
      var f := Drain(codecs, FileBacked(file), v);
      var n := |BaseBytes(FileBacked(file))|;
      && (m.err == None ==> f == m)
      && (f.err == None && m.err == None ==>
            (EmptyViewsInBase(v.unread + more, n) <==> EmptyViewsInBase(f.view.unread + more, n)))
      && (f.err == None && m.err.Some? ==> !EmptyViewsInBase(v.unread + more, n))
    decreases |v.unread|
  {
    hide NextOutput, HeaderOf, InBase;
    NextRefines(codecs, file, v);
    StillPending(codecs, FileBacked(file), v);
    var (v', next) := NextOutput(codecs, FileBacked(file), v);
    if next.Ok? && next.value.Some? {
      FirstWindow(codecs, FileBacked(file), v);
      var h := HeaderOf(v.unread).value.value;
      HeaderExtends(v.unread, more);
      assert (v.unread + more)[Needed(h)..] == v'.unread + more;
      DrainRefines(codecs, file, v', more);
    }
  }

  lemma {:induction false} RunRefines(codecs: Codecs, file: Option<seq<byte>>, v: StreamView, chunks: seq<seq<byte>>)
    requires Sound(v) && NextOutput(codecs, FileBacked(file), v).1 == Ok(None)
    ensures var m := Run(codecs, Memory(file), v, chunks);
      var f := Run(codecs, FileBacked(file), v, chunks);
      && (m.err == None ==> f == m)
      && (f.err == None ==>
            (m.err == None <==> EmptyViewsInBase(BodyAhead(v, Flatten(chunks)), |BaseBytes(FileBacked(file))|)))
    decreases |chunks|
  {
    hide NextOutput, Drain, Pushed, EmptyViewsInBase;
    if chunks == [] {
      NothingAhead(v);
      NoWindowsInNothing(|BaseBytes(FileBacked(file))|);
    } else {
      var s := Flatten(chunks[1..]);
      PushedSplit(v, chunks[0], s);
      var (v1, err) := Pushed(v, chunks[0]);
      if err.None? {
        DrainRefines(codecs, file, v1, s);
        DrainAgainst(codecs, FileBacked(file), v1, s);
        PushedSplit(v1, s, []);
        var f := Drain(codecs, FileBacked(file), v1);
        if |v1.received| < SVNDIFF_HEADER_LEN {
          NoWindowBeforeHeader(codecs, FileBacked(file), v1);
          NoWindowBeforeHeader(codecs, Memory(file), v1);
        }
        if f.err == None {
          PushedSplit(f.view, s, []);
          RunRefines(codecs, file, f.view, chunks[1..]);
        }
      }
    }
  }

  lemma NothingAhead(v: StreamView)
    requires Sound(v)
    ensures BodyAhead(v, []) == v.unread
  {
    assert v.unread + [] == v.unread;
  }

  lemma NoWindowsInNothing(n: nat)
    ensures EmptyViewsInBase([], n)
  {
  }

  /**
   Whenever the in-memory applier succeeds, the file-backed one writes the same bytes; and when the
   file-backed one succeeds, the in-memory one does too exactly if no window has an empty source
   view beyond the base.
   */
  lemma FileRefinesMemory(codecs: Codecs, file: Option<seq<byte>>, chunks: seq<seq<byte>>)
    ensures var m := Run(codecs, Memory(file), START, chunks);
      var f := Run(codecs, FileBacked(file), START, chunks);
      && (m.err == None ==> f == m)
      && (f.err == None ==>
            (m.err == None <==> EmptyViewsInBase(BodyOf(Flatten(chunks)), |BaseBytes(FileBacked(file))|)))
  {
    hide EmptyViewsInBase, Run, NextOutput, Pushed;
    NoWindowBeforeHeader(codecs, FileBacked(file), START);
    RunRefines(codecs, file, START, chunks);
    StartPushed(Flatten(chunks));
    NoWindowsInNothing(|BaseBytes(FileBacked(file))|);
    if Run(codecs, FileBacked(file), START, chunks).err == None {
      RunAgainst(codecs, FileBacked(file), START, chunks);
    }
  }
}
