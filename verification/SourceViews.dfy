/** Deltas with source views: which lists of windows a stream may carry over a base, and what they make of it. */
module SourceViews {
  import opened Bytes
  import opened SvndiffFormat
  import opened StreamParser
  import opened Sections
  import opened Applier
  import opened SplitInvariance
  import opened Instructions
  import opened Encoder
  import opened RoundTrip
  import Base128

  /** A window: `len` bytes of the base from `off` on, operations over them, and new data. */
  datatype Win = Win(off: nat, len: nat, ops: seq<Op>, newData: seq<byte>)

  // ----- windows on the wire

  /** A selector: the action in the two high bits, and the length below it or behind it. */
  function Selector(action: byte, len: nat): seq<byte>
    requires action in {0, 64, 128}
  {
    if 0 < len < 64 then [action + len] else [action] + Base128.EncodedUint(len)
  }

  /** Copies from the source view are action 0, copies within the target action 1, new data action 2. */
  function EncodedOp(op: Op): seq<byte> {
    match op
    case CopySource(off, len) => Selector(0, len) + Base128.EncodedUint(off)
    case CopyTarget(off, len) => Selector(64, len) + Base128.EncodedUint(off)
    case CopyNew(len) => Selector(128, len)
  }

  function EncodedOps(ops: seq<Op>): seq<byte> {
    if ops == [] then [] else EncodedOp(ops[0]) + EncodedOps(ops[1..])
  }

  /** View offset, view length, target length, the lengths of the two sections, and the sections. */
  function WindowBytes(codecs: Codecs, version: Version, level: nat, w: Win): seq<byte> {
    var ins := EncodedSection(codecs, version, level, EncodedOps(w.ops));
    var data := EncodedSection(codecs, version, level, w.newData);
    EncodedUints([w.off, w.len, TotalLen(w.ops), |ins|, |data|]) + ins + data
  }

  function WindowsBytes(codecs: Codecs, version: Version, level: nat, wins: seq<Win>): seq<byte> {
    if wins == [] then [] else WindowBytes(codecs, version, level, wins[0]) + WindowsBytes(codecs, version, level, wins[1..])
  }

  /** The stream: `SVN`, the version, and the windows. */
  function DeltaStream(codecs: Codecs, version: Version, level: nat, wins: seq<Win>): seq<byte> {
    [83, 86, 78, match version case V0 => 0 case V1 => 1 case V2 => 2] + WindowsBytes(codecs, version, level, wins)
  }

  /** The numbers fit the wire; an operation of no length has no wire form. */
  ghost predicate Expressible(w: Win) {
    && w.off < TWO_64 && w.len < TWO_64 && TotalLen(w.ops) < TWO_64
    && |w.newData| < MAX_SLICE_LEN && |EncodedOps(w.ops)| < MAX_SLICE_LEN
    && forall k :: 0 <= k < |w.ops| ==> ExpressibleOp(w.ops[k])
  }

  predicate ExpressibleOp(op: Op) {
    0 < op.len < TWO_64 && (op.CopyNew? || op.offset < TWO_64)
  }

  // ----- what a window is allowed and what it yields

  /** The view lies in the base; a file-backed base does not mind where an empty view is. */
  predicate InBase(src: Source, w: Win) {
    match src
    case InMemory(base) => w.off + w.len <= |base|
    case FileBacked(None) => w.len == 0
    case FileBacked(Some(data)) => w.len == 0 || w.off + w.len <= |data|
  }

  function ViewOf(src: Source, w: Win): seq<byte>
    requires InBase(src, w)
  {
    match src
    case InMemory(base) => base[w.off..w.off + w.len]
    case FileBacked(None) => []
    case FileBacked(Some(data)) => if w.len == 0 then [] else data[w.off..w.off + w.len]
  }

  /** At most 64 KiB of view and of target, the view in the base, and a valid program for it. */
  predicate Allowed(src: Source, w: Win) {
    w.len <= 65536 && TotalLen(w.ops) <= 65536 && InBase(src, w) && ValidProgram(w.ops, w.len, TotalLen(w.ops), |w.newData|)
  }

  /** A view that is not empty neither starts nor ends before the view ahead of it. */
  predicate Slides(off: nat, len: nat, w: Win) {
    w.len > 0 ==> off <= w.off && off + len <= w.off + w.len
  }

  predicate AllAllowed(src: Source, wins: seq<Win>) {
    && (forall k :: 0 <= k < |wins| ==> Allowed(src, wins[k]))
    && (forall k :: 0 < k < |wins| ==> Slides(wins[k - 1].off, wins[k - 1].len, wins[k]))
  }

  function Output(src: Source, w: Win): seq<byte>
    requires Allowed(src, w)
  {
    Meaning(w.ops, ViewOf(src, w), w.newData)
  }

  function Outputs(src: Source, wins: seq<Win>): seq<byte>
    requires forall k :: 0 <= k < |wins| ==> Allowed(src, wins[k])
  {
    if wins == [] then [] else Output(src, wins[0]) + Outputs(src, wins[1..])
  }

  // ----- operations read back

  lemma SelectorReads(action: byte, len: nat, rest: seq<byte>)
    requires action in {0, 64, 128} && 0 < len < TWO_64
    ensures Selector(action, len) != [] && Selector(action, len)[0] / 64 == action / 64
    ensures ReadLength(Selector(action, len) + rest) == Ok((len, rest))
  {
    hide Base128.DecodedUint, Base128.EncodedUint;
    var s := Selector(action, len) + rest;
    if len < 64 {
      assert s == [action + len] + rest && s[1..] == rest;
    } else {
      var e := Base128.EncodedUint(len);
      Regroup([action], e, rest);
      assert s == [action] + (e + rest) && s[1..] == e + rest;
      Base128.UintRoundTrip(len, rest);
      assert s[1 + |e|..] == rest by { BehindFront(e, rest); assert s[1..][|e|..] == s[1 + |e|..]; }
    }
  }

  lemma OpReads(op: Op, rest: seq<byte>)
    requires ExpressibleOp(op)
    ensures EncodedOp(op) != [] && FirstOp(EncodedOp(op) + rest) == Some((op, rest))
  {
    hide Base128.DecodedUint, Base128.EncodedUint, Selector, ReadLength;
    match op
    case CopyNew(len) => SelectorReads(128, len, rest);
    case CopySource(off, len) => CopyReads(0, off, len, rest);
    case CopyTarget(off, len) => CopyReads(64, off, len, rest);
  }

  lemma CopyReads(action: byte, off: nat, len: nat, rest: seq<byte>)
    requires action in {0, 64} && 0 < len < TWO_64 && off < TWO_64
    ensures var s := Selector(action, len) + Base128.EncodedUint(off) + rest;
      && Selector(action, len) != []
      && FirstOp(s) == Some((if action == 0 then CopySource(off, len) else CopyTarget(off, len), rest))
  {
    hide Base128.DecodedUint, Base128.EncodedUint, Selector, ReadLength;
    var e := Base128.EncodedUint(off);
    Regroup(Selector(action, len), e, rest);
    SelectorReads(action, len, e + rest);
    Base128.UintRoundTrip(off, rest);
    BehindFront(e, rest);
    var s := Selector(action, len) + (e + rest);
    assert s[0] == Selector(action, len)[0];
  }

  /** The operations are read back as they were written. */
  lemma {:induction false} OpsReadBack(ops: seq<Op>)
    requires forall k :: 0 <= k < |ops| ==> ExpressibleOp(ops[k])
    ensures Disassemble(EncodedOps(ops)) == Some(ops)
  {
    hide EncodedOp, FirstOp, ExpressibleOp;
    if ops != [] {
      OpReads(ops[0], EncodedOps(ops[1..]));
      OpsReadBack(ops[1..]);
      assert [ops[0]] + ops[1..] == ops;
    }
  }

  // ----- lengths

  lemma OpLength(op: Op)
    requires ExpressibleOp(op) && op.len <= 65536
    ensures |EncodedOp(op)| <= 14
  {
    hide Base128.EncodedUint;
    Base128.Pow128Values();
    Base128.EncodedLength(op.len, 3);
    if !op.CopyNew? { Base128.UintLength(op.offset); }
  }

  lemma {:induction false} OpsLength(ops: seq<Op>)
    requires (forall k :: 0 <= k < |ops| ==> ExpressibleOp(ops[k])) && TotalLen(ops) <= 65536
    ensures |EncodedOps(ops)| <= 14 * TotalLen(ops)
  {
    hide EncodedOp;
    if ops != [] {
      OpLength(ops[0]);
      OpsLength(ops[1..]);
    }
  }

  lemma {:induction false} NewAtMostTotal(ops: seq<Op>)
    ensures NewLen(ops) <= TotalLen(ops)
  {
    if ops != [] {
      NewAtMostTotal(ops[1..]);
    }
  }

  // ----- one window

  function WinFields(codecs: Codecs, version: Version, level: nat, w: Win): seq<nat> {
    [w.off, w.len, TotalLen(w.ops), |EncodedSection(codecs, version, level, EncodedOps(w.ops))|,
     |EncodedSection(codecs, version, level, w.newData)|]
  }

  lemma FieldsFit(codecs: Codecs, version: Version, level: nat, w: Win)
    requires Expressible(w)
    ensures forall k :: 0 <= k < 5 ==> WinFields(codecs, version, level, w)[k] < TWO_64
    ensures WinFields(codecs, version, level, w)[3] <= |EncodedOps(w.ops)| + 10
    ensures WinFields(codecs, version, level, w)[4] <= |w.newData| + 10
    ensures |EncodedUints(WinFields(codecs, version, level, w))| <= MAX_PENDING_HEADER
  {
    hide EncodedSection, EncodedUints, EncodedOps;
    SectionLength(codecs, version, level, EncodedOps(w.ops));
    SectionLength(codecs, version, level, w.newData);
    UintsShort(WinFields(codecs, version, level, w));
  }

  lemma WinHeader(codecs: Codecs, version: Version, level: nat, w: Win, rest: seq<byte>)
    requires Expressible(w)
    ensures var fields := WinFields(codecs, version, level, w);
      && (forall k :: 0 <= k < 5 ==> fields[k] < TWO_64)
      && HeaderOf(WindowBytes(codecs, version, level, w) + rest)
         == (match CheckedHeader(fields, |EncodedUints(fields)|) case Err(e) => Err(e) case Ok(h) => Ok(Some(h)))
  {
    hide EncodedSection, Uints, EncodedUints, CheckedHeader;
    FieldsFit(codecs, version, level, w);
    var fields := WinFields(codecs, version, level, w);
    var ins := EncodedSection(codecs, version, level, EncodedOps(w.ops));
    var data := EncodedSection(codecs, version, level, w.newData);
    Regroup(EncodedUints(fields) + ins, data, rest);
    Regroup(EncodedUints(fields), ins, data + rest);
    UintsRoundTrip(fields, ins + (data + rest));
  }

  /** An allowed window has an acceptable header. */
  lemma AllowedHeader(codecs: Codecs, src: Source, version: Version, level: nat, w: Win, n: nat)
    requires Expressible(w) && Allowed(src, w) && |BaseBytes(src)| < TWO_64
    ensures var fields := WinFields(codecs, version, level, w);
      && (forall k :: 0 <= k < 5 ==> fields[k] < TWO_64)
      && CheckedHeader(fields, n) == Ok(WindowHeader(w.off, w.len, TotalLen(w.ops), fields[3], fields[4], n))
  {
    hide EncodedSection, EncodedUints, EncodedOps;
    FieldsFit(codecs, version, level, w);
    OpsLength(w.ops);
    NewAtMostTotal(w.ops);
  }

  /** A section is read as its data or refused, and never refused within the limit. */
  lemma SectionReads(codecs: Codecs, version: Version, level: nat, data: seq<byte>, limit: nat)
    requires Faithful(codecs) && |data| < MAX_SLICE_LEN && limit < TWO_64
    ensures var r := DecodedSection(codecs, version, EncodedSection(codecs, version, level, data), limit);
      && (r.Ok? ==> r.value == data) && (|data| <= limit ==> r == Ok(data))
  {
    hide Faithful, EncodedSection;
    if |data| <= limit {
      SectionRoundTrip(codecs, version, level, data, limit);
    } else {
      SectionOver(codecs, version, level, data, limit);
    }
  }

  lemma SectionOver(codecs: Codecs, version: Version, level: nat, data: seq<byte>, limit: nat)
    requires |data| < MAX_SLICE_LEN && |data| > limit
    ensures var r := DecodedSection(codecs, version, EncodedSection(codecs, version, level, data), limit);
      r.Ok? ==> r.value == data
  {
    hide Base128.DecodedUint, Base128.EncodedUint;
    if version != V0 {
      var prefix := Base128.EncodedUint(|data|);
      var wire := EncodedSection(codecs, version, level, data);
      assert wire == prefix + wire[|prefix|..];
      Base128.UintRoundTrip(|data|, wire[|prefix|..]);
    }
  }

  lemma ViewReads(src: Source, w: Win, h: WindowHeader)
    requires h.sviewOffset == w.off && h.sviewLen == w.len
    ensures SourceView(src, h).Ok? <==> InBase(src, w)
    ensures InBase(src, w) ==> SourceView(src, h) == Ok(ViewOf(src, w)) && |ViewOf(src, w)| == w.len
  {
  }

  /** The target of a parsed window: what its operations mean, if the view is in the base and the program valid. */
  lemma WindowYields(codecs: Codecs, src: Source, version: Version, level: nat, w: Win, h: WindowHeader)
    requires Faithful(codecs) && Expressible(w)
    requires h.sviewOffset == w.off && h.sviewLen == w.len && h.tviewLen == TotalLen(w.ops)
    requires w.len <= 65536 && TotalLen(w.ops) <= 65536
    ensures var r := WindowOutput(codecs, src, ParsedWindow(version, h, EncodedSection(codecs, version, level, EncodedOps(w.ops)),
                                                            EncodedSection(codecs, version, level, w.newData)));
      && (r.Ok? <==> Allowed(src, w)) && (Allowed(src, w) ==> r == Ok(Output(src, w)))
  {
    hide Faithful, EncodedSection, DecodedSection, EncodedOps, SourceView, ViewOf, WindowResult, ValidProgram, Meaning, Disassemble;
    SectionReads(codecs, version, level, EncodedOps(w.ops), MAX_INSTRUCTION_SECTION_LEN);
    SectionReads(codecs, version, level, w.newData, DELTA_WINDOW_MAX);
    ViewReads(src, w, h);
    OpsReadBack(w.ops);
    if InBase(src, w) {
      WindowMeaning(ViewOf(src, w), TotalLen(w.ops), EncodedOps(w.ops), w.newData);
    }
    if Allowed(src, w) {
      OpsLength(w.ops);
      NewAtMostTotal(w.ops);
      ValidNew(w.ops, w.len, TotalLen(w.ops), |w.newData|);
    }
  }

  lemma ValidNew(ops: seq<Op>, sourceLen: nat, tviewLen: nat, newLen: nat)
    requires ValidProgram(ops, sourceLen, tviewLen, newLen)
    ensures newLen == NewLen(ops)
  {
  }

  lemma RefusedHeader(codecs: Codecs, src: Source, v: StreamView)
    requires VersionOf(v).Some? && HeaderOf(v.unread).Err?
    ensures NextOutput(codecs, src, v).1.Err?
  {
    hide WindowOutput;
  }

  /** A complete window is refused for its view, or taken and applied. */
  lemma TakenWindow(codecs: Codecs, src: Source, v: StreamView, h: WindowHeader, ins: seq<byte>, data: seq<byte>, head: seq<byte>, rest: seq<byte>)
    requires VersionOf(v).Some? && HeaderOf(v.unread) == Ok(Some(h)) && v.unread == head + (ins + (data + rest))
    requires |head| == h.headerLen && |ins| == h.insLen && |data| == h.newLen && h.headerLen > 0
    ensures var w := Win(h.sviewOffset, h.sviewLen, [], []);
      NextOutput(codecs, src, v) ==
      if !Slides(v.lastOffset, v.lastLen, w) then (v.(unread := rest), Err(BackwardsSlidingView))
      else match WindowOutput(codecs, src, ParsedWindow(VersionOf(v).value, h, ins, data))
        case Err(e) => (StreamView(v.received, rest, h.sviewOffset, h.sviewLen), Err(e))
        case Ok(out) => (StreamView(v.received, rest, h.sviewOffset, h.sviewLen), Ok(Some(out)))
  {
    hide WindowOutput, HeaderOf;
    CutApart3(head, ins, data, rest);
  }

  lemma CutApart3(head: seq<byte>, ins: seq<byte>, data: seq<byte>, rest: seq<byte>)
    ensures var s := head + (ins + (data + rest));
      && |s| >= |head| + |ins| + |data| && s[|head|..|head| + |ins|] == ins
      && s[|head| + |ins|..|head| + |ins| + |data|] == data && s[|head| + |ins| + |data|..] == rest
  {
  }

  /** A short header stands in front, and `rest` behind its window. */
  ghost predicate ShortHeader(s: seq<byte>, rest: seq<byte>) {
    && s != [] && HeaderOf(s).Ok? && HeaderOf(s).value.Some?
    && var h := HeaderOf(s).value.value;
    h.headerLen <= MAX_PENDING_HEADER && Needed(h) <= |s| && s[Needed(h)..] == rest
  }

  lemma ShortFirst(s: seq<byte>, rest: seq<byte>)
    requires ShortHeader(s, rest) && LongestHeader(rest) <= MAX_PENDING_HEADER
    ensures LongestHeader(s) <= MAX_PENDING_HEADER
  {
    hide HeaderOf;
  }

  /** The first window of a stream: taken with its meaning when it is allowed and slides on, and refused otherwise. */
  lemma WindowStep(codecs: Codecs, src: Source, v: StreamView, level: nat, w: Win, rest: seq<byte>)
    requires Faithful(codecs) && Expressible(w) && |BaseBytes(src)| < TWO_64
    requires VersionOf(v).Some? && v.unread == WindowBytes(codecs, VersionOf(v).value, level, w) + rest
    ensures if Allowed(src, w) && Slides(v.lastOffset, v.lastLen, w)
            then NextOutput(codecs, src, v) == (StreamView(v.received, rest, w.off, w.len), Ok(Some(Output(src, w))))
            else NextOutput(codecs, src, v).1.Err?
    ensures Allowed(src, w) ==> ShortHeader(v.unread, rest)
  {
    hide Faithful, Expressible, EncodedSection, EncodedUints, EncodedOps, HeaderOf, WindowOutput, NextOutput, Allowed, CheckedHeader, Output;
    var version := VersionOf(v).value;
    WinHeader(codecs, version, level, w, rest);
    FieldsFit(codecs, version, level, w);
    var fields := WinFields(codecs, version, level, w);
    var head := EncodedUints(fields);
    var ins := EncodedSection(codecs, version, level, EncodedOps(w.ops));
    var data := EncodedSection(codecs, version, level, w.newData);
    Regroup(head + ins, data, rest);
    Regroup(head, ins, data + rest);
    CutApart3(head, ins, data, rest);
    if Allowed(src, w) { AllowedHeader(codecs, src, version, level, w, |head|); }
    var checked := CheckedHeader(fields, |head|);
    if checked.Err? {
      RefusedHeader(codecs, src, v);
    } else {
      CheckedIs(fields, |head|);
      TakenWindow(codecs, src, v, checked.value, ins, data, head, rest);
      WindowYields(codecs, src, version, level, w, checked.value);
    }
  }

  lemma CheckedIs(fields: seq<u64>, n: nat)
    requires |fields| == 5 && CheckedHeader(fields, n).Ok?
    ensures CheckedHeader(fields, n) == Ok(WindowHeader(fields[0], fields[1], fields[2], fields[3], fields[4], n))
    ensures fields[1] <= 65536 && fields[2] <= 65536
  {
  }

  // ----- many windows

  /** From a view on, every window is allowed and slides on. */
  predicate AllowedFrom(src: Source, off: nat, len: nat, wins: seq<Win>)
    decreases |wins|
  {
    wins == [] || (Allowed(src, wins[0]) && Slides(off, len, wins[0]) && AllowedFrom(src, wins[0].off, wins[0].len, wins[1..]))
  }

  lemma {:induction false} AllowedFromIs(src: Source, off: nat, len: nat, wins: seq<Win>)
    ensures AllowedFrom(src, off, len, wins) <==> AllAllowed(src, wins) && (wins != [] ==> Slides(off, len, wins[0]))
    decreases |wins|
  {
    hide Allowed, Slides;
    if wins != [] {
      var rest := wins[1..];
      AllowedFromIs(src, wins[0].off, wins[0].len, rest);
      assert wins == [wins[0]] + rest;
      AllAllowedSplit(src, wins[0], rest);
    }
  }

  lemma AllAllowedSplit(src: Source, first: Win, rest: seq<Win>)
    ensures AllAllowed(src, [first] + rest)
       <==> Allowed(src, first) && AllAllowed(src, rest) && (rest != [] ==> Slides(first.off, first.len, rest[0]))
  {
    hide Allowed, Slides, AllAllowed;
    if AllAllowed(src, [first] + rest) { AllowedParts(src, first, rest); }
    if Allowed(src, first) && AllAllowed(src, rest) && (rest != [] ==> Slides(first.off, first.len, rest[0])) {
      AllowedTogether(src, first, rest);
    }
  }

  lemma AllowedParts(src: Source, first: Win, rest: seq<Win>)
    requires AllAllowed(src, [first] + rest)
    ensures Allowed(src, first) && AllAllowed(src, rest) && (rest != [] ==> Slides(first.off, first.len, rest[0]))
  {
    hide Allowed, Slides;
    var wins := [first] + rest;
    assert wins[0] == first && Allowed(src, wins[0]);
    forall k | 0 <= k < |rest| ensures Allowed(src, rest[k]) { assert wins[k + 1] == rest[k]; }
    forall k | 0 < k < |rest| ensures Slides(rest[k - 1].off, rest[k - 1].len, rest[k]) {
      assert wins[k + 1 - 1] == rest[k - 1] && wins[k + 1] == rest[k];
    }
    if rest != [] { assert wins[1 - 1] == first && wins[1] == rest[0]; }
  }

  lemma AllowedTogether(src: Source, first: Win, rest: seq<Win>)
    requires Allowed(src, first) && AllAllowed(src, rest) && (rest != [] ==> Slides(first.off, first.len, rest[0]))
    ensures AllAllowed(src, [first] + rest)
  {
    hide Allowed, Slides;
    var wins := [first] + rest;
    forall k | 0 <= k < |wins| ensures Allowed(src, wins[k]) { assert k > 0 ==> wins[k] == rest[k - 1]; }
    forall k | 0 < k < |wins| ensures Slides(wins[k - 1].off, wins[k - 1].len, wins[k]) {
      assert wins[k] == rest[k - 1];
      if k > 1 { assert wins[k - 1] == rest[k - 1 - 1]; }
    }
  }

  lemma {:induction false} WindowsYield(codecs: Codecs, src: Source, v: StreamView, level: nat, wins: seq<Win>)
    requires Faithful(codecs) && |BaseBytes(src)| < TWO_64 && forall k :: 0 <= k < |wins| ==> Expressible(wins[k])
    requires VersionOf(v).Some? && v.unread == WindowsBytes(codecs, VersionOf(v).value, level, wins)
    ensures AllowedFrom(src, v.lastOffset, v.lastLen, wins) ==>
      && (forall k :: 0 <= k < |wins| ==> Allowed(src, wins[k]))
      && Reference(codecs, src, v) == Some(Outputs(src, wins)) && LongestHeader(v.unread) <= MAX_PENDING_HEADER
    ensures !AllowedFrom(src, v.lastOffset, v.lastLen, wins) ==> Reference(codecs, src, v) == None
    decreases |wins|
  {
    hide Faithful, Expressible, WindowBytes, NextOutput, LongestHeader, Allowed, Slides, Output, ShortHeader;
    var version := VersionOf(v).value;
    if wins == [] {
      LongestOfNothing();
    } else {
      var rest := WindowsBytes(codecs, version, level, wins[1..]);
      var next := StreamView(v.received, rest, wins[0].off, wins[0].len);
      WindowStep(codecs, src, v, level, wins[0], rest);
      NotEmptyWindow(codecs, version, level, wins[0]);
      WindowsYield(codecs, src, next, level, wins[1..]);
      if AllowedFrom(src, v.lastOffset, v.lastLen, wins) {
        ShortFirst(v.unread, rest);
        AllFromFirst(src, wins);
      }
    }
  }

  lemma AllFromFirst(src: Source, wins: seq<Win>)
    requires wins != [] && Allowed(src, wins[0]) && forall k :: 0 <= k < |wins| - 1 ==> Allowed(src, wins[1..][k])
    ensures forall k :: 0 <= k < |wins| ==> Allowed(src, wins[k])
  {
    hide Allowed;
    forall k | 0 <= k < |wins| ensures Allowed(src, wins[k]) {
      if k > 0 { assert wins[k] == wins[1..][k - 1]; }
    }
  }

  lemma NotEmptyWindow(codecs: Codecs, version: Version, level: nat, w: Win)
    ensures WindowBytes(codecs, version, level, w) != []
  {
    hide EncodedSection;
    var ins := EncodedSection(codecs, version, level, EncodedOps(w.ops));
    var data := EncodedSection(codecs, version, level, w.newData);
    EncodedUnfolds([w.off, w.len, TotalLen(w.ops), |ins|, |data|]);
  }

  /**
   A list of windows sent as a stream, cut in any way, over any base: applying it ends well exactly
   when every view lies in the base, no view that is not empty starts or ends before the one ahead of
   it, views and targets are at most 64 KiB and every program is valid for its view. What is written
   is then what the programs make of their views, one after the other.
   */
  lemma ViewsRoundTrip(codecs: Codecs, src: Source, version: Version, level: nat, wins: seq<Win>, chunks: seq<seq<byte>>)
    requires Faithful(codecs) && |BaseBytes(src)| < TWO_64 && forall k :: 0 <= k < |wins| ==> Expressible(wins[k])
    requires Flatten(chunks) == DeltaStream(codecs, version, level, wins)
    ensures var r := Run(codecs, src, START, chunks);
      && (r.err == None <==> AllAllowed(src, wins))
      && (AllAllowed(src, wins) ==> r.output == Outputs(src, wins))
  {
    hide NextOutput, Reference, Drain, LongestHeader, Run, WindowsBytes, Faithful, Expressible, Pushed, BodyOf, DeltaStream,
         AllowedFrom, AllAllowed, Outputs;
    var stream := Flatten(chunks);
    var body := WindowsBytes(codecs, version, level, wins);
    var v := StreamView(HeaderOfVersion(version), body, 0, 0);
    StartPushed(stream);
    DeltaParts(codecs, version, level, wins);
    assert START.received + stream == stream;
    AllowedFromIs(src, 0, 0, wins);
    SlidesFromStart(wins);
    WindowsYield(codecs, src, v, level, wins);
    NoWindowBeforeHeader(codecs, src, START);
    RunAgainst(codecs, src, START, chunks);
  }

  lemma SlidesFromStart(wins: seq<Win>)
    ensures wins != [] ==> Slides(0, 0, wins[0])
  {
  }

  lemma DeltaParts(codecs: Codecs, version: Version, level: nat, wins: seq<Win>)
    ensures var stream := DeltaStream(codecs, version, level, wins);
      && |stream| >= SVNDIFF_HEADER_LEN && stream[..SVNDIFF_HEADER_LEN] == HeaderOfVersion(version)
      && VersionOfHeader(HeaderOfVersion(version)) == Some(version)
      && BodyOf(stream) == WindowsBytes(codecs, version, level, wins)
  {
    hide WindowsBytes;
  }

  /** Nothing sent at all leaves the base as it is, however often nothing is sent. */
  lemma {:induction false} NothingSentKeepsBase(codecs: Codecs, src: Source, chunks: seq<seq<byte>>)
    requires Flatten(chunks) == []
    ensures var r := Run(codecs, src, START, chunks); r.err == None && r.output == BaseBytes(src)
    decreases |chunks|
  {
    hide FeedChunk, BaseBytes;
    if chunks != [] {
      assert chunks[0] == [] && Flatten(chunks[1..]) == [];
      NothingPushed(codecs, src);
      NothingSentKeepsBase(codecs, src, chunks[1..]);
      assert [] + BaseBytes(src) == BaseBytes(src);
    }
  }

  lemma NothingPushed(codecs: Codecs, src: Source)
    ensures FeedChunk(codecs, src, START, []) == Fed(START, [], None)
  {
    assert Pushed(START, []).0 == START;
    assert NextOutput(codecs, src, START) == (START, Ok(None));
  }

  /** The limits of a window: 64 KiB of view and of target, room for the longest program, and the end of the view within 64 bits. */
  lemma HeaderLimits(fields: seq<u64>, rest: seq<byte>)
    requires |fields| == 5
    ensures HeaderOf(EncodedUints(fields) + rest)
         == if fields[1] > 65536 || fields[2] > 65536 || fields[3] > 21 * 65536 || fields[4] > 65546 then Err(TooLargeWindow)
            else if (fields[0] as int) + (fields[1] as int) >= 0x1_0000_0000_0000_0000 then Err(CorruptWindowHeader)
            else Ok(Some(WindowHeader(fields[0], fields[1], fields[2], fields[3], fields[4], |EncodedUints(fields)|)))
  {
    hide EncodedUints, Uints;
    UintsRoundTrip(fields, rest);
  }

  // ----- the delta that copies its base

  /** The base view by view, `size` bytes at a time from `from` on. */
  function CopyWins(base: seq<byte>, from: nat, size: nat): seq<Win>
    requires from <= |base| && size > 0
    decreases |base| - from
  {
    if from == |base| then []
    else
      var len := if size <= |base| - from then size else |base| - from;
      [Win(from, len, [CopySource(0, len)], [])] + CopyWins(base, from + len, size)
  }

  lemma CopyWin(base: seq<byte>, from: nat, len: nat)
    requires 0 < len <= 65536 && from + len <= |base| < TWO_64
    ensures var w := Win(from, len, [CopySource(0, len)], []);
      && Expressible(w) && Allowed(InMemory(base), w) && Output(InMemory(base), w) == base[from..from + len]
  {
    hide Base128.EncodedUint;
    var ops := [CopySource(0, len)];
    assert ops[1..] == [] && ops[..0] == [];
    assert TotalLen(ops) == len && NewLen(ops) == 0;
    OpsLength(ops);
    var view := base[from..from + len];
    assert view[0..len] == view && [] + view == view;
    assert Meaning([], view, []) == [];
  }

  lemma {:induction false} CopyWinsAllowed(base: seq<byte>, from: nat, size: nat)
    requires from <= |base| < TWO_64 && 0 < size <= 65536
    ensures var wins := CopyWins(base, from, size);
      && (forall k :: 0 <= k < |wins| ==> Expressible(wins[k]))
      && AllAllowed(InMemory(base), wins) && Outputs(InMemory(base), wins) == base[from..]
      && (wins != [] ==> wins[0].off == from)
    decreases |base| - from
  {
    hide Expressible, Allowed, Output;
    if from < |base| {
      var len := if size <= |base| - from then size else |base| - from;
      CopyWin(base, from, len);
      CopyWinsAllowed(base, from + len, size);
      var first, rest := Win(from, len, [CopySource(0, len)], []), CopyWins(base, from + len, size);
      AllAllowedSplit(InMemory(base), first, rest);
      assert base[from..from + len] + base[from + len..] == base[from..];
    }
  }

  /** The delta that copies its base view by view, whatever the version and the cut, gives the base back. */
  lemma CopyDeltaIsIdentity(codecs: Codecs, base: seq<byte>, version: Version, level: nat, size: nat, chunks: seq<seq<byte>>)
    requires Faithful(codecs) && |base| < TWO_64 && 0 < size <= 65536
    requires Flatten(chunks) == DeltaStream(codecs, version, level, CopyWins(base, 0, size))
    ensures var r := Run(codecs, InMemory(base), START, chunks); r.err == None && r.output == base
  {
    hide Faithful, DeltaStream, Run, CopyWins, AllAllowed, Outputs, Expressible;
    CopyWinsAllowed(base, 0, size);
    ViewsRoundTrip(codecs, InMemory(base), version, level, CopyWins(base, 0, size), chunks);
    assert base[0..] == base;
  }
}
