/** The instruction interpreter of one svndiff window, and what an instruction list means. */
module Instructions {
  import opened Bytes
  import opened SvndiffFormat
  import Arithmetic
  import Base128

  // ----- what a window means

  datatype Op =
    | CopySource(offset: nat, len: nat)
    | CopyTarget(offset: nat, len: nat)
    | CopyNew(len: nat)

  function TotalLen(ops: seq<Op>): nat {
    if ops == [] then 0 else ops[0].len + TotalLen(ops[1..])
  }

  /** Bytes of the new-data section that the operations take. */
  function NewLen(ops: seq<Op>): nat {
    if ops == [] then 0 else Taken(ops[0]) + NewLen(ops[1..])
  }

  function Taken(op: Op): nat {
    if op.CopyNew? then op.len else 0
  }

  predicate InRange(op: Op, sourceLen: nat, targetPos: nat) {
    match op
    case CopySource(off, len) => off + len <= sourceLen
    case CopyTarget(off, _) => off < targetPos
    case CopyNew(_) => true
  }

  /**
   A list is valid when it fills the target view exactly, uses the new data exactly, stays inside
   the source view and starts every target copy before the position it writes to.
   */
  predicate ValidProgram(ops: seq<Op>, sourceLen: nat, tviewLen: nat, newLen: nat) {
    && TotalLen(ops) == tviewLen
    && NewLen(ops) == newLen
    && AllInRange(ops, sourceLen)
  }

  predicate AllInRange(ops: seq<Op>, sourceLen: nat) {
    forall k :: 0 <= k < |ops| ==> InRange(ops[k], sourceLen, TotalLen(ops[..k]))
  }

  /** `len` bytes that repeat the tail of `target` from `off` with period |target| - off. */
  function Periodic(target: seq<byte>, off: nat, len: nat): seq<byte>
    requires off < |target|
  {
    seq(len, i requires 0 <= i < len => target[off + i % (|target| - off)])
  }

  /** The bytes one operation contributes at a given target and new-data position. */
  function Piece(op: Op, source: seq<byte>, newData: seq<byte>, target: seq<byte>, npos: nat): (s: seq<byte>)
    requires InRange(op, |source|, |target|)
    requires op.CopyNew? ==> npos + op.len <= |newData|
    ensures |s| == op.len
  {
    match op
    case CopySource(off, len) => source[off..off + len]
    case CopyTarget(off, len) => Periodic(target, off, len)
    case CopyNew(len) => newData[npos..npos + len]
  }

  /** The target view a valid list spells. */
  function Meaning(ops: seq<Op>, source: seq<byte>, newData: seq<byte>): (target: seq<byte>)
    requires AllInRange(ops, |source|)
    requires NewLen(ops) <= |newData|
    ensures |target| == TotalLen(ops)
  {
    if ops == [] then []
    else
      var last := ops[|ops| - 1];
      var before := ops[..|ops| - 1];
      PrefixFacts(ops);
      var target := Meaning(before, source, newData);
      target + Piece(last, source, newData, target, NewLen(before))
  }

  lemma {:induction false} LensAppend(a: seq<Op>, b: seq<Op>)
    ensures TotalLen(a + b) == TotalLen(a) + TotalLen(b)
    ensures NewLen(a + b) == NewLen(a) + NewLen(b)
  {
    if a == [] {
      assert a + b == b;
    } else {
      assert (a + b)[1..] == a[1..] + b;
      LensAppend(a[1..], b);
    }
  }

  lemma PrefixFacts(ops: seq<Op>)
    requires ops != []
    ensures var before := ops[..|ops| - 1];
      && TotalLen(ops) == TotalLen(before) + ops[|ops| - 1].len
      && NewLen(ops) == NewLen(before) + Taken(ops[|ops| - 1])
      && forall k :: 0 <= k < |before| ==> before[..k] == ops[..k]
  {
    var before, last := ops[..|ops| - 1], ops[|ops| - 1];
    assert ops == before + [last];
    LensAppend(before, [last]);
    assert [last][1..] == [];
  }

  // ----- the wire form of the operations

  /** An instruction whose selector and length have been read; its offset, if any, starts `rest`. */
  function ReadLength(ins: seq<byte>): (r: Result<(nat, seq<byte>), DeltaError>)
    requires ins != []
    ensures r.Ok? ==> |r.value.1| < |ins|
  {
    if ins[0] / 64 >= 3 then Err(InvalidAction)
    else if ins[0] % 64 != 0 then Ok((ins[0] % 64, ins[1..]))
    else match Base128.DecodedUint(ins[1..])
      case None => Err(TruncatedLength)
      case Some((v, used)) => if v == 0 then Err(ZeroLength) else Ok((v, ins[1 + used..]))
  }

  /** The first operation of an instruction string and the bytes after it. */
  function FirstOp(ins: seq<byte>): (r: Option<(Op, seq<byte>)>)
    requires ins != []
    ensures r.Some? ==> |r.value.1| < |ins|
  {
    match ReadLength(ins)
    case Err(_) => None
    case Ok((len, rest)) =>
      if ins[0] / 64 == 2 then Some((CopyNew(len), rest))
      else match Base128.DecodedUint(rest)
        case None => None
        case Some((off, used)) =>
          Some((if ins[0] / 64 == 0 then CopySource(off, len) else CopyTarget(off, len), rest[used..]))
  }

  /** The operations a byte string encodes, or nothing when it is not a list of instructions. */
  function Disassemble(ins: seq<byte>): Option<seq<Op>>
    decreases |ins|
  {
    if ins == [] then Some([])
    else match FirstOp(ins)
      case None => None
      case Some((op, rest)) => Then([op], Disassemble(rest))
  }

  // ----- the interpreter's result, error by error

  /** Byte-by-byte copy inside the target, each byte possibly one this copy has just written. */
  function CopyWithin(target: seq<byte>, off: nat, len: nat): seq<byte>
    requires off < |target|
    decreases len
  {
    if len == 0 then target else CopyWithin(target + [target[off]], off + 1, len - 1)
  }

  datatype State = State(target: seq<byte>, npos: nat)

  /** Carries out the first instruction of `ins`; also answers the bytes after it. */
  function Step(source: seq<byte>, tviewLen: nat, ins: seq<byte>, newData: seq<byte>, s: State)
    : (r: Result<(State, seq<byte>), DeltaError>)
    requires ins != []
    ensures r.Ok? ==> |r.value.1| < |ins|
  {
    match ReadLength(ins)
    case Err(e) => Err(e)
    case Ok((len, rest)) =>
      if |s.target| + len > tviewLen then Err(TargetOverflow)
      else if ins[0] / 64 == 2 then
        if s.npos + len > |newData| then Err(NewDataOverflow)
        else Ok((State(s.target + newData[s.npos..s.npos + len], s.npos + len), rest))
      else match Base128.DecodedUint(rest)
        case None => Err(if ins[0] / 64 == 0 then SourceMissingOffset else TargetMissingOffset)
        case Some((off, used)) =>
          match CopyStep(source, ins[0] / 64, off, len, s)
          case Err(e) => Err(e)
          case Ok(s') => Ok((s', rest[used..]))
  }

  /** A copy from the source view (action 0) or from the target itself (action 1). */
  function CopyStep(source: seq<byte>, action: nat, off: nat, len: nat, s: State): Result<State, DeltaError> {
    if action == 0 then
      if off + len > |source| then Err(SourceOverflow)
      else Ok(s.(target := s.target + source[off..off + len]))
    else
      if off >= |s.target| then Err(TargetOffsetBeyondPosition)
      else Ok(s.(target := CopyWithin(s.target, off, len)))
  }

  /** What the interpreter answers from a given state. */
  function Exec(source: seq<byte>, tviewLen: nat, ins: seq<byte>, newData: seq<byte>, s: State)
    : Result<seq<byte>, DeltaError>
    decreases |ins|
  {
    if ins == [] then
      if |s.target| != tviewLen then Err(TargetNotFilled)
      else if s.npos != |newData| then Err(NewDataLeftOver)
      else Ok(s.target)
    else match Step(source, tviewLen, ins, newData, s)
      case Err(e) => Err(e)
      case Ok((s', rest)) => Exec(source, tviewLen, rest, newData, s')
  }

  /** What applying a window's instructions to a source view answers. */
  function WindowResult(source: seq<byte>, tviewLen: nat, ins: seq<byte>, newData: seq<byte>): Result<seq<byte>, DeltaError> {
    Exec(source, tviewLen, ins, newData, State([], 0))
  }

  /** Reads the selector byte at `ipos` and the length, which follows it when the selector has none. */
  method ReadLengthAt(instructions: seq<byte>, ipos: nat) returns (r: Result<(nat, nat), DeltaError>)
    requires ipos < |instructions|
    ensures match ReadLength(instructions[ipos..])
      case Err(e) => r == Err(e)
      case Ok((len, rest)) =>
        r.Ok? && r.value.0 == len && ipos < r.value.1 <= |instructions| && rest == instructions[r.value.1..]
  {
    ghost var here := instructions[ipos..];
    var selector := instructions[ipos];
    assert here[1..] == instructions[ipos + 1..];
    if selector / 64 >= 3 {
      return Err(InvalidAction);
    }
    var len: nat := selector % 64;
    if len != 0 {
      return Ok((len, ipos + 1));
    }
    var d := Base128.TryDecodeUint(instructions[ipos + 1..]);
    if d.value.None? {
      return Err(TruncatedLength);
    }
    var (v, used) := d.value.value;
    assert here[1 + used..] == instructions[ipos + 1 + used..];
    if v == 0 {
      return Err(ZeroLength);
    }
    return Ok((v, ipos + 1 + used));
  }

  /** Pushes `len` bytes one at a time, so that a copy may run into what it has just written. */
  method CopyOverlapping(start: seq<byte>, off: nat, len: nat) returns (target: seq<byte>)
    requires off < |start|
    ensures target == CopyWithin(start, off, len)
  {
    target := start;
    var i := 0;
    while i < len
      invariant 0 <= i <= len && |target| == |start| + i
      invariant CopyWithin(target, off + i, len - i) == CopyWithin(start, off, len)
    {
      target := target + [target[off + i]];
      i := i + 1;
    }
  }

  method RunCopy(source: seq<byte>, action: nat, off: nat, len: nat, s: State)
    returns (r: Result<State, DeltaError>)
    ensures r == CopyStep(source, action, off, len, s)
  {
    if action == 0 {
      if off + len > |source| {
        return Err(SourceOverflow);
      }
      return Ok(s.(target := s.target + source[off..off + len]));
    }
    if off >= |s.target| {
      return Err(TargetOffsetBeyondPosition);
    }
    var target := CopyOverlapping(s.target, off, len);
    return Ok(s.(target := target));
  }

  /** One turn of the interpreter loop, from `ipos` to the answered position. */
  method RunInstruction(source: seq<byte>, tviewLen: nat, instructions: seq<byte>, newData: seq<byte>, ipos: nat, s: State)
    returns (r: Result<(State, nat), DeltaError>)
    requires ipos < |instructions|
    ensures match Step(source, tviewLen, instructions[ipos..], newData, s)
      case Err(e) => r == Err(e)
      case Ok((s', rest)) =>
        r.Ok? && r.value.0 == s' && ipos < r.value.1 <= |instructions| && rest == instructions[r.value.1..]
  {
    hide Base128.DecodedUint, CopyWithin;
    var action := instructions[ipos] / 64;
    var head := ReadLengthAt(instructions, ipos);
    if head.Err? {
      return Err(head.error);
    }
    var (len, next) := head.value;
    if |s.target| + len > tviewLen {
      return Err(TargetOverflow);
    }

    if action == 2 {
      if s.npos + len > |newData| {
        return Err(NewDataOverflow);
      }
      return Ok((State(s.target + newData[s.npos..s.npos + len], s.npos + len), next));
    }

    var d := Base128.TryDecodeUint(instructions[next..]);
    if d.value.None? {
      return Err(if action == 0 then SourceMissingOffset else TargetMissingOffset);
    }
    var (off, used) := d.value.value;
    assert instructions[next..][used..] == instructions[next + used..];
    var copied := RunCopy(source, action, off, len, s);
    if copied.Err? {
      return Err(copied.error);
    }
    return Ok((copied.value, next + used));
  }

  /** The interpreter loop. */
  method ApplyWindowSource(source: seq<byte>, tviewLen: nat, instructions: seq<byte>, newData: seq<byte>)
    returns (r: Result<seq<byte>, DeltaError>)
    ensures r == WindowResult(source, tviewLen, instructions, newData)
  {
    var s := State([], 0);
    var ipos := 0;
    while ipos < |instructions|
      invariant 0 <= ipos <= |instructions|
      invariant Exec(source, tviewLen, instructions[ipos..], newData, s)
             == WindowResult(source, tviewLen, instructions, newData)
    {
      var turn := RunInstruction(source, tviewLen, instructions, newData, ipos, s);
      if turn.Err? {
        return Err(turn.error);
      }
      s, ipos := turn.value.0, turn.value.1;
    }
    if |s.target| != tviewLen {
      return Err(TargetNotFilled);
    }
    if s.npos != |newData| {
      return Err(NewDataLeftOver);
    }
    return Ok(s.target);
  }

  // ----- the interpreter against the meaning

  lemma {:induction false} CopyIsPeriodic(target: seq<byte>, off: nat, len: nat)
    requires off < |target|
    ensures CopyWithin(target, off, len) == target + Periodic(target, off, len)
  {
    assert target + Periodic(target, off, 0) == target;
    CopyFrom(target, target, off, 0, len);
  }

  /** Byte `i` of the extension is the byte one period earlier. */
  lemma PeriodicStep(start: seq<byte>, off: nat, i: nat)
    requires off < |start|
    ensures (start + Periodic(start, off, i))[off + i] == start[off + i % (|start| - off)]
  {
    hide Periodic;
    var p := |start| - off;
    PeriodicLength(start, off, i);
    if i < p {
      Arithmetic.ModSmall(i, p);
    } else {
      Arithmetic.ModShift(i, p);
      PeriodicAt(start, off, i, i - p);
      AtBehind(start, Periodic(start, off, i), i - p);
      assert off + i == |start| + (i - p);
    }
  }

  lemma PeriodicLength(start: seq<byte>, off: nat, len: nat)
    requires off < |start|
    ensures |Periodic(start, off, len)| == len
  {
  }

  lemma PeriodicAt(start: seq<byte>, off: nat, len: nat, j: nat)
    requires off < |start| && j < len
    ensures |Periodic(start, off, len)| == len
    ensures 0 <= j % (|start| - off) < |start| - off
    ensures Periodic(start, off, len)[j] == start[off + j % (|start| - off)]
  {
  }

  lemma AtBehind(front: seq<byte>, behind: seq<byte>, j: nat)
    requires j < |behind|
    ensures (front + behind)[|front| + j] == behind[j]
  {
  }

  /** After `i` copied bytes the tail already has the period, and the copy keeps it. */
  lemma {:induction false} CopyFrom(start: seq<byte>, target: seq<byte>, off: nat, i: nat, len: nat)
    requires off < |start| && i <= len
    requires target == start + Periodic(start, off, i)
    ensures CopyWithin(target, off + i, len - i) == start + Periodic(start, off, len)
    decreases len - i
  {
    if i < len {
      PeriodicStep(start, off, i);
      var next := target + [target[off + i]];
      assert Periodic(start, off, i + 1) == Periodic(start, off, i) + [target[off + i]];
      assert next == start + Periodic(start, off, i + 1);
      CopyFrom(start, next, off, i + 1, len);
    }
  }

  lemma SnocOp(done: seq<Op>, op: Op, sourceLen: nat)
    requires AllInRange(done, sourceLen)
    ensures TotalLen(done + [op]) == TotalLen(done) + op.len
    ensures NewLen(done + [op]) == NewLen(done) + Taken(op)
    ensures AllInRange(done + [op], sourceLen) <==> InRange(op, sourceLen, TotalLen(done))
    ensures (done + [op])[..|done|] == done
  {
    var ops := done + [op];
    LensAppend(done, [op]);
    assert [op][1..] == [];
    assert ops[..|ops| - 1] == done;
    assert forall k :: 0 <= k < |done| ==> ops[..k] == done[..k];
  }

  /** A list with an operation out of range, too much target or too much new data stays invalid. */
  lemma InvalidStays(done: seq<Op>, op: Op, more: seq<Op>, sourceLen: nat, tviewLen: nat, newLen: nat)
    requires AllInRange(done, sourceLen)
    requires !InRange(op, sourceLen, TotalLen(done)) || TotalLen(done) + op.len > tviewLen
          || NewLen(done) + Taken(op) > newLen
    ensures !ValidProgram(done + ([op] + more), sourceLen, tviewLen, newLen)
  {
    var ops := done + ([op] + more);
    LensAppend(done, [op] + more);
    assert ([op] + more)[1..] == more;
    assert ops[|done|] == op && ops[..|done|] == done;
    if AllInRange(ops, sourceLen) {
      assert InRange(ops[|done|], sourceLen, TotalLen(ops[..|done|]));
    }
  }

  predicate Fits(op: Op, sourceLen: nat, tviewLen: nat, newLen: nat, targetPos: nat, npos: nat) {
    && InRange(op, sourceLen, targetPos)
    && targetPos + op.len <= tviewLen
    && npos + Taken(op) <= newLen
  }

  /** The state after an operation that fits. */
  function Perform(op: Op, source: seq<byte>, newData: seq<byte>, s: State): State
    requires InRange(op, |source|, |s.target|) && s.npos + Taken(op) <= |newData|
  {
    State(s.target + Piece(op, source, newData, s.target, s.npos), s.npos + Taken(op))
  }

  lemma StepFits(source: seq<byte>, tviewLen: nat, ins: seq<byte>, newData: seq<byte>, s: State)
    requires ins != [] && s.npos <= |newData|
    ensures Step(source, tviewLen, ins, newData, s).Ok?
       <==> FirstOp(ins).Some? && Fits(FirstOp(ins).value.0, |source|, tviewLen, |newData|, |s.target|, s.npos)
  {
    hide Base128.DecodedUint;
  }

  lemma PerformTarget(op: Op, source: seq<byte>, newData: seq<byte>, s: State)
    requires op.CopyTarget? && op.offset < |s.target| && s.npos <= |newData|
    ensures Perform(op, source, newData, s) == State(CopyWithin(s.target, op.offset, op.len), s.npos)
  {
    CopyIsPeriodic(s.target, op.offset, op.len);
  }

  /** One turn of the loop performs the first operation when it fits, and refuses it otherwise. */
  lemma StepPerforms(source: seq<byte>, tviewLen: nat, ins: seq<byte>, newData: seq<byte>, s: State)
    requires ins != [] && FirstOp(ins).Some?
    requires Fits(FirstOp(ins).value.0, |source|, tviewLen, |newData|, |s.target|, s.npos)
    requires s.npos <= |newData|
    ensures Step(source, tviewLen, ins, newData, s)
         == Ok((Perform(FirstOp(ins).value.0, source, newData, s), FirstOp(ins).value.1))
  {
    hide Base128.DecodedUint;
    var op := FirstOp(ins).value.0;
    if op.CopyTarget? {
      PerformTarget(op, source, newData, s);
    }
  }

  /** The state after carrying out `done`. */
  function StateAfter(done: seq<Op>, source: seq<byte>, newData: seq<byte>): State
    requires AllInRange(done, |source|) && NewLen(done) <= |newData|
  {
    State(Meaning(done, source, newData), NewLen(done))
  }

  lemma StateSnoc(done: seq<Op>, op: Op, source: seq<byte>, newData: seq<byte>)
    requires AllInRange(done, |source|)
    requires InRange(op, |source|, TotalLen(done)) && NewLen(done) + Taken(op) <= |newData|
    ensures AllInRange(done + [op], |source|) && NewLen(done + [op]) <= |newData|
    ensures StateAfter(done + [op], source, newData) == Perform(op, source, newData, StateAfter(done, source, newData))
  {
    SnocOp(done, op, |source|);
  }

  /** `r` succeeds exactly when `ops` is a valid list, and then with what the list means. */
  predicate Means(r: Result<seq<byte>, DeltaError>, ops: Option<seq<Op>>, source: seq<byte>, tviewLen: nat, newData: seq<byte>) {
    && (r.Ok? <==> ops.Some? && ValidProgram(ops.value, |source|, tviewLen, |newData|))
    && (r.Ok? ==> r.value == Meaning(ops.value, source, newData))
  }

  function Then(done: seq<Op>, more: Option<seq<Op>>): Option<seq<Op>> {
    match more case None => None case Some(ops) => Some(done + ops)
  }

  /** The loop's answer from any reachable state, in terms of the operations already carried out. */
  lemma {:induction false} ExecMeans(source: seq<byte>, tviewLen: nat, ins: seq<byte>, newData: seq<byte>, done: seq<Op>)
    requires AllInRange(done, |source|) && NewLen(done) <= |newData|
    ensures Means(Exec(source, tviewLen, ins, newData, StateAfter(done, source, newData)),
                  Then(done, Disassemble(ins)), source, tviewLen, newData)
    decreases |ins|
  {
    if ins == [] {
      assert done + [] == done;
    } else {
      StepFits(source, tviewLen, ins, newData, StateAfter(done, source, newData));
      if FirstOp(ins).Some? {
        var (op, rest) := FirstOp(ins).value;
        if Fits(op, |source|, tviewLen, |newData|, TotalLen(done), NewLen(done)) {
          StepPerforms(source, tviewLen, ins, newData, StateAfter(done, source, newData));
          StateSnoc(done, op, source, newData);
          ExecMeans(source, tviewLen, rest, newData, done + [op]);
          ThenSnoc(done, op, Disassemble(rest));
        } else if Disassemble(rest).Some? {
          InvalidStays(done, op, Disassemble(rest).value, |source|, tviewLen, |newData|);
        }
      }
    }
  }

  lemma ThenSnoc(done: seq<Op>, op: Op, more: Option<seq<Op>>)
    ensures Then(done + [op], more) == Then(done, Then([op], more))
  {
    if more.Some? {
      assert (done + [op]) + more.value == done + ([op] + more.value);
    }
  }

  /**
   The interpreter succeeds exactly on the encodings of valid instruction lists, and then its
   result is what the list means.
   */
  lemma WindowMeaning(source: seq<byte>, tviewLen: nat, ins: seq<byte>, newData: seq<byte>)
    ensures Means(WindowResult(source, tviewLen, ins, newData), Disassemble(ins), source, tviewLen, newData)
  {
    ExecMeans(source, tviewLen, ins, newData, []);
    if Disassemble(ins).Some? {
      assert [] + Disassemble(ins).value == Disassemble(ins).value;
    }
  }
}
