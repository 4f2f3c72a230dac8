/** Receiving an editor drive: events go to a handler that may refuse them, and a refused drive is read to its end. */
module EditorDrive {
  import opened Bytes
  import opened Items
  import opened Grammar
  import opened Connection
  import opened ItemRoundTrip
  import opened Paths
  import opened EditorCommands
  import opened CommandWords
  import opened EditorCodec
  import opened EditorEvents
  import opened WireText
  import Utf8

  /** Why a drive is given up: an event that cannot be read, or one the handler refuses with a message of its own. */
  datatype Cause = Unreadable(error: EventError) | Refused(message: seq<byte>)

  /** What the server is told. */
  datatype Reply = NoReply | Success | FailureOf(cause: Cause)

  datatype DriveEnd = Completed | Aborted(cause: Cause) | ServerFailure(params: seq<SvnItem>) | ReplayOnly | Broken(error: ReadError)

  /** The events handed on, how the drive ended, the reply, and the input left unread. */
  datatype Driven = Driven(events: seq<EditorEvent>, end: DriveEnd, reply: Reply, rest: seq<byte>)

  /** A handler, as its answer to all events handed to it so far, the newest last: nothing, or a message. */
  type Answers = seq<EditorEvent> -> Option<seq<byte>>

  // ----- after a refusal

  const SUCCESS: seq<byte> := [115, 117, 99, 99, 101, 115, 115]

  predicate Says(item: SvnItem, word: seq<byte>) {
    item.List? && item.items != [] && item.items[0] == SvnItem.Word(word)
  }

  /** What reading on has come to: the input left, whether the end of the edit was seen, and a read error. */
  datatype Left = Left(rest: seq<byte>, done: bool, err: Option<ReadError>)

  /** `early` items are read while the failure is being written; one of them may abort the edit. */
  function ReadEarly(s: seq<byte>, early: nat, done: bool): Left
    decreases early
  {
    if early == 0 then Left(s, done, None)
    else
      match ParseItem(s)
      case Fail(e, rest) => Left(rest, done, Some(e))
      case Done(item, rest) => ReadEarly(rest, early - 1, done || Says(item, Spelling(VAbortEdit)))
  }

  /** Items are skipped until one says `abort-edit` or `success`, or until the input ends. */
  function Drain(s: seq<byte>): Left
    decreases |s|
  {
    match ParseItem(s)
    case Fail(e, rest) => Left(rest, true, if e == UnexpectedEof then None else Some(e))
    case Done(item, rest) =>
      if Says(item, Spelling(VAbortEdit)) || Says(item, SUCCESS) then Left(rest, true, None) else Drain(rest)
  }

  function Drained(heard: seq<EditorEvent>, cause: Cause, left: Left): Driven {
    Driven(heard, if left.err.Some? then Broken(left.err.value) else Aborted(cause), FailureOf(cause), left.rest)
  }

  /** The failure is written, and what is left of the edit is read unless its end has been seen. */
  function GivenUp(heard: seq<EditorEvent>, cause: Cause, s: seq<byte>, drain: bool, early: nat): Driven {
    var left := ReadEarly(s, early, false);
    if left.err.Some? then Driven(heard, Broken(left.err.value), NoReply, left.rest)
    else if drain && !left.done then Drained(heard, cause, Drain(left.rest))
    else Drained(heard, cause, left)
  }

  // ----- the whole drive

  /** The event that ends the drive: the success is replied only when the handler takes it. */
  function Finished(heard: seq<EditorEvent>, event: EditorEvent, reply: Reply, s: seq<byte>, answers: Answers, early: nat): Driven {
    match answers(heard + [event])
    case None => Driven(heard + [event], Completed, reply, s)
    case Some(message) => GivenUp(heard + [event], Refused(message), s, false, early)
  }

  /** What a drive comes to when `heard` has been handed on before it. */
  function Outcome(s: seq<byte>, forReplay: bool, heard: seq<EditorEvent>, answers: Answers, early: nat): Driven
    decreases |s|
  {
    var item := ParseItem(s);
    if item.Fail? then Driven(heard, Broken(item.error), NoReply, item.rest)
    else if ParseCommandItem(item.value).Err? then GivenUp(heard, Unreadable(NotACommand), item.rest, true, early)
    else
      var (cmd, params) := ParseCommandItem(item.value).value;
      match VerbOf(cmd)
      case Some(VFailure) => Driven(heard, ServerFailure(params), NoReply, item.rest)
      case Some(VFinishReplay) =>
        if forReplay then Finished(heard, FinishReplay, NoReply, item.rest, answers, early)
        else Driven(heard, ReplayOnly, NoReply, item.rest)
      case Some(VCloseEdit) => Finished(heard, Received(CloseEdit), Success, item.rest, answers, early)
      case Some(VAbortEdit) => Finished(heard, Received(AbortEdit), Success, item.rest, answers, early)
      case _ =>
        match ParseEditorEvent(cmd, params)
        case Err(e) => GivenUp(heard, Unreadable(e), item.rest, true, early)
        case Ok(event) =>
          match answers(heard + [event])
          case None => Outcome(item.rest, forReplay, heard + [event], answers, early)
          case Some(message) => GivenUp(heard + [event], Refused(message), item.rest, true, early)
  }

  // ----- the code

  class EditorEventHandler {
    var got: seq<EditorEvent>
    const answers: Answers

    constructor (answers: Answers)
      ensures got == [] && this.answers == answers
    {
      got := [];
      this.answers := answers;
    }

    method OnEvent(event: EditorEvent) returns (refusal: Option<seq<byte>>)
      modifies this
      ensures got == old(got) + [event] && refusal == answers(got)
    {
      got := got + [event];
      refusal := answers(got);
    }
  }

  method DrainUntilAbortOrSuccess(conn: RaSvnConnection) returns (err: Option<ReadError>)
    requires conn.Valid()
    modifies conn
    ensures conn.Valid()
    ensures var left := Drain(old(conn.Unread())); err == left.err && conn.Unread() == left.rest
  {
    hide ParseItem, Says;
    while true
      invariant conn.Valid() && Drain(conn.Unread()) == Drain(old(conn.Unread()))
      decreases |conn.Unread()|
    {
      var item := conn.ReadItem();
      if item.Err? {
        return if item.error == UnexpectedEof then None else Some(item.error);
      }
      if Says(item.value, Spelling(VAbortEdit)) || Says(item.value, SUCCESS) {
        return None;
      }
    }
  }

  /** Writing the failure: how many items can be read before it is out is up to the two ends. */
  method WriteFailureEarly(conn: RaSvnConnection, early: nat) returns (done: bool, err: Option<ReadError>)
    requires conn.Valid()
    modifies conn
    ensures conn.Valid() && Left(conn.Unread(), done, err) == ReadEarly(old(conn.Unread()), early, false)
  {
    hide ParseItem, Says;
    done, err := false, None;
    var left := early;
    while left > 0
      invariant conn.Valid() && err == None
      invariant ReadEarly(conn.Unread(), left, done) == ReadEarly(old(conn.Unread()), early, false)
    {
      var item := conn.ReadItem();
      if item.Err? {
        return done, Some(item.error);
      }
      done := done || Says(item.value, Spelling(VAbortEdit));
      left := left - 1;
    }
  }

  method HandleConsumerError(conn: RaSvnConnection, cause: Cause, drain: bool, early: nat, ghost heard: seq<EditorEvent>)
    returns (end: DriveEnd, reply: Reply)
    requires conn.Valid()
    modifies conn
    ensures conn.Valid() && Driven(heard, end, reply, conn.Unread()) == GivenUp(heard, cause, old(conn.Unread()), drain, early)
  {
    hide Drain, ReadEarly;
    var done, err := WriteFailureEarly(conn, early);
    if err.Some? {
      return Broken(err.value), NoReply;
    }
    if drain && !done {
      err := DrainUntilAbortOrSuccess(conn);
    }
    return if err.Some? then Broken(err.value) else Aborted(cause), FailureOf(cause);
  }

  /** The event that ends the drive. */
  method FinishDrive(conn: RaSvnConnection, handler: EditorEventHandler, event: EditorEvent, success: Reply, early: nat)
    returns (end: DriveEnd, reply: Reply)
    requires conn.Valid()
    modifies conn, handler
    ensures conn.Valid()
    ensures Driven(handler.got, end, reply, conn.Unread())
         == Finished(old(handler.got), event, success, old(conn.Unread()), handler.answers, early)
  {
    hide GivenUp;
    var refusal := handler.OnEvent(event);
    if refusal.Some? {
      end, reply := HandleConsumerError(conn, Refused(refusal.value), false, early, handler.got);
    } else {
      end, reply := Completed, success;
    }
  }

  method DriveEditor(conn: RaSvnConnection, handler: EditorEventHandler, forReplay: bool, early: nat)
    returns (end: DriveEnd, reply: Reply)
    requires conn.Valid()
    modifies conn, handler
    ensures conn.Valid()
    ensures Driven(handler.got, end, reply, conn.Unread())
         == Outcome(old(conn.Unread()), forReplay, old(handler.got), handler.answers, early)
  {
    hide ParseItem, ParseCommandItem, VerbOf, ParseEditorEvent, GivenUp, Finished;
    while true
      invariant conn.Valid()
      invariant Outcome(conn.Unread(), forReplay, handler.got, handler.answers, early)
             == Outcome(old(conn.Unread()), forReplay, old(handler.got), handler.answers, early)
      decreases |conn.Unread()|
    {
      var item := conn.ReadItem();
      if item.Err? {
        return Broken(item.error), NoReply;
      }
      var command := ParseCommandItem(item.value);
      if command.Err? {
        end, reply := HandleConsumerError(conn, Unreadable(NotACommand), true, early, handler.got);
        return;
      }
      var (cmd, params) := command.value;
      match VerbOf(cmd) {
        case Some(VFailure) =>
          return ServerFailure(params), NoReply;
        case Some(VFinishReplay) =>
          if !forReplay {
            return ReplayOnly, NoReply;
          }
          end, reply := FinishDrive(conn, handler, FinishReplay, NoReply, early);
          return;
        case Some(VCloseEdit) =>
          end, reply := FinishDrive(conn, handler, Received(CloseEdit), Success, early);
          return;
        case Some(VAbortEdit) =>
          end, reply := FinishDrive(conn, handler, Received(AbortEdit), Success, early);
          return;
        case _ =>
      }
      var event := ParseEditorEvent(cmd, params);
      if event.Err? {
        end, reply := HandleConsumerError(conn, Unreadable(event.error), true, early, handler.got);
        return;
      }
      var refusal := handler.OnEvent(event.value);
      if refusal.Some? {
        end, reply := HandleConsumerError(conn, Refused(refusal.value), true, early, handler.got);
        return;
      }
    }
  }

  // ----- drives as the protocol spells them

  /** The bytes of a drive: its messages, each on a line of its own. */
  function Wire(msgs: seq<Message>): seq<byte> {
    if msgs == [] then [] else MessageLine(msgs[0]) + Wire(msgs[1..])
  }

  lemma WireUnfolds(msgs: seq<Message>, tail: seq<byte>)
    requires msgs != []
    ensures Wire(msgs) + tail == MessageLine(msgs[0]) + (Wire(msgs[1..]) + tail)
  {
    hide MessageLine;
    Regroup(MessageLine(msgs[0]), Wire(msgs[1..]), tail);
  }

  function AsEvents(msgs: seq<Message>): seq<EditorEvent> {
    seq(|msgs|, i requires 0 <= i < |msgs| => EventFor(msgs[i]))
  }

  ghost predicate AllPlain(msgs: seq<Message>) {
    forall k :: 0 <= k < |msgs| ==> PlainMessage(msgs[k])
  }

  /** The handler takes the first `n` of these events. */
  ghost predicate TakesFirst(answers: Answers, heard: seq<EditorEvent>, events: seq<EditorEvent>, n: nat)
    requires n <= |events|
  {
    forall k :: 0 < k <= n ==> answers(heard + events[..k]) == None
  }

  lemma TakesMore(answers: Answers, heard: seq<EditorEvent>, events: seq<EditorEvent>, n: nat)
    requires 0 < n <= |events| && TakesFirst(answers, heard, events, n)
    ensures answers(heard + [events[0]]) == None
    ensures TakesFirst(answers, heard + [events[0]], events[1..], n - 1)
  {
    assert events[..1] == [events[0]];
    forall k | 0 < k <= n - 1 ensures answers(heard + [events[0]] + events[1..][..k]) == None {
      assert heard + [events[0]] + events[1..][..k] == heard + events[..k + 1];
    }
  }

  lemma NewlineFirst(s: seq<byte>, forReplay: bool, heard: seq<EditorEvent>, answers: Answers, early: nat)
    ensures Outcome([10] + s, forReplay, heard, answers, early) == Outcome(s, forReplay, heard, answers, early)
    ensures Drain([10] + s) == Drain(s)
  {
    hide ParseCommandItem, VerbOf, ParseEditorEvent, ParseItem, GivenUp, Finished, Says;
    NewlineSkipped(s);
  }

  /** A message that is no command of its own ending is told to the handler, and taken or refused. */
  lemma EventGoesOn(s: seq<byte>, item: SvnItem, rest: seq<byte>, event: EditorEvent, forReplay: bool,
                    heard: seq<EditorEvent>, answers: Answers, early: nat)
    requires ParseItem(s) == Done(item, rest) && EventOf(item) == Ok(event)
    requires VerbOf(ParseCommandItem(item).value.0) !in {Some(VFailure), Some(VFinishReplay), Some(VCloseEdit), Some(VAbortEdit)}
    ensures Outcome(s, forReplay, heard, answers, early)
         == match answers(heard + [event])
            case None => Outcome(rest, forReplay, heard + [event], answers, early)
            case Some(message) => GivenUp(heard + [event], Refused(message), rest, true, early)
  {
    hide ParseItem, ParseCommandItem, VerbOf, ParseEditorEvent, GivenUp, Finished;
  }

  lemma EventVerb(item: SvnItem)
    requires EventOf(item).Ok?
    ensures ParseCommandItem(item).Ok?
    ensures VerbOf(ParseCommandItem(item).value.0) !in {Some(VFailure), Some(VFinishReplay), Some(VCloseEdit), Some(VAbortEdit)}
  {
    hide VerbOf, ParseCommandItem;
  }

  lemma MessageDriven(m: Message, behind: seq<byte>, forReplay: bool, heard: seq<EditorEvent>, answers: Answers, early: nat)
    requires PlainMessage(m)
    ensures answers(heard + [EventFor(m)]) == None ==>
      Outcome(MessageLine(m) + behind, forReplay, heard, answers, early)
      == Outcome(behind, forReplay, heard + [EventFor(m)], answers, early)
    ensures answers(heard + [EventFor(m)]).Some? ==>
      Outcome(MessageLine(m) + behind, forReplay, heard, answers, early)
      == GivenUp(heard + [EventFor(m)], Refused(answers(heard + [EventFor(m)]).value), [10] + behind, true, early)
  {
    hide PlainMessage, MessageLine, MessageItem, EventFor, EventOf, ParseItem, ParseCommandItem, VerbOf, Outcome, GivenUp;
    MessageReads(m, behind);
    EventVerb(MessageItem(m));
    EventGoesOn(MessageLine(m) + behind, MessageItem(m), [10] + behind, EventFor(m), forReplay, heard, answers, early);
    NewlineFirst(behind, forReplay, heard + [EventFor(m)], answers, early);
  }

  /** Messages the handler takes are told one by one, and what is behind them decides the drive. */
  lemma {:induction false} MessagesDriven(msgs: seq<Message>, tail: seq<byte>, forReplay: bool,
                                          heard: seq<EditorEvent>, answers: Answers, early: nat)
    requires AllPlain(msgs) && TakesFirst(answers, heard, AsEvents(msgs), |msgs|)
    ensures Outcome(Wire(msgs) + tail, forReplay, heard, answers, early)
         == Outcome(tail, forReplay, heard + AsEvents(msgs), answers, early)
    decreases |msgs|
  {
    hide Outcome, PlainMessage, MessageLine, EventFor, TakesFirst;
    if msgs == [] {
      assert Wire(msgs) + tail == tail && heard + AsEvents(msgs) == heard;
    } else {
      var first, more := msgs[0], msgs[1..];
      TakesMore(answers, heard, AsEvents(msgs), |msgs|);
      assert AsEvents(msgs)[1..] == AsEvents(more);
      WireUnfolds(msgs, tail);
      MessageDriven(first, Wire(more) + tail, forReplay, heard, answers, early);
      MessagesDriven(more, tail, forReplay, heard + [EventFor(first)], answers, early);
      assert heard + [EventFor(first)] + AsEvents(more) == heard + AsEvents(msgs);
    }
  }

  // ----- how a drive ends

  predicate EndsEdit(c: EditorCommand) { c.CloseEdit? || c.AbortEdit? }

  lemma EndDriven(last: EditorCommand, behind: seq<byte>, forReplay: bool, heard: seq<EditorEvent>, answers: Answers, early: nat)
    requires EndsEdit(last)
    ensures Outcome(CommandLine(last) + behind, forReplay, heard, answers, early)
         == Finished(heard, Received(last), Success, [10] + behind, answers, early)
  {
    hide Canonical, Utf8.Valid, ParseItem, Encoded, Spelling, VerbOf, Params, ParseReceived, GivenUp, Finished, CommandLine;
    EndRead(last, behind);
    VerbOfSpelling(VerbFor(last));
  }

  lemma EndRead(last: EditorCommand, behind: seq<byte>)
    requires EndsEdit(last)
    ensures ParseItem(CommandLine(last) + behind) == Done(CommandItem(last), [10] + behind)
  {
    hide Canonical, Utf8.Valid, ParseItem, Encoded, CommandLine, CommandItem, Readable;
    CommandOnWire(last);
    Regroup(Encoded(CommandItem(last)), [10], behind);
    CommandReadable(last);
    ItemReadsBack(CommandItem(last), [10] + behind);
  }

  /**
   A drive ended by `close-edit` or `abort-edit` reaches a handler that takes it as the messages sent,
   in their order; it is then answered with success, and what follows it is left untouched.
   */
  lemma DriveReadsBack(msgs: seq<Message>, last: EditorCommand, rest: seq<byte>, forReplay: bool,
                       heard: seq<EditorEvent>, answers: Answers, early: nat)
    requires AllPlain(msgs) && EndsEdit(last)
    requires TakesFirst(answers, heard, AsEvents(msgs), |msgs|) && answers(heard + AsEvents(msgs) + [Received(last)]) == None
    ensures Outcome(Wire(msgs) + (CommandLine(last) + rest), forReplay, heard, answers, early)
         == Driven(heard + AsEvents(msgs) + [Received(last)], Completed, Success, [10] + rest)
  {
    hide Outcome, PlainMessage, CommandLine, Wire, TakesFirst, EventFor;
    MessagesDriven(msgs, CommandLine(last) + rest, forReplay, heard, answers, early);
    EndDriven(last, rest, forReplay, heard + AsEvents(msgs), answers, early);
  }

  lemma BareRead(v: Verb, t: string, params: seq<SvnItem>, text: seq<byte>, rest: seq<byte>)
    requires Letters(v) == t && EncodedAll(params) == text && Readable(List([SvnItem.Word(Spelling(v)), List(params)]))
    ensures ParseItem(Line(t, text) + rest) == Done(List([SvnItem.Word(Spelling(v)), List(params)]), [10] + rest)
    ensures ParseCommandItem(List([SvnItem.Word(Spelling(v)), List(params)])) == Ok((Spelling(v), params))
    ensures VerbOf(Spelling(v)) == Some(v)
  {
    hide Letters, Spelling, Encoded, EncodedAll, Line, ParseItem, Readable, VerbOf;
    var item := List([SvnItem.Word(Spelling(v)), List(params)]);
    LineIsItem(v, t, params, text);
    Regroup(Encoded(item), [10], rest);
    ItemReadsBack(item, [10] + rest);
    VerbOfSpelling(v);
  }

  lemma FinishReplayDriven(behind: seq<byte>, forReplay: bool, heard: seq<EditorEvent>, answers: Answers, early: nat)
    ensures Outcome(Line("finish-replay", []) + behind, forReplay, heard, answers, early)
         == if forReplay then Finished(heard, FinishReplay, NoReply, [10] + behind, answers, early)
            else Driven(heard, ReplayOnly, NoReply, [10] + behind)
  {
    hide ParseItem, Spelling, VerbOf, Line, GivenUp, Finished, ParseCommandItem, Readable;
    EncodedNothing();
    ShallowReadable(VFinishReplay, []);
    BareRead(VFinishReplay, "finish-replay", [], [], behind);
  }

  /**
   A replay ended by `finish-replay` reaches a handler that takes it as the messages sent and the end
   of the replay. Nothing is answered, and what follows is left untouched. Outside a replay the same
   bytes end the drive with an error of its own: no end is told and nothing is answered.
   */
  lemma ReplayReadsBack(msgs: seq<Message>, rest: seq<byte>, heard: seq<EditorEvent>, answers: Answers, early: nat)
    requires AllPlain(msgs) && TakesFirst(answers, heard, AsEvents(msgs), |msgs|)
    ensures var s := Wire(msgs) + (Line("finish-replay", []) + rest);
      && (answers(heard + AsEvents(msgs) + [FinishReplay]) == None ==>
            Outcome(s, true, heard, answers, early)
            == Driven(heard + AsEvents(msgs) + [FinishReplay], Completed, NoReply, [10] + rest))
      && Outcome(s, false, heard, answers, early) == Driven(heard + AsEvents(msgs), ReplayOnly, NoReply, [10] + rest)
  {
    hide Outcome, PlainMessage, Line, Wire, TakesFirst, EventFor;
    MessagesDriven(msgs, Line("finish-replay", []) + rest, true, heard, answers, early);
    MessagesDriven(msgs, Line("finish-replay", []) + rest, false, heard, answers, early);
    FinishReplayDriven(rest, true, heard + AsEvents(msgs), answers, early);
    FinishReplayDriven(rest, false, heard + AsEvents(msgs), answers, early);
  }

  /** A `failure` ends the drive as the server's: no more is told, and nothing is answered. */
  lemma FailureReadsBack(msgs: seq<Message>, params: seq<SvnItem>, rest: seq<byte>, forReplay: bool,
                         heard: seq<EditorEvent>, answers: Answers, early: nat)
    requires AllPlain(msgs) && TakesFirst(answers, heard, AsEvents(msgs), |msgs|)
    requires Readable(List([SvnItem.Word(Spelling(VFailure)), List(params)]))
    ensures Outcome(Wire(msgs) + (Line("failure", EncodedAll(params)) + rest), forReplay, heard, answers, early)
         == Driven(heard + AsEvents(msgs), ServerFailure(params), NoReply, [10] + rest)
  {
    hide PlainMessage, Line, Wire, TakesFirst, EventFor, ParseItem, Spelling, VerbOf, GivenUp, Finished, ParseCommandItem, Readable,
         EncodedAll;
    MessagesDriven(msgs, Line("failure", EncodedAll(params)) + rest, forReplay, heard, answers, early);
    BareRead(VFailure, "failure", params, EncodedAll(params), rest);
  }

  // ----- a refused drive

  lemma ItemSays(v: Verb, params: seq<SvnItem>)
    ensures var item := List([SvnItem.Word(Spelling(v)), List(params)]);
      && (Says(item, Spelling(VAbortEdit)) <==> v == VAbortEdit)
      && !Says(item, SUCCESS)
  {
    hide Spelling;
    if Spelling(v) == Spelling(VAbortEdit) {
      SpellingInjective(v, VAbortEdit);
    }
    NotSuccess(v);
  }

  lemma NotSuccess(v: Verb)
    ensures Spelling(v) != SUCCESS
  {
    hide Letters;
    LettersPlain(v);
    FirstLetter(v);
    assert Spelling(v)[0] == Letters(v)[0] as int;
  }

  lemma FirstLetter(v: Verb)
    ensures |Letters(v)| > 0 && Letters(v)[0] != 's'
  {
  }

  lemma MessageSays(m: Message)
    requires PlainMessage(m)
    ensures !Says(MessageItem(m), Spelling(VAbortEdit)) && !Says(MessageItem(m), SUCCESS)
  {
    hide Spelling, Says, Params, PairItems;
    match m
    case Command(c) => NotAnEnd(c); ItemSays(VerbFor(c), Params(c));
    case Target(rev) => ItemSays(VTargetRev, [Number(rev)]);
    case Props(pairs) => ItemSays(VRevProps, PairItems(pairs));
  }

  lemma NotAnEnd(c: EditorCommand)
    requires Plainly(c)
    ensures VerbFor(c) != VAbortEdit
  {
  }

  /** What skipping the rest of a drive comes to: it stops behind an `abort-edit`, and goes on behind a `close-edit`. */
  function Skipped(last: EditorCommand, rest: seq<byte>): Left {
    if last.AbortEdit? then Left([10] + rest, true, None) else Drain([10] + rest)
  }

  lemma LastSkipped(last: EditorCommand, rest: seq<byte>)
    requires EndsEdit(last)
    ensures Drain(CommandLine(last) + rest) == Skipped(last, rest)
    ensures Says(CommandItem(last), Spelling(VAbortEdit)) <==> last.AbortEdit?
  {
    hide CommandLine, ParseItem, Says, Spelling, Params;
    EndRead(last, rest);
    ItemSays(VerbFor(last), Params(last));
  }

  lemma {:induction false} RestSkipped(msgs: seq<Message>, last: EditorCommand, rest: seq<byte>)
    requires AllPlain(msgs) && EndsEdit(last)
    ensures Drain(Wire(msgs) + (CommandLine(last) + rest)) == Skipped(last, rest)
    decreases |msgs|
  {
    hide CommandLine, CommandItem, MessageLine, MessageItem, PlainMessage, EndsEdit, ParseItem, Says, Spelling;
    var tail := CommandLine(last) + rest;
    if msgs == [] {
      assert Wire(msgs) + tail == tail;
      LastSkipped(last, rest);
    } else {
      WireUnfolds(msgs, tail);
      var behind := Wire(msgs[1..]) + tail;
      MessageReads(msgs[0], behind);
      MessageSays(msgs[0]);
      NewlineSkipped(behind);
      RestSkipped(msgs[1..], last, rest);
    }
  }

  lemma DrainNewline(s: seq<byte>)
    ensures Drain([10] + s) == Drain(s)
  {
    hide ParseItem, Says;
    NewlineSkipped(s);
  }

  lemma NoneReadEarly(heard: seq<EditorEvent>, cause: Cause, s: seq<byte>)
    ensures GivenUp(heard, cause, s, true, 0) == Drained(heard, cause, Drain(s))
  {
    hide Drain;
  }

  lemma OneReadEarly(heard: seq<EditorEvent>, cause: Cause, s: seq<byte>, item: SvnItem, rest: seq<byte>, early: nat)
    requires early > 0 && ParseItem(s) == Done(item, rest) && !Says(item, Spelling(VAbortEdit))
    ensures GivenUp(heard, cause, s, true, early) == GivenUp(heard, cause, rest, true, early - 1)
  {
    hide ParseItem, Says, Drain, Spelling;
  }

  lemma LastReadEarly(heard: seq<EditorEvent>, cause: Cause, s: seq<byte>, item: SvnItem, rest: seq<byte>)
    requires ParseItem(s) == Done(item, rest)
    ensures GivenUp(heard, cause, s, true, 1)
         == Drained(heard, cause, if Says(item, Spelling(VAbortEdit)) then Left(rest, true, None) else Drain(rest))
  {
    hide ParseItem, Says, Drain, Spelling;
  }

  /** However many of the remaining items are read while the failure is written, the same input is left in the end. */
  lemma {:induction false} RestGivenUp(msgs: seq<Message>, last: EditorCommand, rest: seq<byte>, early: nat,
                                       heard: seq<EditorEvent>, cause: Cause)
    requires AllPlain(msgs) && EndsEdit(last) && early <= |msgs| + 1
    ensures GivenUp(heard, cause, [10] + (Wire(msgs) + (CommandLine(last) + rest)), true, early)
         == Drained(heard, cause, Skipped(last, rest))
    decreases |msgs|
  {
    hide CommandLine, CommandItem, MessageLine, MessageItem, PlainMessage, EndsEdit, ParseItem, Says, Spelling, Wire, Drain, GivenUp;
    var tail := CommandLine(last) + rest;
    var s := Wire(msgs) + tail;
    NewlineSkipped(s);
    if early == 0 {
      RestSkipped(msgs, last, rest);
      DrainNewline(s);
      NoneReadEarly(heard, cause, [10] + s);
    } else if msgs == [] {
      NothingSent(tail);
      EndRead(last, rest);
      LastSkipped(last, rest);
      LastReadEarly(heard, cause, [10] + s, CommandItem(last), [10] + rest);
    } else {
      WireUnfolds(msgs, tail);
      MessageReads(msgs[0], Wire(msgs[1..]) + tail);
      MessageSays(msgs[0]);
      OneReadEarly(heard, cause, [10] + s, MessageItem(msgs[0]), [10] + (Wire(msgs[1..]) + tail), early);
      RestGivenUp(msgs[1..], last, rest, early - 1, heard, cause);
    }
  }

  lemma NothingSent(tail: seq<byte>)
    ensures Wire([]) + tail == tail
  {
  }

  /**
   A drive refused at one of its messages is answered with the failure and read to its end: the input
   is left right behind its `abort-edit`, however many items were read while the failure was written.
   A `close-edit` does not count as an end; reading then goes on behind it.
   */
  lemma RefusalDrains(before: seq<Message>, refused: Message, more: seq<Message>, last: EditorCommand, rest: seq<byte>, forReplay: bool,
                      heard: seq<EditorEvent>, answers: Answers, early: nat)
    requires AllPlain(before) && PlainMessage(refused) && AllPlain(more) && EndsEdit(last) && early <= |more| + 1
    requires TakesFirst(answers, heard, AsEvents(before), |before|)
    requires answers(heard + AsEvents(before) + [EventFor(refused)]).Some?
    ensures var events := heard + AsEvents(before) + [EventFor(refused)];
      Outcome(Wire(before) + (MessageLine(refused) + (Wire(more) + (CommandLine(last) + rest))), forReplay, heard, answers, early)
      == Drained(events, Refused(answers(events).value), Skipped(last, rest))
  {
    hide Outcome, CommandLine, PlainMessage, MessageLine, EventFor, AllPlain, EndsEdit, Wire, TakesFirst, GivenUp, Drained, Skipped;
    var events := heard + AsEvents(before) + [EventFor(refused)];
    var behind := Wire(more) + (CommandLine(last) + rest);
    MessagesDriven(before, MessageLine(refused) + behind, forReplay, heard, answers, early);
    MessageDriven(refused, behind, forReplay, heard + AsEvents(before), answers, early);
    RestGivenUp(more, last, rest, early, events, Refused(answers(events).value));
  }

  /** The error an item is refused with: it is no command, or none that can be understood. */
  ghost predicate NotUnderstood(item: SvnItem, e: EventError) {
    || (ParseCommandItem(item).Err? && e == NotACommand)
    || (ParseCommandItem(item).Ok? && EventOf(item) == Err(e)
        && VerbOf(ParseCommandItem(item).value.0) !in {Some(VFailure), Some(VFinishReplay), Some(VCloseEdit), Some(VAbortEdit)})
  }

  lemma UnreadDriven(s: seq<byte>, item: SvnItem, rest: seq<byte>, e: EventError, forReplay: bool,
                     heard: seq<EditorEvent>, answers: Answers, early: nat)
    requires ParseItem(s) == Done(item, rest) && NotUnderstood(item, e)
    ensures Outcome(s, forReplay, heard, answers, early) == GivenUp(heard, Unreadable(e), rest, true, early)
  {
    hide ParseItem, ParseCommandItem, VerbOf, ParseEditorEvent, GivenUp, Finished;
  }

  /** An item that cannot be understood is not told; the drive is answered with the failure and read to its end in the same way. */
  lemma UnreadableDrains(before: seq<Message>, item: SvnItem, e: EventError, more: seq<Message>, last: EditorCommand, rest: seq<byte>,
                         forReplay: bool, heard: seq<EditorEvent>, answers: Answers, early: nat)
    requires AllPlain(before) && Readable(item) && NotUnderstood(item, e) && AllPlain(more) && EndsEdit(last) && early <= |more| + 1
    requires TakesFirst(answers, heard, AsEvents(before), |before|)
    ensures Outcome(Wire(before) + (Encoded(item) + ([10] + (Wire(more) + (CommandLine(last) + rest)))), forReplay, heard, answers, early)
         == Drained(heard + AsEvents(before), Unreadable(e), Skipped(last, rest))
  {
    hide Outcome, CommandLine, AllPlain, EndsEdit, Wire, TakesFirst, GivenUp, Drained, Skipped, Encoded, Readable, NotUnderstood, ParseItem;
    var behind := [10] + (Wire(more) + (CommandLine(last) + rest));
    MessagesDriven(before, Encoded(item) + behind, forReplay, heard, answers, early);
    ItemReadsBack(item, behind);
    UnreadDriven(Encoded(item) + behind, item, behind, e, forReplay, heard + AsEvents(before), answers, early);
    RestGivenUp(more, last, rest, early, heard + AsEvents(before), Unreadable(e));
  }

  /** A `success` stops the skipping as well. */
  lemma SuccessStops(params: seq<SvnItem>, rest: seq<byte>)
    requires Readable(List([SvnItem.Word(Chars("success")), List(params)]))
    ensures Drain(Encoded(List([SvnItem.Word(Chars("success")), List(params)])) + rest) == Left(rest, true, None)
  {
    hide Encoded, Readable, ParseItem;
    assert Chars("success") == SUCCESS;
    ItemReadsBack(List([SvnItem.Word(Chars("success")), List(params)]), rest);
  }

  /** When the message that ends the drive is refused, failure is answered in place of success, and nothing is skipped. */
  lemma EndRefused(msgs: seq<Message>, last: EditorCommand, rest: seq<byte>, forReplay: bool,
                   heard: seq<EditorEvent>, answers: Answers, early: nat)
    requires AllPlain(msgs) && EndsEdit(last) && TakesFirst(answers, heard, AsEvents(msgs), |msgs|)
    requires answers(heard + AsEvents(msgs) + [Received(last)]).Some?
    ensures var events := heard + AsEvents(msgs) + [Received(last)];
      var cause := Refused(answers(events).value);
      var r := Outcome(Wire(msgs) + (CommandLine(last) + rest), forReplay, heard, answers, early);
      && r == GivenUp(events, cause, [10] + rest, false, early)
      && (early == 0 ==> r == Driven(events, Aborted(cause), FailureOf(cause), [10] + rest))
  {
    hide Outcome, PlainMessage, CommandLine, Wire, TakesFirst, EventFor, AllPlain;
    MessagesDriven(msgs, CommandLine(last) + rest, forReplay, heard, answers, early);
    EndDriven(last, rest, forReplay, heard + AsEvents(msgs), answers, early);
  }
}
