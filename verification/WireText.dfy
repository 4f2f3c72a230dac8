/** The messages of an editor drive as the protocol spells them, letter by letter, and that these are the bytes printed and read. */
module WireText {
  import opened Bytes
  import opened Items
  import opened Grammar
  import opened ItemRoundTrip
  import opened Paths
  import opened DirChain
  import opened EditorCommands
  import opened CommandWords
  import opened EditorCodec
  import opened EditorEvents
  import Decimal
  import Utf8

  // ----- text

  /** The bytes of a text of ASCII characters; any other character counts as a question mark. */
  function Chars(t: string): seq<byte> {
    seq(|t|, i requires 0 <= i < |t| => if t[i] as int < 128 then t[i] as int else 63)
  }

  /** A number, and a string behind its length. */
  function Digits(n: nat): seq<byte> { Decimal.Numeral(n) + [32] }

  function Netstring(s: seq<byte>): seq<byte> { Decimal.Numeral(|s|) + [58] + s + [32] }

  function Tuple(inside: seq<byte>): seq<byte> { [40, 32] + inside + [41, 32] }

  /** `( word ( params ) ) ` and a newline. */
  function Line(word: string, params: seq<byte>): seq<byte> {
    [40, 32] + Chars(word) + [32] + [40, 32] + params + [41, 32] + [41, 32] + [10]
  }

  function OptDigits(n: Option<u64>): seq<byte> { match n case None => [] case Some(v) => Digits(v) }

  function OptNetstring(s: Option<seq<byte>>): seq<byte> { match s case None => [] case Some(v) => Netstring(v) }

  function OptSource(copy: Option<(Path, u64)>): seq<byte> { match copy case None => [] case Some((path, rev)) => Netstring(path) + Digits(rev) }

  /** Every command, as section 3.1.2 of the ra_svn protocol spells it. */
  function CommandLine(c: EditorCommand): seq<byte> {
    match c
    case OpenRoot(rev, token) => Line("open-root", Tuple(OptDigits(rev)) + Netstring(token))
    case DeleteEntry(path, rev, dir) => Line("delete-entry", Netstring(path) + Tuple(Digits(rev)) + Netstring(dir))
    case AddDir(path, parent, child, copy) => Line("add-dir", Netstring(path) + Netstring(parent) + Netstring(child) + Tuple(OptSource(copy)))
    case OpenDir(path, parent, child, rev) => Line("open-dir", Netstring(path) + Netstring(parent) + Netstring(child) + Tuple(Digits(rev)))
    case ChangeDirProp(dir, name, value) => Line("change-dir-prop", Netstring(dir) + Netstring(name) + Tuple(OptNetstring(value)))
    case CloseDir(dir) => Line("close-dir", Netstring(dir))
    case AbsentDir(path, parent) => Line("absent-dir", Netstring(path) + Netstring(parent))
    case AddFile(path, dir, file, copy) => Line("add-file", Netstring(path) + Netstring(dir) + Netstring(file) + Tuple(OptSource(copy)))
    case OpenFile(path, dir, file, rev) => Line("open-file", Netstring(path) + Netstring(dir) + Netstring(file) + Tuple(Digits(rev)))
    case ApplyTextDelta(file, checksum) => Line("apply-textdelta", Netstring(file) + Tuple(OptNetstring(checksum)))
    case TextDeltaChunk(file, chunk) => Line("textdelta-chunk", Netstring(file) + Netstring(chunk))
    case TextDeltaEnd(file) => Line("textdelta-end", Netstring(file))
    case ChangeFileProp(file, name, value) => Line("change-file-prop", Netstring(file) + Netstring(name) + Tuple(OptNetstring(value)))
    case CloseFile(file, checksum) => Line("close-file", Netstring(file) + Tuple(OptNetstring(checksum)))
    case AbsentFile(path, parent) => Line("absent-file", Netstring(path) + Netstring(parent))
    case CloseEdit => Line("close-edit", [])
    case AbortEdit => Line("abort-edit", [])
  }

  /** The properties of a replayed revision, each a pair of name and value. */
  function PropPairs(pairs: seq<(seq<byte>, seq<byte>)>): seq<byte> {
    if pairs == [] then [] else Tuple(Netstring(pairs[0].0) + Netstring(pairs[0].1)) + PropPairs(pairs[1..])
  }

  // ----- words

  lemma PlainChars(t: string)
    requires Plain(t)
    ensures Ascii(t) == Chars(t)
  {
    assert forall i :: 0 <= i < |t| ==> IsPlain(t[i]);
  }

  lemma SpellingChars(v: Verb, t: string)
    requires Letters(v) == t
    ensures Spelling(v) == Chars(t)
  {
    hide Letters;
    LettersPlain(v);
    PlainChars(t);
  }

  /** A message is an item: its word, and its parameters. */
  lemma LineIsItem(v: Verb, t: string, params: seq<SvnItem>, text: seq<byte>)
    requires Letters(v) == t && EncodedAll(params) == text
    ensures Line(t, text) == Encoded(List([SvnItem.Word(Spelling(v)), List(params)])) + [10]
  {
    hide Letters, Spelling, EncodedAll, Chars;
    SpellingChars(v, t);
    var word := SvnItem.Word(Spelling(v));
    EncodedMany(word, List(params), Number(0), Number(0));
    WordAndParams(Spelling(v), params);
    Bracketed([], Encoded(word), EncodedAll(params));
    Unbracketed(Chars(t), text);
  }

  lemma WordAndParams(w: seq<byte>, params: seq<SvnItem>)
    ensures Encoded(SvnItem.Word(w)) == w + [32]
    ensures Encoded(List(params)) == [40, 32] + EncodedAll(params) + [41, 32]
    ensures Encoded(List([SvnItem.Word(w), List(params)]))
         == [40, 32] + EncodedAll([SvnItem.Word(w), List(params)]) + [41, 32]
  {
  }

  lemma Unbracketed(word: seq<byte>, params: seq<byte>)
    ensures [40, 32] + word + [32] + [40, 32] + params + [41, 32] + [41, 32] + [10]
         == ([40, 32] + ((word + [32]) + ([40, 32] + params + [41, 32])) + [41, 32]) + [10]
  {
  }

  // ----- commands

  lemma Pieces(n: u64, s: seq<byte>)
    ensures Encoded(Number(n)) == Digits(n) && Encoded(Text(s)) == Netstring(s)
  {
  }

  lemma Tuples(n: Option<u64>, s: Option<seq<byte>>, copy: Option<(Path, u64)>)
    ensures Encoded(List(OptNumber(n))) == Tuple(OptDigits(n))
    ensures Encoded(List(OptText(s))) == Tuple(OptNetstring(s))
    ensures Encoded(List(OptCopy(copy))) == Tuple(OptSource(copy))
  {
    hide Decimal.Numeral;
    EncodedNothing();
    if n.Some? { EncodedOne(Number(n.value)); }
    if s.Some? { EncodedOne(Text(s.value)); }
    if copy.Some? { EncodedMany(Text(copy.value.0), Number(copy.value.1), Number(0), Number(0)); }
  }

  lemma RevTuple(rev: u64)
    ensures Encoded(List([Number(rev)])) == Tuple(Digits(rev))
  {
    Tuples(Some(rev), None, None);
  }

  lemma EntryOnWire(c: EditorCommand)
    requires c.AddDir? || c.AddFile? || c.OpenDir? || c.OpenFile?
    ensures CommandLine(c) == Encoded(CommandItem(c)) + [10]
  {
    hide Encoded, EncodedAll, Digits, Netstring, Tuple, Line, OptSource, OptCopy;
    match c
    case AddDir(path, parent, child, copy) =>
      Tuples(None, None, copy); Pieces(0, path); Pieces(0, parent); Pieces(0, child);
      EncodedMany(Text(path), Text(parent), Text(child), List(OptCopy(copy)));
      LineIsItem(VAddDir, "add-dir", Params(c), Netstring(path) + Netstring(parent) + Netstring(child) + Tuple(OptSource(copy)));
    case AddFile(path, dir, file, copy) =>
      Tuples(None, None, copy); Pieces(0, path); Pieces(0, dir); Pieces(0, file);
      EncodedMany(Text(path), Text(dir), Text(file), List(OptCopy(copy)));
      LineIsItem(VAddFile, "add-file", Params(c), Netstring(path) + Netstring(dir) + Netstring(file) + Tuple(OptSource(copy)));
    case OpenDir(path, parent, child, rev) =>
      RevTuple(rev); Pieces(0, path); Pieces(0, parent); Pieces(0, child);
      EncodedMany(Text(path), Text(parent), Text(child), List([Number(rev)]));
      LineIsItem(VOpenDir, "open-dir", Params(c), Netstring(path) + Netstring(parent) + Netstring(child) + Tuple(Digits(rev)));
    case OpenFile(path, dir, file, rev) =>
      RevTuple(rev); Pieces(0, path); Pieces(0, dir); Pieces(0, file);
      EncodedMany(Text(path), Text(dir), Text(file), List([Number(rev)]));
      LineIsItem(VOpenFile, "open-file", Params(c), Netstring(path) + Netstring(dir) + Netstring(file) + Tuple(Digits(rev)));
  }

  lemma PropOnWire(c: EditorCommand)
    requires c.ChangeDirProp? || c.ChangeFileProp?
    ensures CommandLine(c) == Encoded(CommandItem(c)) + [10]
  {
    hide Encoded, EncodedAll, Digits, Netstring, Tuple, Line, OptNetstring, OptText;
    match c
    case ChangeDirProp(dir, name, value) =>
      Tuples(None, value, None); Pieces(0, dir); Pieces(0, name);
      EncodedMany(Text(dir), Text(name), List(OptText(value)), Number(0));
      LineIsItem(VChangeDirProp, "change-dir-prop", Params(c), Netstring(dir) + Netstring(name) + Tuple(OptNetstring(value)));
    case ChangeFileProp(file, name, value) =>
      Tuples(None, value, None); Pieces(0, file); Pieces(0, name);
      EncodedMany(Text(file), Text(name), List(OptText(value)), Number(0));
      LineIsItem(VChangeFileProp, "change-file-prop", Params(c), Netstring(file) + Netstring(name) + Tuple(OptNetstring(value)));
  }

  lemma ChecksumOnWire(c: EditorCommand)
    requires c.ApplyTextDelta? || c.CloseFile?
    ensures CommandLine(c) == Encoded(CommandItem(c)) + [10]
  {
    hide Encoded, EncodedAll, Digits, Netstring, Tuple, Line, OptNetstring, OptText;
    match c
    case ApplyTextDelta(file, checksum) =>
      Tuples(None, checksum, None); Pieces(0, file);
      EncodedMany(Text(file), List(OptText(checksum)), Number(0), Number(0));
      LineIsItem(VApplyTextDelta, "apply-textdelta", Params(c), Netstring(file) + Tuple(OptNetstring(checksum)));
    case CloseFile(file, checksum) =>
      Tuples(None, checksum, None); Pieces(0, file);
      EncodedMany(Text(file), List(OptText(checksum)), Number(0), Number(0));
      LineIsItem(VCloseFile, "close-file", Params(c), Netstring(file) + Tuple(OptNetstring(checksum)));
  }

  lemma ShortOnWire(c: EditorCommand)
    requires c.CloseDir? || c.TextDeltaEnd? || c.TextDeltaChunk?
    ensures CommandLine(c) == Encoded(CommandItem(c)) + [10]
  {
    hide Encoded, EncodedAll, Netstring, Line;
    match c
    case CloseDir(dir) =>
      Pieces(0, dir); EncodedOne(Text(dir));
      LineIsItem(VCloseDir, "close-dir", Params(c), Netstring(dir));
    case TextDeltaEnd(file) =>
      Pieces(0, file); EncodedOne(Text(file));
      LineIsItem(VTextDeltaEnd, "textdelta-end", Params(c), Netstring(file));
    case TextDeltaChunk(file, chunk) =>
      Pieces(0, file); Pieces(0, chunk); EncodedMany(Text(file), Text(chunk), Number(0), Number(0));
      LineIsItem(VTextDeltaChunk, "textdelta-chunk", Params(c), Netstring(file) + Netstring(chunk));
  }

  lemma LettersAre()
    ensures Letters(VCloseEdit) == "close-edit" && Letters(VAbortEdit) == "abort-edit"
  {
  }

  lemma EndOnWire(c: EditorCommand)
    requires c.CloseEdit? || c.AbortEdit?
    ensures CommandLine(c) == Encoded(CommandItem(c)) + [10]
  {
    hide Encoded, EncodedAll, Line, Letters;
    LettersAre();
    EncodedNothing();
    if c.CloseEdit? {
      LineIsItem(VCloseEdit, "close-edit", [], []);
    } else {
      LineIsItem(VAbortEdit, "abort-edit", [], []);
    }
  }

  lemma PathOnWire(c: EditorCommand)
    requires c.OpenRoot? || c.DeleteEntry? || c.AbsentDir? || c.AbsentFile?
    ensures CommandLine(c) == Encoded(CommandItem(c)) + [10]
  {
    hide Encoded, EncodedAll, Digits, Netstring, Tuple, Line, OptDigits, OptNumber;
    match c
    case OpenRoot(rev, token) =>
      Tuples(rev, None, None); Pieces(0, token);
      EncodedMany(List(OptNumber(rev)), Text(token), Number(0), Number(0));
      LineIsItem(VOpenRoot, "open-root", Params(c), Tuple(OptDigits(rev)) + Netstring(token));
    case DeleteEntry(path, rev, dir) =>
      RevTuple(rev); Pieces(0, path); Pieces(0, dir);
      EncodedMany(Text(path), List([Number(rev)]), Text(dir), Number(0));
      LineIsItem(VDeleteEntry, "delete-entry", Params(c), Netstring(path) + Tuple(Digits(rev)) + Netstring(dir));
    case AbsentDir(path, parent) =>
      Pieces(0, path); Pieces(0, parent); EncodedMany(Text(path), Text(parent), Number(0), Number(0));
      LineIsItem(VAbsentDir, "absent-dir", Params(c), Netstring(path) + Netstring(parent));
    case AbsentFile(path, parent) =>
      Pieces(0, path); Pieces(0, parent); EncodedMany(Text(path), Text(parent), Number(0), Number(0));
      LineIsItem(VAbsentFile, "absent-file", Params(c), Netstring(path) + Netstring(parent));
  }

  /** A command is printed, word and parameters, just as the protocol spells it. */
  lemma CommandOnWire(c: EditorCommand)
    ensures CommandLine(c) == Encoded(CommandItem(c)) + [10]
  {
    hide *;
    if c.AddDir? || c.AddFile? || c.OpenDir? || c.OpenFile? {
      EntryOnWire(c);
    } else if c.ChangeDirProp? || c.ChangeFileProp? {
      PropOnWire(c);
    } else if c.ApplyTextDelta? || c.CloseFile? {
      ChecksumOnWire(c);
    } else if c.OpenRoot? || c.DeleteEntry? || c.AbsentDir? || c.AbsentFile? {
      PathOnWire(c);
    } else if c.CloseEdit? || c.AbortEdit? {
      EndOnWire(c);
    } else {
      ShortOnWire(c);
    }
  }

  // ----- what a server sends

  /** One message of a drive: a command, or what only a server sends before them. */
  datatype Message = Command(command: EditorCommand) | Target(rev: u64) | Props(pairs: seq<(seq<byte>, seq<byte>)>)

  function MessageLine(m: Message): seq<byte> {
    match m
    case Command(c) => CommandLine(c)
    case Target(rev) => Line("target-rev", Digits(rev))
    case Props(pairs) => Line("revprops", PropPairs(pairs))
  }

  function PairItem(pair: (seq<byte>, seq<byte>)): SvnItem { List([Text(pair.0), Text(pair.1)]) }

  function PairItems(pairs: seq<(seq<byte>, seq<byte>)>): seq<SvnItem> {
    seq(|pairs|, i requires 0 <= i < |pairs| => PairItem(pairs[i]))
  }

  function MessageItem(m: Message): SvnItem {
    match m
    case Command(c) => CommandItem(c)
    case Target(rev) => List([SvnItem.Word(Spelling(VTargetRev)), List([Number(rev)])])
    case Props(pairs) => List([SvnItem.Word(Spelling(VRevProps)), List(PairItems(pairs))])
  }

  lemma {:induction false} PairsOnWire(pairs: seq<(seq<byte>, seq<byte>)>)
    ensures EncodedAll(PairItems(pairs)) == PropPairs(pairs)
  {
    hide Encoded, Tuple, Netstring, PairItem;
    EncodedNothing();
    if pairs != [] {
      PairsOnWire(pairs[1..]);
      assert PairItems(pairs)[1..] == PairItems(pairs[1..]);
      PairOnWire(pairs[0]);
    }
  }

  lemma PairOnWire(pair: (seq<byte>, seq<byte>))
    ensures Encoded(PairItem(pair)) == Tuple(Netstring(pair.0) + Netstring(pair.1))
  {
    hide Decimal.Numeral;
    Pieces(0, pair.0);
    Pieces(0, pair.1);
    EncodedMany(Text(pair.0), Text(pair.1), Number(0), Number(0));
  }

  lemma MessageOnWire(m: Message)
    ensures MessageLine(m) == Encoded(MessageItem(m)) + [10]
  {
    hide Encoded, EncodedAll, Line, CommandLine, CommandItem, Digits;
    match m
    case Command(c) => CommandOnWire(c);
    case Target(rev) =>
      Pieces(rev, []); EncodedOne(Number(rev));
      LineIsItem(VTargetRev, "target-rev", [Number(rev)], Digits(rev));
    case Props(pairs) =>
      PairsOnWire(pairs);
      LineIsItem(VRevProps, "revprops", PairItems(pairs), PropPairs(pairs));
  }

  // ----- what it is read as

  /** A command that comes back as it was sent. */
  predicate Plainly(c: EditorCommand) {
    && Typed(c) && EditorEvents.Clean(c) && !c.CloseEdit? && !c.AbortEdit?
    && ((c.AddDir? || c.AddFile?) && c.copyFrom.Some? ==> Canonical(c.copyFrom.value.0, false) == Ok(c.copyFrom.value.0))
  }

  predicate PlainMessage(m: Message) {
    match m
    case Command(c) => Plainly(c)
    case Target(_) => true
    case Props(pairs) => forall k :: 0 <= k < |pairs| ==> PlainPair(pairs[k])
  }

  predicate PlainPair(pair: (seq<byte>, seq<byte>)) {
    Utf8.Valid(pair.0) && |pair.0| < TWO_64 && |pair.1| < TWO_64
  }

  /** Each name with the value it is given last. */
  ghost predicate LastValues(pairs: seq<(seq<byte>, seq<byte>)>, props: Properties) {
    && (forall name :: name in props <==> exists k :: 0 <= k < |pairs| && pairs[k].0 == name)
    && (forall k :: 0 <= k < |pairs| && (forall j :: k < j < |pairs| ==> pairs[j].0 != pairs[k].0) ==>
          pairs[k].0 in props && props[pairs[k].0] == pairs[k].1)
  }

  /** The properties told of: a later pair replaces an earlier one of the same name. */
  function Kept(pairs: seq<(seq<byte>, seq<byte>)>): Properties {
    if pairs == [] then map[] else Kept(pairs[..|pairs| - 1])[pairs[|pairs| - 1].0 := pairs[|pairs| - 1].1]
  }

  /** The event a message is told as. */
  function EventFor(m: Message): EditorEvent {
    match m
    case Command(c) => Received(c)
    case Target(rev) => TargetRev(rev)
    case Props(pairs) => RevProps(Kept(pairs))
  }

  lemma {:induction false} PropsParse(pairs: seq<(seq<byte>, seq<byte>)>)
    requires forall k :: 0 <= k < |pairs| ==> PlainPair(pairs[k])
    ensures ParsePropList(PairItems(pairs)) == Ok(Kept(pairs))
    decreases |pairs|
  {
    hide Utf8.Valid;
    if pairs != [] {
      var before := pairs[..|pairs| - 1];
      PropsParse(before);
      assert PairItems(pairs)[..|pairs| - 1] == PairItems(before);
    }
  }

  /** Just the names sent are told, each with the value sent last. */
  lemma {:induction false} KeptLast(pairs: seq<(seq<byte>, seq<byte>)>)
    ensures LastValues(pairs, Kept(pairs))
    decreases |pairs|
  {
    hide LastValues;
    if pairs == [] {
      NoValues();
    } else {
      var before, last := pairs[..|pairs| - 1], pairs[|pairs| - 1];
      KeptLast(before);
      LastValuesSnoc(before, last, Kept(before));
      assert pairs == before + [last];
    }
  }

  lemma NoValues()
    ensures LastValues([], map[])
  {
  }

  lemma LastValuesSnoc(before: seq<(seq<byte>, seq<byte>)>, last: (seq<byte>, seq<byte>), props: Properties)
    requires LastValues(before, props)
    ensures LastValues(before + [last], props[last.0 := last.1])
  {
    var pairs, now := before + [last], props[last.0 := last.1];
    assert forall k :: 0 <= k < |before| ==> pairs[k] == before[k];
    forall name ensures name in now <==> exists k :: 0 <= k < |pairs| && pairs[k].0 == name {
      if name == last.0 { assert pairs[|before|].0 == name; }
    }
    forall k | 0 <= k < |pairs| && (forall j :: k < j < |pairs| ==> pairs[j].0 != pairs[k].0)
      ensures pairs[k].0 in now && now[pairs[k].0] == pairs[k].1
    {
      if k < |before| {
        assert pairs[|before|].0 != pairs[k].0;
        assert forall j :: k < j < |before| ==> pairs[j].0 == before[j].0;
      }
    }
  }

  lemma PairsShallow(pairs: seq<(seq<byte>, seq<byte>)>)
    requires forall k :: 0 <= k < |pairs| ==> PlainPair(pairs[k])
    ensures forall p :: p in PairItems(pairs) ==> Shallow(p)
  {
    hide PlainPair, Shallow, PairItem;
    forall p | p in PairItems(pairs) ensures Shallow(p) {
      var k :| 0 <= k < |pairs| && p == PairItem(pairs[k]);
      PairShallow(pairs[k]);
    }
  }

  lemma PairShallow(pair: (seq<byte>, seq<byte>))
    requires PlainPair(pair)
    ensures Shallow(PairItem(pair))
  {
  }

  lemma MessageReadable(m: Message)
    requires PlainMessage(m)
    ensures Readable(MessageItem(m))
  {
    hide Readable, Plainly, PlainPair, Spelling, CommandItem, Shallow;
    match m
    case Command(c) => PlainlyTyped(c); CommandReadable(c);
    case Target(rev) => NumberShallow(rev); ShallowReadable(VTargetRev, [Number(rev)]);
    case Props(pairs) => PairsShallow(pairs); ShallowReadable(VRevProps, PairItems(pairs));
  }

  lemma PlainlyTyped(c: EditorCommand)
    requires Plainly(c)
    ensures Typed(c) && CanonicalCommand(c) == Ok(c)
  {
  }

  lemma NumberShallow(n: u64)
    ensures Shallow(Number(n))
  {
  }

  lemma ShallowReadable(v: Verb, params: seq<SvnItem>)
    requires forall p :: p in params ==> Shallow(p)
    ensures Readable(List([SvnItem.Word(Spelling(v)), List(params)]))
  {
    hide Spelling, PrintableWord, DepthAll;
    SpellingPrintable(v);
    assert forall i :: 0 <= i < |params| ==> params[i] in params && Shallow(params[i]);
    FlatDepth(params);
    var word, list := SvnItem.Word(Spelling(v)), List(params);
    PairDepth(word, list);
    assert Printable(list) && Printable(word) && Depth(word) == 0 && Depth(list) <= 2;
    assert Printable(List([word, list]));
  }

  /** A message read off the wire is the item it was written as, and is told as what was sent. */
  lemma MessageReads(m: Message, rest: seq<byte>)
    requires PlainMessage(m)
    ensures ParseItem(MessageLine(m) + rest) == Done(MessageItem(m), [10] + rest)
    ensures EventOf(MessageItem(m)) == Ok(EventFor(m))
  {
    hide MessageLine, MessageItem, PlainMessage, ParseItem, Encoded, EventOf, EventFor, Readable;
    MessageOnWire(m);
    Regroup(Encoded(MessageItem(m)), [10], rest);
    MessageReadable(m);
    ItemReadsBack(MessageItem(m), [10] + rest);
    MessageTells(m);
  }

  lemma MessageTells(m: Message)
    requires PlainMessage(m)
    ensures EventOf(MessageItem(m)) == Ok(EventFor(m))
  {
    hide Plainly, PlainPair, Spelling, CommandItem, VerbOf, ParsePropList, PairItems, Kept;
    match m
    case Command(c) => PlainCommandTells(c);
    case Target(rev) => VerbOfSpelling(VTargetRev);
    case Props(pairs) => PropsParse(pairs); VerbOfSpelling(VRevProps);
  }

  lemma PlainCommandTells(c: EditorCommand)
    requires Plainly(c)
    ensures EventOf(CommandItem(c)) == Ok(Received(c))
  {
    hide EventOf, CommandItem, Canonical;
    ComesBackUnchanged(c);
  }
}
