/** Reading an editor drive: from items to events, and back from what was printed. */
module EditorEvents {
  import opened Bytes
  import opened Items
  import opened Grammar
  import opened ItemRoundTrip
  import opened Paths
  import opened DirChain
  import opened EditorCommands
  import opened CommandWords
  import opened EditorCodec
  import Utf8

  type Properties = map<seq<byte>, seq<byte>>

  /** What a handler is told: a command received, or one of the three things only a server sends. */
  datatype EditorEvent =
    | TargetRev(rev: u64)
    | RevProps(props: Properties)
    | FinishReplay
    | Received(command: EditorCommand)

  datatype EventError =
    | NotACommand
    | TooShort
    | MissingRev
    | NotAString
    | NotATuple
    | TupleTooLong
    | BadCopySource
    | BadEventPath(error: PathError)
    | BadProperties
    | UnknownCommand

  // ----- items as values

  function AsU64(item: SvnItem): Option<u64> {
    match item case Number(n) => Some(n) case _ => None
  }

  function AsString(item: SvnItem): Option<seq<byte>> {
    match item case Text(s) => if Utf8.Valid(s) then Some(s) else None case _ => None
  }

  function AsBytes(item: SvnItem): Option<seq<byte>> {
    match item case Text(s) => Some(s) case _ => None
  }

  function ReqString(item: SvnItem): Result<seq<byte>, EventError> {
    match AsString(item) case Some(s) => Ok(s) case None => Err(NotAString)
  }

  function ReqBytes(item: SvnItem): Result<seq<byte>, EventError> {
    match AsBytes(item) case Some(s) => Ok(s) case None => Err(NotAString)
  }

  function ReqRelPath(item: SvnItem): Result<Path, EventError> {
    var raw :- ReqString(item);
    match Canonical(raw, false) case Ok(p) => Ok(p) case Err(e) => Err(BadEventPath(e))
  }

  /** A number, alone or first in a tuple. */
  function OptTupleU64(item: SvnItem): Option<u64> {
    match item
    case List(items) => if items == [] then None else AsU64(items[0])
    case _ => AsU64(item)
  }

  function ReqRev(item: SvnItem): Result<u64, EventError> {
    match OptTupleU64(item) case Some(n) => Ok(n) case None => Err(MissingRev)
  }

  function OptTupleCopyFrom(item: SvnItem): Result<Option<(Path, u64)>, EventError> {
    match item
    case List(items) =>
      if items == [] then Ok(None)
      else if |items| != 2 then Err(BadCopySource)
      else if AsString(items[0]).None? || AsU64(items[1]).None? then Err(BadCopySource)
      else (match Canonical(AsString(items[0]).value, false)
        case Err(e) => Err(BadEventPath(e))
        case Ok(path) => Ok(Some((path, AsU64(items[1]).value))))
    case _ => Err(NotATuple)
  }

  function CopyFromAt(params: seq<SvnItem>, i: nat): Result<Option<(Path, u64)>, EventError> {
    if i < |params| then OptTupleCopyFrom(params[i]) else Ok(None)
  }

  /** An optional tuple of one string, or the bare string. */
  function OptionalTuple(params: seq<SvnItem>, i: nat, text: bool): Result<Option<seq<byte>>, EventError> {
    if i >= |params| then Ok(None)
    else
      match params[i]
      case List(items) =>
        if items == [] then Ok(None)
        else if |items| > 1 then Err(TupleTooLong)
        else
          var s :- if text then ReqString(items[0]) else ReqBytes(items[0]);
          Ok(Some(s))
      case item =>
        var s :- if text then ReqString(item) else ReqBytes(item);
        Ok(Some(s))
  }

  function ParsePropList(entries: seq<SvnItem>): Result<Properties, EventError> {
    if entries == [] then Ok(map[])
    else
      var before :- ParsePropList(entries[..|entries| - 1]);
      match entries[|entries| - 1]
      case List(items) =>
        if |items| < 2 || AsString(items[0]).None? || AsBytes(items[1]).None? then Err(BadProperties)
        else Ok(before[AsString(items[0]).value := AsBytes(items[1]).value])
      case _ => Err(BadProperties)
  }

  // ----- events

  function ParseEntry(params: seq<SvnItem>): Result<(Path, Token, Token), EventError>
    requires |params| >= 3
  {
    var path :- ReqRelPath(params[0]);
    var parent :- ReqString(params[1]);
    var child :- ReqString(params[2]);
    Ok((path, parent, child))
  }

  function ParseAdd(params: seq<SvnItem>, isDir: bool): Result<EditorCommand, EventError> {
    if |params| < 3 then Err(TooShort)
    else
      var (path, parent, child) :- ParseEntry(params);
      var copyFrom :- CopyFromAt(params, 3);
      Ok(if isDir then AddDir(path, parent, child, copyFrom) else AddFile(path, parent, child, copyFrom))
  }

  function ParseOpen(params: seq<SvnItem>, isDir: bool): Result<EditorCommand, EventError> {
    if |params| < 4 then Err(TooShort)
    else
      var rev :- ReqRev(params[3]);
      var (path, parent, child) :- ParseEntry(params);
      Ok(if isDir then OpenDir(path, parent, child, rev) else OpenFile(path, parent, child, rev))
  }

  function ParseProp(params: seq<SvnItem>, isDir: bool): Result<EditorCommand, EventError> {
    if |params| < 2 then Err(TooShort)
    else
      var token :- ReqString(params[0]);
      var name :- ReqString(params[1]);
      var value :- OptionalTuple(params, 2, false);
      Ok(if isDir then ChangeDirProp(token, name, value) else ChangeFileProp(token, name, value))
  }

  function ParseAbsent(params: seq<SvnItem>, isDir: bool): Result<EditorCommand, EventError> {
    if |params| < 2 then Err(TooShort)
    else
      var path :- ReqRelPath(params[0]);
      var parent :- ReqString(params[1]);
      Ok(if isDir then AbsentDir(path, parent) else AbsentFile(path, parent))
  }

  function FirstString(params: seq<SvnItem>): Result<Token, EventError> {
    if params == [] then Err(TooShort) else ReqString(params[0])
  }

  /** A token and an optional checksum. */
  function ParseChecked(params: seq<SvnItem>): Result<(Token, Option<seq<byte>>), EventError> {
    if params == [] then Err(TooShort)
    else
      var token :- ReqString(params[0]);
      var checksum :- OptionalTuple(params, 1, true);
      Ok((token, checksum))
  }

  function ParseOpenRoot(params: seq<SvnItem>): Result<EditorCommand, EventError> {
    if |params| < 2 then Err(TooShort)
    else
      var token :- ReqString(params[1]);
      Ok(OpenRoot(OptTupleU64(params[0]), token))
  }

  function ParseDelete(params: seq<SvnItem>): Result<EditorCommand, EventError> {
    if |params| < 3 then Err(TooShort)
    else
      var rev :- ReqRev(params[1]);
      var path :- ReqRelPath(params[0]);
      var token :- ReqString(params[2]);
      Ok(DeleteEntry(path, rev, token))
  }

  function ParseChunk(params: seq<SvnItem>): Result<EditorCommand, EventError> {
    if |params| < 2 then Err(TooShort)
    else
      var token :- ReqString(params[0]);
      var chunk :- ReqBytes(params[1]);
      Ok(TextDeltaChunk(token, chunk))
  }

  function ParseReceived(verb: Verb, params: seq<SvnItem>): Result<EditorCommand, EventError> {
    match verb
    case VOpenRoot => ParseOpenRoot(params)
    case VDeleteEntry => ParseDelete(params)
    case VAddDir => ParseAdd(params, true)
    case VOpenDir => ParseOpen(params, true)
    case VChangeDirProp => ParseProp(params, true)
    case VCloseDir =>
      var token :- FirstString(params);
      Ok(CloseDir(token))
    case VAbsentDir => ParseAbsent(params, true)
    case VAddFile => ParseAdd(params, false)
    case VOpenFile => ParseOpen(params, false)
    case VApplyTextDelta =>
      var (token, checksum) :- ParseChecked(params);
      Ok(ApplyTextDelta(token, checksum))
    case VTextDeltaChunk => ParseChunk(params)
    case VTextDeltaEnd =>
      var token :- FirstString(params);
      Ok(TextDeltaEnd(token))
    case VChangeFileProp => ParseProp(params, false)
    case VCloseFile =>
      var (token, checksum) :- ParseChecked(params);
      Ok(CloseFile(token, checksum))
    case VAbsentFile => ParseAbsent(params, false)
    case _ => Err(UnknownCommand)
  }

  function ParseEditorEvent(cmd: seq<byte>, params: seq<SvnItem>): Result<EditorEvent, EventError> {
    match VerbOf(cmd)
    case None => Err(UnknownCommand)
    case Some(VTargetRev) =>
      if params == [] || AsU64(params[0]).None? then Err(MissingRev) else Ok(TargetRev(AsU64(params[0]).value))
    case Some(VRevProps) =>
      var props :- ParsePropList(params);
      Ok(RevProps(props))
    case Some(verb) =>
      AsEvent(ParseReceived(verb, params))
  }

  function AsEvent(r: Result<EditorCommand, EventError>): Result<EditorEvent, EventError> {
    match r case Ok(c) => Ok(Received(c)) case Err(e) => Err(e)
  }

  /** A command is a list of a word and a parameter list. */
  function ParseCommandItem(item: SvnItem): Result<(seq<byte>, seq<SvnItem>), EventError> {
    match item
    case List(parts) =>
      if |parts| == 2 && parts[0].Word? && parts[1].List? then Ok((parts[0].name, parts[1].items)) else Err(NotACommand)
    case _ => Err(NotACommand)
  }

  // ----- the other forms a parameter may have

  /** A revision, bare or first in a tuple. */
  ghost predicate NumberForm(item: SvnItem, n: u64) {
    item == Number(n) || (item.List? && item.items != [] && item.items[0] == Number(n))
  }

  /** A revision may come bare or in a tuple, and one that may be missing as an empty tuple. */
  lemma RevisionForms(path: Path, parent: Token, child: Token, rev: SvnItem, n: u64, more: seq<SvnItem>)
    requires Canonical(path, false) == Ok(path) && Utf8.Valid(path) && Utf8.Valid(parent) && Utf8.Valid(child) && NumberForm(rev, n)
    ensures ParseReceived(VOpenDir, [Text(path), Text(parent), Text(child), rev] + more) == Ok(OpenDir(path, parent, child, n))
    ensures ParseReceived(VOpenFile, [Text(path), Text(parent), Text(child), rev] + more) == Ok(OpenFile(path, parent, child, n))
    ensures ParseReceived(VDeleteEntry, [Text(path), rev, Text(parent)] + more) == Ok(DeleteEntry(path, n, parent))
    ensures ParseReceived(VOpenRoot, [rev, Text(child)] + more) == Ok(OpenRoot(Some(n), child))
    ensures ParseReceived(VOpenRoot, [List([]), Text(child)] + more) == Ok(OpenRoot(None, child))
  {
    hide Canonical, Utf8.Valid;
  }

  lemma OmittedAt(front: seq<SvnItem>, tail: seq<SvnItem>, text: bool)
    requires tail == [] || tail == [List([])]
    ensures OptionalTuple(front + tail, |front|, text) == Ok(None) && CopyFromAt(front + tail, |front|) == Ok(None)
    ensures forall k :: 0 <= k < |front| ==> (front + tail)[k] == front[k]
  {
  }

  /** A copy source may be left out altogether, or given as an empty tuple. */
  lemma SourceOmitted(path: Path, parent: Token, child: Token, tail: seq<SvnItem>)
    requires Canonical(path, false) == Ok(path) && Utf8.Valid(path) && Utf8.Valid(parent) && Utf8.Valid(child)
    requires tail == [] || tail == [List([])]
    ensures ParseReceived(VAddDir, [Text(path), Text(parent), Text(child)] + tail) == Ok(AddDir(path, parent, child, None))
    ensures ParseReceived(VAddFile, [Text(path), Text(parent), Text(child)] + tail) == Ok(AddFile(path, parent, child, None))
  {
    hide Canonical, Utf8.Valid, OptionalTuple, CopyFromAt;
    OmittedAt([Text(path), Text(parent), Text(child)], tail, true);
  }

  /** So may the value of a property, which takes the property away. */
  lemma ValueOmitted(token: Token, name: seq<byte>, tail: seq<SvnItem>)
    requires Utf8.Valid(token) && Utf8.Valid(name) && (tail == [] || tail == [List([])])
    ensures ParseReceived(VChangeDirProp, [Text(token), Text(name)] + tail) == Ok(ChangeDirProp(token, name, None))
    ensures ParseReceived(VChangeFileProp, [Text(token), Text(name)] + tail) == Ok(ChangeFileProp(token, name, None))
  {
    hide Utf8.Valid, OptionalTuple, CopyFromAt;
    OmittedAt([Text(token), Text(name)], tail, false);
  }

  /** And a checksum. */
  lemma ChecksumOmitted(token: Token, tail: seq<SvnItem>)
    requires Utf8.Valid(token) && (tail == [] || tail == [List([])])
    ensures ParseReceived(VApplyTextDelta, [Text(token)] + tail) == Ok(ApplyTextDelta(token, None))
    ensures ParseReceived(VCloseFile, [Text(token)] + tail) == Ok(CloseFile(token, None))
  {
    hide Utf8.Valid, OptionalTuple, CopyFromAt;
    OmittedAt([Text(token)], tail, true);
  }

  /** The value of a property may come bare, as any bytes. */
  lemma ValueBare(token: Token, name: seq<byte>, value: seq<byte>)
    requires Utf8.Valid(token) && Utf8.Valid(name)
    ensures ParseReceived(VChangeDirProp, [Text(token), Text(name), Text(value)]) == Ok(ChangeDirProp(token, name, Some(value)))
    ensures ParseReceived(VChangeFileProp, [Text(token), Text(name), Text(value)]) == Ok(ChangeFileProp(token, name, Some(value)))
  {
    hide Utf8.Valid;
    assert OptionalTuple([Text(token), Text(name), Text(value)], 2, false) == Ok(Some(value));
  }

  /** And a checksum, if it is UTF-8. */
  lemma ChecksumBare(token: Token, checksum: seq<byte>)
    requires Utf8.Valid(token)
    ensures ParseReceived(VApplyTextDelta, [Text(token), Text(checksum)])
         == if Utf8.Valid(checksum) then Ok(ApplyTextDelta(token, Some(checksum))) else Err(NotAString)
    ensures ParseReceived(VCloseFile, [Text(token), Text(checksum)])
         == if Utf8.Valid(checksum) then Ok(CloseFile(token, Some(checksum))) else Err(NotAString)
  {
    hide Utf8.Valid;
    assert OptionalTuple([Text(token), Text(checksum)], 1, true) == if Utf8.Valid(checksum) then Ok(Some(checksum)) else Err(NotAString);
  }

  // ----- forms that are refused

  /** A copy source is a tuple of a path and a revision, or an empty one. */
  lemma SourceRefused(path: Path, parent: Token, child: Token, source: SvnItem)
    requires Canonical(path, false) == Ok(path) && Utf8.Valid(path) && Utf8.Valid(parent) && Utf8.Valid(child)
    requires source.List? ==> source.items != [] && !(|source.items| == 2 && source.items[0].Text? && source.items[1].Number?)
    ensures var e := if source.List? then BadCopySource else NotATuple;
      && ParseReceived(VAddDir, [Text(path), Text(parent), Text(child), source]) == Err(e)
      && ParseReceived(VAddFile, [Text(path), Text(parent), Text(child), source]) == Err(e)
  {
    hide Canonical, Utf8.Valid, ParseEntry, OptTupleCopyFrom;
    SourceMalformed(source);
    EntryRead(path, parent, child, source);
  }

  lemma SourceMalformed(source: SvnItem)
    requires source.List? ==> source.items != [] && !(|source.items| == 2 && source.items[0].Text? && source.items[1].Number?)
    ensures OptTupleCopyFrom(source) == Err(if source.List? then BadCopySource else NotATuple)
  {
    hide Canonical, Utf8.Valid;
  }

  lemma EntryRead(path: Path, parent: Token, child: Token, source: SvnItem)
    requires Canonical(path, false) == Ok(path) && Utf8.Valid(path) && Utf8.Valid(parent) && Utf8.Valid(child)
    ensures ParseEntry([Text(path), Text(parent), Text(child), source]) == Ok((path, parent, child))
  {
    hide Canonical, Utf8.Valid;
  }

  /** What opens or deletes needs a revision. */
  lemma RevisionRefused(path: SvnItem, parent: SvnItem, child: SvnItem, rev: SvnItem)
    requires !rev.Number? && (rev.List? ==> rev.items == [] || !rev.items[0].Number?)
    ensures ParseReceived(VOpenDir, [path, parent, child, rev]) == Err(MissingRev)
    ensures ParseReceived(VOpenFile, [path, parent, child, rev]) == Err(MissingRev)
    ensures ParseReceived(VDeleteEntry, [path, rev, parent]) == Err(MissingRev)
  {
  }

  /** An optional string is alone in its tuple. */
  lemma TupleRefused(token: Token, name: seq<byte>, items: seq<SvnItem>)
    requires Utf8.Valid(token) && Utf8.Valid(name) && |items| > 1
    ensures ParseReceived(VChangeDirProp, [Text(token), Text(name), List(items)]) == Err(TupleTooLong)
    ensures ParseReceived(VChangeFileProp, [Text(token), Text(name), List(items)]) == Err(TupleTooLong)
    ensures ParseReceived(VApplyTextDelta, [Text(token), List(items)]) == Err(TupleTooLong)
    ensures ParseReceived(VCloseFile, [Text(token), List(items)]) == Err(TupleTooLong)
  {
    hide Utf8.Valid;
    assert OptionalTuple([Text(token), Text(name), List(items)], 2, false) == Err(TupleTooLong);
    assert OptionalTuple([Text(token), List(items)], 1, true) == Err(TupleTooLong);
  }

  /** The least number of parameters of each command. */
  function LeastParams(verb: Verb): nat {
    match verb
    case VOpenRoot => 2
    case VDeleteEntry => 3
    case VAddDir => 3
    case VOpenDir => 4
    case VChangeDirProp => 2
    case VCloseDir => 1
    case VAbsentDir => 2
    case VAddFile => 3
    case VOpenFile => 4
    case VApplyTextDelta => 1
    case VTextDeltaChunk => 2
    case VTextDeltaEnd => 1
    case VChangeFileProp => 2
    case VCloseFile => 1
    case VAbsentFile => 2
    case _ => 0
  }

  lemma TooFewRefused(verb: Verb, params: seq<SvnItem>)
    requires |params| < LeastParams(verb)
    ensures ParseReceived(verb, params) == Err(TooShort)
  {
  }

  // ----- what a printed command comes back as

  function ReceivedCopy(copy: Option<(Path, u64)>): Result<Option<(Path, u64)>, EventError> {
    match copy
    case None => Ok(None)
    case Some((source, rev)) =>
      match Canonical(source, false)
      case Err(e) => Err(BadEventPath(e))
      case Ok(path) => Ok(Some((path, rev)))
  }

  /** The command received: as sent, but for the copy source, which is put in canonical form. */
  function AsReceived(c: EditorCommand): Result<EditorCommand, EventError> {
    match c
    case CloseEdit => Err(UnknownCommand)
    case AbortEdit => Err(UnknownCommand)
    case AddDir(path, parent, child, copy) =>
      var copy' :- ReceivedCopy(copy);
      Ok(AddDir(path, parent, child, copy'))
    case AddFile(path, dir, file, copy) =>
      var copy' :- ReceivedCopy(copy);
      Ok(AddFile(path, dir, file, copy'))
    case _ => Ok(c)
  }

  /** The path, if there is one, is canonical. */
  predicate Clean(c: EditorCommand) {
    CanonicalCommand(c) == Ok(c)
  }

  lemma PathReadsBack(path: seq<byte>)
    requires Str(path) && Canonical(path, false) == Ok(path)
    ensures ReqRelPath(Text(path)) == Ok(path)
  {
    hide Canonical, Utf8.Valid;
  }

  lemma EntryReadsBack(path: Path, parent: Token, child: Token, last: seq<SvnItem>)
    requires Str(path) && Canonical(path, false) == Ok(path) && Str(parent) && Str(child)
    ensures ParseEntry([Text(path), Text(parent), Text(child), List(last)]) == Ok((path, parent, child))
  {
    hide Canonical, Utf8.Valid;
  }

  lemma CopyReadsBack(copy: Option<(Path, u64)>)
    requires copy.Some? ==> Str(copy.value.0)
    ensures OptTupleCopyFrom(List(OptCopy(copy))) == ReceivedCopy(copy)
  {
    hide Canonical, Utf8.Valid;
  }

  lemma PropReadsBack(token: Token, name: seq<byte>, value: Option<seq<byte>>, isDir: bool)
    requires Str(token) && Str(name)
    ensures ParseProp([Text(token), Text(name), List(OptText(value))], isDir)
         == Ok(if isDir then ChangeDirProp(token, name, value) else ChangeFileProp(token, name, value))
  {
    hide Utf8.Valid;
  }

  lemma CheckedReadsBack(token: Token, checksum: Option<seq<byte>>)
    requires Str(token) && OptStr(checksum)
    ensures ParseChecked([Text(token), List(OptText(checksum))]) == Ok((token, checksum))
  {
    hide Utf8.Valid;
  }

  /** The parameters of a command that adds or opens parse back into it. */
  lemma EntriesReadBack(c: EditorCommand)
    requires Typed(c) && Clean(c) && (c.AddDir? || c.AddFile? || c.OpenDir? || c.OpenFile?)
    ensures ParseReceived(VerbFor(c), Params(c)) == AsReceived(c)
  {
    hide Canonical, Utf8.Valid, ParseEntry, OptTupleCopyFrom, ReceivedCopy, OptCopy;
    match c
    case AddDir(path, parent, child, copy) => EntryReadsBack(path, parent, child, OptCopy(copy)); CopyReadsBack(copy);
    case AddFile(path, dir, file, copy) => EntryReadsBack(path, dir, file, OptCopy(copy)); CopyReadsBack(copy);
    case OpenDir(path, parent, child, rev) => EntryReadsBack(path, parent, child, [Number(rev)]);
    case OpenFile(path, dir, file, rev) => EntryReadsBack(path, dir, file, [Number(rev)]);
  }

  lemma PathsReadBack(c: EditorCommand)
    requires Typed(c) && Clean(c) && (c.DeleteEntry? || c.AbsentDir? || c.AbsentFile?)
    ensures ParseReceived(VerbFor(c), Params(c)) == AsReceived(c)
  {
    hide Canonical, Utf8.Valid;
    PathReadsBack(c.path);
  }

  lemma TuplesReadBack(c: EditorCommand)
    requires Typed(c) && (c.ChangeDirProp? || c.ChangeFileProp? || c.ApplyTextDelta? || c.CloseFile?)
    ensures ParseReceived(VerbFor(c), Params(c)) == AsReceived(c)
  {
    hide Utf8.Valid, ParseProp, ParseChecked, OptText;
    match c
    case ChangeDirProp(token, name, value) => PropReadsBack(token, name, value, true);
    case ChangeFileProp(token, name, value) => PropReadsBack(token, name, value, false);
    case ApplyTextDelta(token, checksum) => CheckedReadsBack(token, checksum);
    case CloseFile(token, checksum) => CheckedReadsBack(token, checksum);
  }

  lemma TokensReadBack(c: EditorCommand)
    requires Typed(c) && (c.OpenRoot? || c.CloseDir? || c.TextDeltaChunk? || c.TextDeltaEnd? || c.CloseEdit? || c.AbortEdit?)
    ensures ParseReceived(VerbFor(c), Params(c)) == AsReceived(c)
  {
    hide Utf8.Valid;
  }

  /** The parameters of a command parse back into it. */
  lemma ParamsReadBack(c: EditorCommand)
    requires Typed(c) && Clean(c)
    ensures ParseReceived(VerbFor(c), Params(c)) == AsReceived(c)
  {
    hide *;
    if c.AddDir? || c.AddFile? || c.OpenDir? || c.OpenFile? {
      EntriesReadBack(c);
    } else if c.DeleteEntry? || c.AbsentDir? || c.AbsentFile? {
      PathsReadBack(c);
    } else if c.ChangeDirProp? || c.ChangeFileProp? || c.ApplyTextDelta? || c.CloseFile? {
      TuplesReadBack(c);
    } else {
      TokensReadBack(c);
    }
  }

  // ----- one command through the wire

  /** An atom, or a tuple of atoms. */
  predicate Flat(item: SvnItem) {
    item.List? ==> forall i :: 0 <= i < |item.items| ==> !item.items[i].List?
  }

  lemma {:induction false} AtomsDepth(items: seq<SvnItem>)
    requires forall i :: 0 <= i < |items| ==> !items[i].List?
    ensures DepthAll(items) == 0
  {
    if items != [] {
      AtomsDepth(items[1..]);
    }
  }

  lemma {:induction false} FlatDepth(items: seq<SvnItem>)
    requires forall i :: 0 <= i < |items| ==> Flat(items[i])
    ensures DepthAll(items) <= 1
  {
    if items != [] {
      if items[0].List? {
        AtomsDepth(items[0].items);
      }
      FlatDepth(items[1..]);
    }
  }

  predicate Shallow(item: SvnItem) { Printable(item) && Flat(item) }

  lemma TuplesShallow(n: Option<u64>, t: Option<seq<byte>>, copy: Option<(Path, u64)>)
    requires (t.Some? ==> Binary(t.value)) && (copy.Some? ==> Binary(copy.value.0))
    ensures Shallow(List(OptNumber(n))) && Shallow(List(OptText(t))) && Shallow(List(OptCopy(copy)))
  {
  }

  lemma ParamsPrintable(c: EditorCommand)
    requires Typed(c)
    ensures forall p :: p in Params(c) ==> Shallow(p)
  {
    hide Utf8.Valid, Shallow, OptNumber, OptText, OptCopy;
    forall s | Binary(s) ensures Shallow(Text(s)) { TextShallow(s); }
    match c
    case OpenRoot(rev, _) => TuplesShallow(rev, None, None);
    case DeleteEntry(_, rev, _) => RevShallow(rev);
    case OpenDir(_, _, _, rev) => RevShallow(rev);
    case OpenFile(_, _, _, rev) => RevShallow(rev);
    case AddDir(_, _, _, copy) => TuplesShallow(None, None, copy);
    case AddFile(_, _, _, copy) => TuplesShallow(None, None, copy);
    case ChangeDirProp(_, _, value) => TuplesShallow(None, value, None);
    case ChangeFileProp(_, _, value) => TuplesShallow(None, value, None);
    case ApplyTextDelta(_, checksum) => TuplesShallow(None, checksum, None);
    case CloseFile(_, checksum) => TuplesShallow(None, checksum, None);
    case _ =>
  }

  lemma TextShallow(s: seq<byte>)
    requires Binary(s)
    ensures Shallow(Text(s))
  {
  }

  lemma RevShallow(rev: u64)
    ensures Shallow(List([Number(rev)]))
  {
  }

  lemma PairDepth(a: SvnItem, b: SvnItem)
    ensures Depth(List([a, b])) == 1 + if Depth(a) > Depth(b) then Depth(a) else Depth(b)
  {
    assert [a, b][1..] == [b] && [b][1..] == [];
    assert DepthAll([b]) == Depth(b);
  }

  lemma CommandReadable(c: EditorCommand)
    requires Typed(c)
    ensures Readable(CommandItem(c))
  {
    hide Spelling, Utf8.Valid, PrintableWord, Params, Typed, DepthAll;
    SpellingPrintable(VerbFor(c));
    ParamsPrintable(c);
    assert forall i :: 0 <= i < |Params(c)| ==> Params(c)[i] in Params(c) && Shallow(Params(c)[i]);
    FlatDepth(Params(c));
    var word, params := Word(Spelling(VerbFor(c))), List(Params(c));
    PairDepth(word, params);
    assert Printable(params) && Printable(word);
    assert Depth(word) == 0 && Depth(params) <= 2;
    assert Printable(List([word, params]));
    assert CommandItem(c) == List([word, params]);
  }

  /** What one message is taken for: the command's word and parameters, and the event. */
  function EventOf(item: SvnItem): Result<EditorEvent, EventError> {
    var (cmd, params) :- ParseCommandItem(item);
    ParseEditorEvent(cmd, params)
  }

  /**
   A printed command, read back from the wire with any input behind it, is the command itself with
   its path in canonical form; its copy source comes back in canonical form too, or is refused.
   `close-edit` and `abort-edit` are not events of this parser.
   */
  lemma CommandReadsBack(c: EditorCommand, rest: seq<byte>)
    requires Typed(c) && CanonicalCommand(c).Ok?
    ensures var c' := CanonicalCommand(c).value;
      && ParseItem(Encoded(CommandItem(c')) + rest) == Done(CommandItem(c'), rest)
      && EventOf(CommandItem(c')) == AsEvent(AsReceived(c'))
  {
    hide Canonical, Utf8.Valid, ParseItem, Encoded, Readable, Spelling, VerbOf, Params, ParseReceived, AsReceived, Typed;
    var c' := CanonicalCommand(c).value;
    CanonicalTyped(c);
    CanonicalAgain(c);
    CommandReadable(c');
    ItemReadsBack(CommandItem(c'), rest);
    VerbOfSpelling(VerbFor(c'));
    ParamsReadBack(c');
  }

  lemma CanonicalAgain(c: EditorCommand)
    requires CanonicalCommand(c).Ok?
    ensures Clean(CanonicalCommand(c).value)
  {
    hide Canonical;
    if c.DeleteEntry? || c.AddDir? || c.OpenDir? || c.AbsentDir? || c.AddFile? || c.OpenFile? || c.AbsentFile? {
      CanonicalIdempotent(c.path, false);
      CanonicalRelative(c.path);
    }
  }

  /**
   A command comes back exactly as it was sent when and only when its path and its copy source are
   canonical already, and it neither closes nor aborts the edit.
   */
  lemma ComesBackUnchanged(c: EditorCommand)
    requires Typed(c) && CanonicalCommand(c).Ok?
    ensures EventOf(CommandItem(CanonicalCommand(c).value)) == Ok(Received(c)) <==>
      && Clean(c) && !c.CloseEdit? && !c.AbortEdit?
      && ((c.AddDir? || c.AddFile?) && c.copyFrom.Some? ==> Canonical(c.copyFrom.value.0, false) == Ok(c.copyFrom.value.0))
  {
    hide *;
    CommandReadsBack(c, []);
    ReceivedAsSent(c);
  }

  lemma ReceivedAsSent(c: EditorCommand)
    requires CanonicalCommand(c).Ok?
    ensures AsEvent(AsReceived(CanonicalCommand(c).value)) == Ok(Received(c)) <==>
      && Clean(c) && !c.CloseEdit? && !c.AbortEdit?
      && ((c.AddDir? || c.AddFile?) && c.copyFrom.Some? ==> Canonical(c.copyFrom.value.0, false) == Ok(c.copyFrom.value.0))
  {
    hide Canonical;
  }
}
