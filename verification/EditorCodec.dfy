/** Editor commands on the wire: printing a command, reading a drive, and what becomes of each command. */
module EditorCodec {
  import opened Bytes
  import opened Items
  import opened Paths
  import opened DirChain
  import opened EditorCommands
  import opened CommandWords
  import Utf8

  // ----- the commands as items

  function OptNumber(n: Option<u64>): seq<SvnItem> {
    match n case None => [] case Some(v) => [Number(v)]
  }

  function OptText(t: Option<seq<byte>>): seq<SvnItem> {
    match t case None => [] case Some(v) => [Text(v)]
  }

  function OptCopy(copy: Option<(Path, u64)>): seq<SvnItem> {
    match copy case None => [] case Some((path, rev)) => [Text(path), Number(rev)]
  }

  /** The parameters of a command, in the order of section 3.1.2 of the ra_svn protocol. */
  function Params(c: EditorCommand): seq<SvnItem> {
    match c
    case OpenRoot(rev, token) => [List(OptNumber(rev)), Text(token)]
    case DeleteEntry(path, rev, dirToken) => [Text(path), List([Number(rev)]), Text(dirToken)]
    case AddDir(path, parent, child, copy) => [Text(path), Text(parent), Text(child), List(OptCopy(copy))]
    case OpenDir(path, parent, child, rev) => [Text(path), Text(parent), Text(child), List([Number(rev)])]
    case ChangeDirProp(token, name, value) => [Text(token), Text(name), List(OptText(value))]
    case CloseDir(token) => [Text(token)]
    case AbsentDir(path, parent) => [Text(path), Text(parent)]
    case AddFile(path, dir, file, copy) => [Text(path), Text(dir), Text(file), List(OptCopy(copy))]
    case OpenFile(path, dir, file, rev) => [Text(path), Text(dir), Text(file), List([Number(rev)])]
    case ApplyTextDelta(token, checksum) => [Text(token), List(OptText(checksum))]
    case TextDeltaChunk(token, chunk) => [Text(token), Text(chunk)]
    case TextDeltaEnd(token) => [Text(token)]
    case ChangeFileProp(token, name, value) => [Text(token), Text(name), List(OptText(value))]
    case CloseFile(token, checksum) => [Text(token), List(OptText(checksum))]
    case AbsentFile(path, parent) => [Text(path), Text(parent)]
    case CloseEdit => []
    case AbortEdit => []
  }

  function CommandItem(c: EditorCommand): SvnItem {
    List([Word(Spelling(VerbFor(c))), List(Params(c))])
  }

  /** The command with its path in canonical form; a copy source is left as it is. */
  function CanonicalCommand(c: EditorCommand): Result<EditorCommand, PathError> {
    if c.DeleteEntry? || c.AddDir? || c.OpenDir? || c.AbsentDir? || c.AddFile? || c.OpenFile? || c.AbsentFile? then
      match Canonical(c.path, false)
      case Err(e) => Err(e)
      case Ok(path) => Ok(c.(path := path))
    else Ok(c)
  }

  /** A Rust `String`. */
  predicate Str(s: seq<byte>) { Utf8.Valid(s) && |s| < TWO_64 }

  predicate OptStr(s: Option<seq<byte>>) { s.Some? ==> Str(s.value) }

  predicate Binary(s: seq<byte>) { |s| < TWO_64 }

  /** The fields have the types the source gives them. */
  predicate Typed(c: EditorCommand) {
    match c
    case OpenRoot(_, token) => Str(token)
    case DeleteEntry(path, _, dirToken) => Str(path) && Str(dirToken)
    case AddDir(path, parent, child, copy) => Str(path) && Str(parent) && Str(child) && (copy.Some? ==> Str(copy.value.0))
    case OpenDir(path, parent, child, _) => Str(path) && Str(parent) && Str(child)
    case ChangeDirProp(token, name, value) => Str(token) && Str(name) && (value.Some? ==> Binary(value.value))
    case CloseDir(token) => Str(token)
    case AbsentDir(path, parent) => Str(path) && Str(parent)
    case AddFile(path, dir, file, copy) => Str(path) && Str(dir) && Str(file) && (copy.Some? ==> Str(copy.value.0))
    case OpenFile(path, dir, file, _) => Str(path) && Str(dir) && Str(file)
    case ApplyTextDelta(token, checksum) => Str(token) && OptStr(checksum)
    case TextDeltaChunk(token, chunk) => Str(token) && Binary(chunk)
    case TextDeltaEnd(token) => Str(token)
    case ChangeFileProp(token, name, value) => Str(token) && Str(name) && (value.Some? ==> Binary(value.value))
    case CloseFile(token, checksum) => Str(token) && OptStr(checksum)
    case AbsentFile(path, parent) => Str(path) && Str(parent)
    case CloseEdit => true
    case AbortEdit => true
  }

  // ----- printing

  lemma EncodedMany(a: SvnItem, b: SvnItem, c: SvnItem, d: SvnItem)
    ensures EncodedAll([a]) == Encoded(a)
    ensures EncodedAll([a, b]) == Encoded(a) + Encoded(b)
    ensures EncodedAll([a, b, c]) == Encoded(a) + Encoded(b) + Encoded(c)
    ensures EncodedAll([a, b, c, d]) == Encoded(a) + Encoded(b) + Encoded(c) + Encoded(d)
  {
    hide Encoded, EncodedAll;
    EncodedOne(a);
    EncodedOne(b);
    EncodedOne(c);
    EncodedOne(d);
    EncodedAllAppend([a], [b]);
    EncodedAllAppend([a, b], [c]);
    EncodedAllAppend([a, b, c], [d]);
    assert [a] + [b] == [a, b] && [a, b] + [c] == [a, b, c] && [a, b, c] + [d] == [a, b, c, d];
  }

  /** A tuple of optional entries. */
  method PutTuple(enc: WireEncoder, items: seq<SvnItem>)
    requires forall i :: 0 <= i < |items| ==> Sized(items[i])
    modifies enc.out
    ensures enc.out.bytes == old(enc.out.bytes) + Encoded(List(items))
  {
    hide EncodedAll;
    enc.ListStart();
    EncodeEachWith(enc, items);
    enc.ListEnd();
  }

  method PutPathAndTokens(enc: WireEncoder, path: seq<byte>, parent: Token, child: Token)
    requires |path| < TWO_64 && |parent| < TWO_64 && |child| < TWO_64
    modifies enc.out
    ensures enc.out.bytes == old(enc.out.bytes) + Encoded(Text(path)) + Encoded(Text(parent)) + Encoded(Text(child))
  {
    hide Encoded;
    enc.StringBytes(path);
    enc.StringBytes(parent);
    enc.StringBytes(child);
  }

  method PutProp(enc: WireEncoder, token: Token, name: seq<byte>, value: Option<seq<byte>>)
    requires |token| < TWO_64 && |name| < TWO_64 && (value.Some? ==> |value.value| < TWO_64)
    modifies enc.out
    ensures enc.out.bytes == old(enc.out.bytes) + EncodedAll([Text(token), Text(name), List(OptText(value))])
  {
    hide Encoded, EncodedAll;
    EncodedMany(Text(token), Text(name), List(OptText(value)), Number(0));
    enc.StringBytes(token);
    enc.StringBytes(name);
    PutTuple(enc, OptText(value));
  }

  method PutPair(enc: WireEncoder, first: seq<byte>, second: seq<byte>)
    requires |first| < TWO_64 && |second| < TWO_64
    modifies enc.out
    ensures enc.out.bytes == old(enc.out.bytes) + EncodedAll([Text(first), Text(second)])
  {
    hide Encoded, EncodedAll;
    EncodedMany(Text(first), Text(second), Number(0), Number(0));
    enc.StringBytes(first);
    enc.StringBytes(second);
  }

  method PutSingle(enc: WireEncoder, token: Token)
    requires |token| < TWO_64
    modifies enc.out
    ensures enc.out.bytes == old(enc.out.bytes) + EncodedAll([Text(token)])
  {
    hide Encoded, EncodedAll;
    EncodedOne(Text(token));
    enc.StringBytes(token);
  }

  method PutChecksum(enc: WireEncoder, token: Token, checksum: Option<seq<byte>>)
    requires |token| < TWO_64 && (checksum.Some? ==> |checksum.value| < TWO_64)
    modifies enc.out
    ensures enc.out.bytes == old(enc.out.bytes) + EncodedAll([Text(token), List(OptText(checksum))])
  {
    hide Encoded, EncodedAll;
    EncodedMany(Text(token), List(OptText(checksum)), Number(0), Number(0));
    enc.StringBytes(token);
    PutTuple(enc, OptText(checksum));
  }

  method PutEntry(enc: WireEncoder, path: seq<byte>, parent: Token, child: Token, last: seq<SvnItem>)
    requires |path| < TWO_64 && |parent| < TWO_64 && |child| < TWO_64 && forall i :: 0 <= i < |last| ==> Sized(last[i])
    modifies enc.out
    ensures enc.out.bytes == old(enc.out.bytes) + EncodedAll([Text(path), Text(parent), Text(child), List(last)])
  {
    hide Encoded, EncodedAll;
    EncodedMany(Text(path), Text(parent), Text(child), List(last));
    PutPathAndTokens(enc, path, parent, child);
    PutTuple(enc, last);
  }

  method PutRoot(enc: WireEncoder, rev: Option<u64>, token: Token)
    requires |token| < TWO_64
    modifies enc.out
    ensures enc.out.bytes == old(enc.out.bytes) + EncodedAll([List(OptNumber(rev)), Text(token)])
  {
    hide Encoded, EncodedAll;
    EncodedMany(List(OptNumber(rev)), Text(token), Number(0), Number(0));
    PutTuple(enc, OptNumber(rev));
    enc.StringBytes(token);
  }

  method PutDeletion(enc: WireEncoder, path: seq<byte>, rev: u64, dirToken: Token)
    requires |path| < TWO_64 && |dirToken| < TWO_64
    modifies enc.out
    ensures enc.out.bytes == old(enc.out.bytes) + EncodedAll([Text(path), List([Number(rev)]), Text(dirToken)])
  {
    hide Encoded, EncodedAll;
    EncodedMany(Text(path), List([Number(rev)]), Text(dirToken), Number(0));
    enc.StringBytes(path);
    PutTuple(enc, [Number(rev)]);
    enc.StringBytes(dirToken);
  }

  /** The parameters, command by command. */
  method EncodeParams(enc: WireEncoder, c: EditorCommand)
    requires Typed(c)
    modifies enc.out
    ensures enc.out.bytes == old(enc.out.bytes) + EncodedAll(Params(c))
  {
    hide Encoded, EncodedAll, Utf8.Valid, OptNumber;
    match c {
      case OpenRoot(rev, token) => PutRoot(enc, rev, token);
      case DeleteEntry(path, rev, dirToken) => PutDeletion(enc, path, rev, dirToken);
      case AddDir(path, parent, child, copy) => PutEntry(enc, path, parent, child, OptCopy(copy));
      case OpenDir(path, parent, child, rev) => PutEntry(enc, path, parent, child, [Number(rev)]);
      case ChangeDirProp(token, name, value) => PutProp(enc, token, name, value);
      case CloseDir(token) => PutSingle(enc, token);
      case AbsentDir(path, parent) => PutPair(enc, path, parent);
      case AddFile(path, dir, file, copy) => PutEntry(enc, path, dir, file, OptCopy(copy));
      case OpenFile(path, dir, file, rev) => PutEntry(enc, path, dir, file, [Number(rev)]);
      case ApplyTextDelta(token, checksum) => PutChecksum(enc, token, checksum);
      case TextDeltaChunk(token, chunk) => PutPair(enc, token, chunk);
      case TextDeltaEnd(token) => PutSingle(enc, token);
      case ChangeFileProp(token, name, value) => PutProp(enc, token, name, value);
      case CloseFile(token, checksum) => PutChecksum(enc, token, checksum);
      case AbsentFile(path, parent) => PutPair(enc, path, parent);
      case CloseEdit => EncodedNothing();
      case AbortEdit => EncodedNothing();
    }
  }

  method CheckPath(c: EditorCommand) returns (r: Result<EditorCommand, PathError>)
    ensures r == CanonicalCommand(c)
  {
    hide Canonical;
    if c.DeleteEntry? || c.AddDir? || c.OpenDir? || c.AbsentDir? || c.AddFile? || c.OpenFile? || c.AbsentFile? {
      var path := ValidateRelPath(c.path);
      if path.Err? {
        return Err(path.error);
      }
      return Ok(c.(path := path.value));
    }
    return Ok(c);
  }

  /**
   Prints one command, or refuses its path with only the opening parenthesis written.
   */
  method EncodeEditorCommand(c: EditorCommand, out: OutBuf) returns (err: Option<PathError>)
    requires Typed(c)
    modifies out
    ensures match CanonicalCommand(c)
      case Err(e) => err == Some(e) && out.bytes == old(out.bytes) + [OPEN, SPACE]
      case Ok(c') => err == None && out.bytes == old(out.bytes) + Encoded(CommandItem(c')) + [NEWLINE]
  {
    hide Encoded, EncodedAll, CanonicalCommand, CommandItem, Typed, Params, Spelling, VerbFor;
    var enc := new WireEncoder(out);
    enc.ListStart();
    var checked := CheckPath(c);
    if checked.Err? {
      return Some(checked.error);
    }
    var c' := checked.value;
    CanonicalTyped(c);
    CommandEncoded(c', old(out.bytes));
    enc.Word(Spelling(VerbFor(c')));
    enc.ListStart();
    EncodeParams(enc, c');
    enc.ListEnd();
    enc.ListEnd();
    enc.NewLine();
    return None;
  }

  lemma CommandEncoded(c: EditorCommand, start: seq<byte>)
    ensures start + [OPEN, SPACE] + Encoded(SvnItem.Word(Spelling(VerbFor(c)))) + [OPEN, SPACE] + EncodedAll(Params(c))
              + [CLOSE, SPACE] + [CLOSE, SPACE] + [NEWLINE]
         == start + Encoded(CommandItem(c)) + [NEWLINE]
  {
    hide EncodedAll, Params, Spelling, VerbFor;
    var word, params := SvnItem.Word(Spelling(VerbFor(c))), List(Params(c));
    EncodedMany(word, params, Number(0), Number(0));
    Bracketed(start, Encoded(word), EncodedAll(Params(c)));
  }

  lemma Bracketed(start: seq<byte>, word: seq<byte>, params: seq<byte>)
    ensures start + [OPEN, SPACE] + word + [OPEN, SPACE] + params + [CLOSE, SPACE] + [CLOSE, SPACE] + [NEWLINE]
         == start + ([OPEN, SPACE] + (word + ([OPEN, SPACE] + params + [CLOSE, SPACE])) + [CLOSE, SPACE]) + [NEWLINE]
  {
  }

  /** A canonical path is no longer than the one it came from, and still UTF-8. */
  lemma CanonicalTyped(c: EditorCommand)
    requires Typed(c) && CanonicalCommand(c).Ok?
    ensures Typed(CanonicalCommand(c).value)
  {
    hide Canonical, Utf8.Valid;
    if c.DeleteEntry? || c.AddDir? || c.OpenDir? || c.AbsentDir? || c.AddFile? || c.OpenFile? || c.AbsentFile? {
      CanonicalValid(c.path, false);
      CanonicalShorter(c.path);
    }
  }

  lemma CanonicalShorter(path: seq<byte>)
    requires Canonical(path, false).Ok?
    ensures |Canonical(path, false).value| <= |path|
  {
    hide Split, Join, Kept;
    KeptShorter(Split(path));
    JoinSplitLength(path);
  }

  /** Length of segments joined by single separators. */
  function JoinedLength(segs: seq<seq<byte>>): nat {
    if segs == [] then 0 else if |segs| == 1 then |segs[0]| else |segs[0]| + 1 + JoinedLength(segs[1..])
  }

  lemma {:induction false} JoinLength(segs: seq<seq<byte>>)
    ensures |Join(segs)| == JoinedLength(segs)
  {
    if |segs| > 1 {
      JoinLength(segs[1..]);
    }
  }

  lemma {:induction false} KeptShorter(segs: seq<seq<byte>>)
    ensures JoinedLength(Kept(segs)) <= JoinedLength(segs)
    ensures Kept(segs) == [] || segs != []
  {
    if segs != [] {
      KeptShorter(segs[1..]);
      var rest := Kept(segs[1..]);
      if IsKept(segs[0]) {
        assert Kept(segs) == [segs[0]] + rest;
        assert ([segs[0]] + rest)[1..] == rest;
      } else {
        assert Kept(segs) == [] + rest == rest;
      }
    }
  }

  lemma {:induction false} JoinSplitLength(s: seq<byte>)
    ensures JoinedLength(Split(s)) == |s|
    ensures |Join(Kept(Split(s)))| == JoinedLength(Kept(Split(s)))
    decreases |s|
  {
    JoinLength(Kept(Split(s)));
    var i := FirstSep(s);
    if i < |s| {
      JoinSplitLength(s[i + 1..]);
      assert Split(s)[1..] == Split(s[i + 1..]);
    }
  }
}
