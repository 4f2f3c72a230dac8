/** The words that name editor commands on the wire. */
module CommandWords {
  import opened Bytes
  import opened Items
  import opened Grammar
  import opened ItemRoundTrip
  import opened EditorCommands
  import Decimal
  import Utf8

  datatype Verb =
    | VTargetRev | VOpenRoot | VDeleteEntry | VAddDir | VOpenDir | VChangeDirProp | VCloseDir | VAbsentDir
    | VAddFile | VOpenFile | VApplyTextDelta | VTextDeltaChunk | VTextDeltaEnd | VChangeFileProp | VCloseFile
    | VAbsentFile | VRevProps | VCloseEdit | VAbortEdit | VFinishReplay | VFailure

  function Letters(v: Verb): string {
    match v
    case VTargetRev => "target-rev"
    case VOpenRoot => "open-root"
    case VDeleteEntry => "delete-entry"
    case VAddDir => "add-dir"
    case VOpenDir => "open-dir"
    case VChangeDirProp => "change-dir-prop"
    case VCloseDir => "close-dir"
    case VAbsentDir => "absent-dir"
    case VAddFile => "add-file"
    case VOpenFile => "open-file"
    case VApplyTextDelta => "apply-textdelta"
    case VTextDeltaChunk => "textdelta-chunk"
    case VTextDeltaEnd => "textdelta-end"
    case VChangeFileProp => "change-file-prop"
    case VCloseFile => "close-file"
    case VAbsentFile => "absent-file"
    case VRevProps => "revprops"
    case VCloseEdit => "close-edit"
    case VAbortEdit => "abort-edit"
    case VFinishReplay => "finish-replay"
    case VFailure => "failure"
  }

  predicate IsPlain(c: char) {
    'a' <= c <= 'z' || c == '-'
  }

  /** The bytes of a text of plain letters. */
  function Ascii(s: string): (r: seq<byte>)
    ensures |r| == |s|
    ensures forall i :: 0 <= i < |s| && IsPlain(s[i]) ==> r[i] == s[i] as int
  {
    seq(|s|, i requires 0 <= i < |s| => if IsPlain(s[i]) then s[i] as int else 0)
  }

  predicate Plain(s: string) {
    |s| >= 7 && forall i :: 0 <= i < |s| ==> IsPlain(s[i])
  }

  lemma ShortPlain()
    ensures Plain("add-dir") && Plain("failure") && Plain("open-dir") && Plain("add-file") && Plain("revprops")
    ensures Plain("open-root") && Plain("close-dir") && Plain("open-file") && Plain("target-rev")
  {
  }

  lemma MediumPlain()
    ensures Plain("absent-dir") && Plain("close-file") && Plain("close-edit") && Plain("abort-edit")
    ensures Plain("absent-file") && Plain("delete-entry") && Plain("finish-replay")
  {
  }

  lemma LongPlain()
    ensures Plain("textdelta-end") && Plain("change-dir-prop") && Plain("apply-textdelta")
    ensures Plain("textdelta-chunk") && Plain("change-file-prop")
  {
  }

  lemma LettersPlain(v: Verb)
    ensures Plain(Letters(v))
  {
    hide Plain;
    ShortPlain();
    MediumPlain();
    LongPlain();
  }

  function Spelling(v: Verb): seq<byte> {
    Ascii(Letters(v))
  }

  /** Four letters and the length tell the commands apart. */
  lemma LettersDiffer(v: Verb, w: Verb)
    requires |Letters(v)| == |Letters(w)| && Letters(v)[0] == Letters(w)[0] && Letters(v)[4] == Letters(w)[4]
      && Letters(v)[5] == Letters(w)[5] && Letters(v)[6] == Letters(w)[6]
    ensures v == w
  {
  }

  lemma SpellingInjective(v: Verb, w: Verb)
    requires Spelling(v) == Spelling(w)
    ensures v == w
  {
    hide Letters;
    LettersPlain(v);
    LettersPlain(w);
    var a, b := Letters(v), Letters(w);
    assert forall i :: 0 <= i < |a| ==> IsPlain(a[i]) && IsPlain(b[i]);
    assert |a| == |b|;
    assert a[0] as int == Spelling(v)[0] == b[0] as int;
    assert a[4] as int == Spelling(v)[4] == b[4] as int;
    assert a[5] as int == Spelling(v)[5] == b[5] as int;
    assert a[6] as int == Spelling(v)[6] == b[6] as int;
    LettersDiffer(v, w);
  }

  const VERBS: seq<Verb> := [
    VTargetRev, VOpenRoot, VDeleteEntry, VAddDir, VOpenDir, VChangeDirProp, VCloseDir, VAbsentDir,
    VAddFile, VOpenFile, VApplyTextDelta, VTextDeltaChunk, VTextDeltaEnd, VChangeFileProp, VCloseFile,
    VAbsentFile, VRevProps, VCloseEdit, VAbortEdit, VFinishReplay, VFailure]

  function FindVerb(w: seq<byte>, verbs: seq<Verb>): (r: Option<Verb>)
    ensures r.Some? ==> Spelling(r.value) == w
    ensures r.None? ==> forall v :: v in verbs ==> Spelling(v) != w
  {
    if verbs == [] then None
    else if w == Spelling(verbs[0]) then Some(verbs[0])
    else FindVerb(w, verbs[1..])
  }

  /** The command a word names, if any. */
  function VerbOf(w: seq<byte>): Option<Verb> {
    FindVerb(w, VERBS)
  }

  lemma EveryVerb(v: Verb)
    ensures v in VERBS
  {
  }

  /** A command's word names it and no other. */
  lemma VerbOfSpelling(v: Verb)
    ensures VerbOf(Spelling(v)) == Some(v)
  {
    hide Spelling;
    EveryVerb(v);
    var r := FindVerb(Spelling(v), VERBS);
    if r.Some? {
      SpellingInjective(r.value, v);
    }
  }

  /** The words are words to the reader as well. */
  lemma SpellingPrintable(v: Verb)
    ensures PrintableWord(Spelling(v))
  {
    hide Letters, Utf8.Valid;
    LettersPlain(v);
    var w, s := Spelling(v), Letters(v);
    forall i | 0 <= i < |w| ensures w[i] < 0x80 && !IsWhitespace(w[i]) && !EndsWord(w[i]) && !Decimal.IsDigit(w[i]) {
      assert IsPlain(s[i]);
    }
    Utf8.AsciiIsValid(w);
    assert |TRUE| == 4 && |FALSE| == 5;
  }

  function VerbFor(c: EditorCommand): Verb {
    match c
    case OpenRoot(_, _) => VOpenRoot
    case DeleteEntry(_, _, _) => VDeleteEntry
    case AddDir(_, _, _, _) => VAddDir
    case OpenDir(_, _, _, _) => VOpenDir
    case ChangeDirProp(_, _, _) => VChangeDirProp
    case CloseDir(_) => VCloseDir
    case AbsentDir(_, _) => VAbsentDir
    case AddFile(_, _, _, _) => VAddFile
    case OpenFile(_, _, _, _) => VOpenFile
    case ApplyTextDelta(_, _) => VApplyTextDelta
    case TextDeltaChunk(_, _) => VTextDeltaChunk
    case TextDeltaEnd(_) => VTextDeltaEnd
    case ChangeFileProp(_, _, _) => VChangeFileProp
    case CloseFile(_, _) => VCloseFile
    case AbsentFile(_, _) => VAbsentFile
    case CloseEdit => VCloseEdit
    case AbortEdit => VAbortEdit
  }
}
