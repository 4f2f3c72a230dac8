/**
 Which texts spell which items: the accepted language of the item reader, set out without reference
 to how it is read.
 */
module Spelling {
  import opened Bytes
  import opened Items
  import opened Grammar
  import ItemRoundTrip
  import Decimal
  import Utf8

  // ----- the language

  predicate Blank(b: byte) {
    b == ' ' as int || b == '\t' as int || b == '\n' as int || b == 12 || b == '\r' as int
  }

  predicate Blanks(s: seq<byte>) { forall i :: 0 <= i < |s| ==> Blank(s[i]) }

  predicate Digit(b: byte) { '0' as int <= b <= '9' as int }

  predicate Digits(s: seq<byte>) { s != [] && forall i :: 0 <= i < |s| ==> Digit(s[i]) }

  /** The number spelled in decimal, leading zeros allowed. */
  function NumberOf(s: seq<byte>): int {
    if s == [] then 0 else 10 * NumberOf(s[..|s| - 1]) + (s[|s| - 1] - '0' as int)
  }

  /** Neither blanks nor parentheses nor colons, no digit in front, and valid UTF-8. */
  predicate WordText(w: seq<byte>) {
    && w != [] && !Digit(w[0])
    && (forall i :: 0 <= i < |w| ==> !Blank(w[i]) && w[i] != '(' as int && w[i] != ')' as int && w[i] != ':' as int)
    && Utf8.Valid(w)
  }

  const TRUE_WORD: seq<byte> := ['t' as int, 'r' as int, 'u' as int, 'e' as int]
  const FALSE_WORD: seq<byte> := ['f' as int, 'a' as int, 'l' as int, 's' as int, 'e' as int]

  /** `s` is `front` and one blank. */
  predicate ThenBlank(s: seq<byte>, front: seq<byte>) {
    |s| == |front| + 1 && s[..|front|] == front && Blank(s[|front|])
  }

  /** The text spells the item, with at most `room` lists inside each other. */
  ghost predicate Spells(item: SvnItem, text: seq<byte>, room: int)
    decreases item, 0
  {
    match item
    case Word(w) => WordText(w) && w != TRUE_WORD && w != FALSE_WORD && ThenBlank(text, w)
    case Bool(b) => ThenBlank(text, if b then TRUE_WORD else FALSE_WORD)
    case Number(n) => text != [] && Digits(text[..|text| - 1]) && NumberOf(text[..|text| - 1]) == n && Blank(text[|text| - 1])
    case Text(t) =>
      var n := |text| - |t| - 2;
      && n > 0 && Digits(text[..n]) && NumberOf(text[..n]) == |t| < 0x1_0000_0000_0000_0000
      && text[n] == ':' as int && text[n + 1..n + 1 + |t|] == t && Blank(text[|text| - 1])
    case List(items) =>
      && room > 0 && |text| >= 4
      && text[0] == '(' as int && Blank(text[1]) && text[|text| - 2] == ')' as int && Blank(text[|text| - 1])
      && SpellsAll(items, text[2..|text| - 2], room - 1)
  }

  /** The text spells the items one after the other, with any number of blanks around them. */
  ghost predicate SpellsAll(items: seq<SvnItem>, text: seq<byte>, room: int)
    decreases items, 1
  {
    if items == [] then Blanks(text)
    else
      exists i, j :: 0 <= i <= j <= |text|
        && Blanks(text[..i]) && Spells(items[0], text[i..j], room) && SpellsAll(items[1..], text[j..], room)
  }

  // ----- blanks

  lemma {:induction false} LeadSkipped(lead: seq<byte>, s: seq<byte>)
    requires Blanks(lead) && (s == [] || !Blank(s[0]))
    ensures SkipWs(lead + s) == s
    decreases |lead|
  {
    if lead == [] {
      assert lead + s == s;
    } else {
      assert (lead + s)[0] == lead[0] && (lead + s)[1..] == lead[1..] + s;
      LeadSkipped(lead[1..], s);
    }
  }

  lemma {:induction false} SkippedLead(s: seq<byte>) returns (lead: seq<byte>)
    ensures Blanks(lead) && s == lead + SkipWs(s)
    decreases |s|
  {
    if s != [] && IsWhitespace(s[0]) {
      var more := SkippedLead(s[1..]);
      lead := [s[0]] + more;
      assert s == [s[0]] + s[1..];
    } else {
      lead := [];
    }
  }

  // ----- digits and words

  lemma {:induction false} ReadOnIs(s: seq<byte>)
    requires forall i :: 0 <= i < |s| ==> Decimal.IsDigit(s[i])
    ensures Decimal.ReadOn(0, s) == NumberOf(s) >= 0
    decreases |s|
  {
    if s != [] {
      var front, d := s[..|s| - 1], s[|s| - 1];
      assert s == front + [d];
      ReadOnIs(front);
      Decimal.ReadOnSnoc(0, front, d);
    }
  }

  lemma {:induction false} DigitsRead(s: seq<byte>, acc: u64) returns (digits: seq<byte>)
    requires ParseDigits(s, acc).Done?
    ensures (forall i :: 0 <= i < |digits| ==> Decimal.IsDigit(digits[i])) && s == digits + ParseDigits(s, acc).rest
    ensures Decimal.ReadOn(acc, digits) == ParseDigits(s, acc).value
    ensures var rest := ParseDigits(s, acc).rest; rest != [] && !Digit(rest[0])
    ensures s != [] && Digit(s[0]) ==> digits != []
    decreases |s|
  {
    if s != [] && Decimal.IsDigit(s[0]) {
      var more := DigitsRead(s[1..], acc * 10 + (s[0] - 48));
      digits := [s[0]] + more;
      assert s == [s[0]] + s[1..] && digits[1..] == more;
    } else {
      digits := [];
    }
  }

  lemma {:induction false} WordRead(s: seq<byte>, acc: seq<byte>) returns (tail: seq<byte>)
    requires ParseWord(s, acc).Done?
    ensures var (w, rest) := (ParseWord(s, acc).value, ParseWord(s, acc).rest);
      && w == acc + tail && s == tail + rest && Utf8.Valid(w) && rest != [] && Blank(rest[0])
      && forall i :: 0 <= i < |tail| ==> !Blank(tail[i]) && !EndsWord(tail[i])
    decreases |s|
  {
    hide Utf8.Valid;
    if IsWhitespace(s[0]) {
      tail := [];
    } else {
      var more := WordRead(s[1..], acc + [s[0]]);
      tail := [s[0]] + more;
      assert s == [s[0]] + s[1..] && acc + [s[0]] + more == acc + tail;
    }
  }

  lemma BlankEnds(front: seq<byte>, b: byte)
    requires Blank(b)
    ensures ThenBlank(front + [b], front)
  {
  }

  /** The front of an input, once a blank behind it has been read. */
  lemma BlankRead(front: seq<byte>, after: seq<byte>) returns (b: byte)
    requires RequireWs(after).Done?
    ensures Blank(b) && after == [b] + RequireWs(after).rest && front + after == front + [b] + RequireWs(after).rest
  {
    b := after[0];
    Regroup(front, [b], after[1..]);
  }

  // ----- atoms

  lemma NumberSpelled(digits: seq<byte>, b: byte, n: u64, room: int)
    requires Digits(digits) && Decimal.ReadOn(0, digits) == n && Blank(b)
    ensures Spells(Number(n), digits + [b], room)
  {
    var text := digits + [b];
    assert text[..|text| - 1] == digits;
    ReadOnIs(digits);
  }

  lemma TextSpelled(digits: seq<byte>, t: seq<byte>, b: byte, room: int)
    requires Digits(digits) && Decimal.ReadOn(0, digits) == |t| < TWO_64 && Blank(b)
    ensures Spells(Text(t), digits + [COLON] + t + [b], room)
  {
    var text := digits + [COLON] + t + [b];
    var n := |text| - |t| - 2;
    assert n == |digits| && text[..n] == digits && text[n] == COLON && text[n + 1..n + 1 + |t|] == t;
    ReadOnIs(digits);
  }

  /** An atom that is read was spelled. */
  lemma AtomSpelled(s: seq<byte>, room: int) returns (text: seq<byte>)
    requires ParseAtom(s).Done? && s != [] && !Blank(s[0]) && s[0] != OPEN
    ensures s == text + ParseAtom(s).rest && Spells(ParseAtom(s).value, text, room)
    ensures text != [] && !ParseAtom(s).value.List?
  {
    hide Utf8.Valid, Spells, ParseDigits, ParseWord, ParseText;
    assert SkipWs(s) == s;
    if Decimal.IsDigit(s[0]) {
      text := DigitAtomSpelled(s, room);
    } else {
      text := WordAtomSpelled(s, room);
    }
  }

  lemma DigitAtomSpelled(s: seq<byte>, room: int) returns (text: seq<byte>)
    requires ParseAtom(s).Done? && s != [] && Digit(s[0])
    ensures s == text + ParseAtom(s).rest && Spells(ParseAtom(s).value, text, room)
    ensures text != [] && !ParseAtom(s).value.List?
  {
    hide Utf8.Valid, Spells, ParseDigits, ParseWord, ParseText;
    assert SkipWs(s) == s;
    var digits := DigitsRead(s, 0);
    var (n, after) := (ParseDigits(s, 0).value, ParseDigits(s, 0).rest);
    if after[0] == COLON {
      var b := TextRead(digits, after, n);
      var t := ParseText(after[1..], n).value.bytes;
      TextSpelled(digits, t, b, room);
      text := digits + [COLON] + t + [b];
    } else {
      var b := BlankRead(digits, after);
      NumberSpelled(digits, b, n, room);
      text := digits + [b];
    }
  }

  lemma TextRead(digits: seq<byte>, after: seq<byte>, n: nat) returns (b: byte)
    requires after != [] && after[0] == COLON && ParseText(after[1..], n).Done?
    ensures var p := ParseText(after[1..], n);
      p.value.Text? && |p.value.bytes| == n && Blank(b) && digits + after == digits + [COLON] + p.value.bytes + [b] + p.rest
  {
    var p := ParseText(after[1..], n);
    var t := after[1..][..n];
    b := BlankRead(digits + [COLON] + t, after[1..][n..]);
    assert after == [COLON] + t + after[1..][n..];
    assert digits + after == digits + [COLON] + t + after[1..][n..];
  }

  lemma WordAtomSpelled(s: seq<byte>, room: int) returns (text: seq<byte>)
    requires ParseAtom(s).Done? && s != [] && !Blank(s[0]) && !Digit(s[0])
    ensures s == text + ParseAtom(s).rest && Spells(ParseAtom(s).value, text, room)
    ensures text != [] && !ParseAtom(s).value.List?
  {
    hide Utf8.Valid, ParseDigits, ParseWord, ParseText;
    assert SkipWs(s) == s;
    var tail := WordRead(s, []);
    var after := ParseWord(s, []).rest;
    assert [] + tail == tail;
    var b := BlankRead(tail, after);
    assert tail != [] ==> tail[0] == s[0];
    text := tail + [b];
    BlankEnds(tail, b);
    assert WordText(tail);
  }

  /** A text that spells an atom is read as that atom, and what follows is left. */
  lemma SpelledAtom(item: SvnItem, text: seq<byte>, room: int, rest: seq<byte>)
    requires Spells(item, text, room) && !item.List?
    ensures ParseAtom(text + rest) == Done(item, rest)
    ensures text != [] && !Blank(text[0]) && text[0] != OPEN && text[0] != CLOSE
  {
    hide Utf8.Valid, ParseDigits, ParseWord, ParseText, ParseAtom, NumberOf;
    match item
    case Word(w) => SpelledWord(w, text, rest);
    case Bool(b) =>
      ItemRoundTrip.KeywordsPrintable();
      SpelledWord(if b then TRUE else FALSE, text, rest);
    case Number(n) => SpelledNumber(n, text, rest);
    case Text(t) => SpelledText(t, text, rest);
  }

  lemma SpelledWord(w: seq<byte>, text: seq<byte>, rest: seq<byte>)
    requires w != [] && !Digit(w[0]) && (forall i :: 0 <= i < |w| ==> !Blank(w[i]) && !EndsWord(w[i])) && Utf8.Valid(w) && ThenBlank(text, w)
    ensures ParseAtom(text + rest) == Done(WordItem(w), rest) && text[0] == w[0]
  {
    hide ParseWord, Utf8.Valid, WordItem;
    var b := text[|w|];
    assert text == w + [b];
    var s := w + ([b] + rest);
    Regroup(w, [b], rest);
    assert s[0] == w[0] && SkipWs(s) == s && [] + w == w;
    ItemRoundTrip.WordReadsBack([], w, [b] + rest);
    assert ([b] + rest)[1..] == rest;
  }

  lemma SpelledNumber(n: u64, text: seq<byte>, rest: seq<byte>)
    requires Spells(Number(n), text, 0)
    ensures ParseAtom(text + rest) == Done(Number(n), rest) && Digit(text[0])
  {
    hide ParseDigits;
    var digits, b := text[..|text| - 1], text[|text| - 1];
    assert text == digits + [b];
    Regroup(digits, [b], rest);
    ReadOnIs(digits);
    ItemRoundTrip.DigitsReadBack(0, digits, [b] + rest);
    var s := text + rest;
    assert s[0] == digits[0] && SkipWs(s) == s && ([b] + rest)[1..] == rest;
  }

  lemma SpelledText(t: seq<byte>, text: seq<byte>, rest: seq<byte>)
    requires Spells(Text(t), text, 0)
    ensures ParseAtom(text + rest) == Done(Text(t), rest) && Digit(text[0])
  {
    hide ParseDigits, ParseText, ParseAtom;
    var n := |text| - |t| - 2;
    var digits, b := text[..n], text[|text| - 1];
    var after := t + ([b] + rest);
    assert text == digits + [COLON] + t + [b];
    Regroup(digits + [COLON] + t, [b], rest);
    Regroup(digits + [COLON], t, [b] + rest);
    Regroup(digits, [COLON], after);
    ReadOnIs(digits);
    ItemRoundTrip.DigitsReadBack(0, digits, [COLON] + after);
    ItemRoundTrip.TextAtom(digits + ([COLON] + after), |t|, after);
    TextThere(t, b, rest);
    assert text[0] == digits[0];
  }

  lemma TextThere(t: seq<byte>, b: byte, rest: seq<byte>)
    requires Blank(b)
    ensures ParseText(t + ([b] + rest), |t|) == Done(Text(t), rest)
  {
    var after := t + ([b] + rest);
    assert after[..|t|] == t && after[|t|..] == [b] + rest;
    assert ([b] + rest)[1..] == rest;
  }

  // ----- lists

  lemma SpellsCons(first: SvnItem, more: seq<SvnItem>, lead: seq<byte>, text: seq<byte>, behind: seq<byte>, room: int)
    requires Blanks(lead) && Spells(first, text, room) && SpellsAll(more, behind, room)
    ensures SpellsAll([first] + more, lead + text + behind, room)
  {
    hide Spells, Blanks;
    var items, all := [first] + more, lead + text + behind;
    var i, j := |lead|, |lead| + |text|;
    assert items != [] && items[0] == first && items[1..] == more;
    assert all[..i] == lead && all[i..j] == text && all[j..] == behind;
  }

  lemma SpellsParts(items: seq<SvnItem>, inner: seq<byte>, room: int) returns (lead: seq<byte>, text: seq<byte>, behind: seq<byte>)
    requires items != [] && SpellsAll(items, inner, room)
    ensures inner == lead + text + behind && Blanks(lead) && Spells(items[0], text, room) && SpellsAll(items[1..], behind, room)
  {
    hide Spells, Blanks;
    var i, j :| 0 <= i <= j <= |inner|
      && Blanks(inner[..i]) && Spells(items[0], inner[i..j], room) && SpellsAll(items[1..], inner[j..], room);
    lead, text, behind := inner[..i], inner[i..j], inner[j..];
  }

  function Parens(b: byte, inner: seq<byte>, c: byte): seq<byte> { [OPEN, b] + inner + [CLOSE, c] }

  lemma ListSpelled(items: seq<SvnItem>, b: byte, inner: seq<byte>, c: byte, room: int)
    requires Blank(b) && Blank(c) && SpellsAll(items, inner, room - 1) && room > 0
    ensures Spells(List(items), Parens(b, inner, c), room)
  {
    hide SpellsAll;
    var text := Parens(b, inner, c);
    assert text[2..|text| - 2] == inner;
  }

  lemma ListParts(items: seq<SvnItem>, text: seq<byte>, room: int) returns (b: byte, inner: seq<byte>, c: byte)
    requires Spells(List(items), text, room)
    ensures text == Parens(b, inner, c) && Blank(b) && Blank(c) && SpellsAll(items, inner, room - 1) && room > 0
  {
    hide SpellsAll;
    b, inner, c := text[1], text[2..|text| - 2], text[|text| - 1];
  }

  /** The three ways on in a list. */
  lemma ListClosed(lead: seq<byte>, b: byte, rest: seq<byte>, depth: nat)
    requires Blanks(lead) && Blank(b)
    ensures ParseItems(lead + [CLOSE, b] + rest, depth) == Done([], rest)
  {
    var t := [CLOSE, b] + rest;
    Regroup(lead, [CLOSE, b], rest);
    LeadSkipped(lead, t);
    assert t[1..] == [b] + rest && t[1..][1..] == rest;
  }

  lemma ListOpened(lead: seq<byte>, b: byte, inside: seq<byte>, depth: nat)
    requires Blanks(lead) && Blank(b) && depth < MAX_LIST_DEPTH && ParseItems(inside, depth + 1).Done?
    ensures var inner := ParseItems(inside, depth + 1);
      var more := ParseItems(inner.rest, depth);
      ParseItems(lead + ([OPEN, b] + inside), depth) == if more.Fail? then more else Done([List(inner.value)] + more.value, more.rest)
  {
    hide ParseAtom;
    var t := [OPEN, b] + inside;
    LeadSkipped(lead, t);
    assert t[1..] == [b] + inside && t[1..][1..] == inside;
  }

  lemma AtomNext(lead: seq<byte>, t: seq<byte>, depth: nat)
    requires Blanks(lead) && t != [] && !Blank(t[0]) && t[0] != OPEN && t[0] != CLOSE && ParseAtom(t).Done?
    ensures var more := ParseItems(ParseAtom(t).rest, depth);
      ParseItems(lead + t, depth) == if more.Fail? then more else Done([ParseAtom(t).value] + more.value, more.rest)
  {
    hide ParseAtom;
    LeadSkipped(lead, t);
  }

  lemma ItemsUnfold(s: seq<byte>, depth: nat)
    requires ParseItems(s, depth).Done?
    ensures var t := SkipWs(s);
      && t != []
      && (t[0] == CLOSE ==> RequireWs(t[1..]).Done? && ParseItems(s, depth) == Done([], RequireWs(t[1..]).rest))
      && (t[0] == OPEN ==>
            && depth < MAX_LIST_DEPTH && RequireWs(t[1..]).Done?
            && var inner := ParseItems(RequireWs(t[1..]).rest, depth + 1);
            && inner.Done? && ParseItems(inner.rest, depth).Done?
            && ParseItems(s, depth) == Done([List(inner.value)] + ParseItems(inner.rest, depth).value, ParseItems(inner.rest, depth).rest))
      && (t[0] != OPEN && t[0] != CLOSE ==>
            && ParseAtom(t).Done? && ParseItems(ParseAtom(t).rest, depth).Done?
            && ParseItems(s, depth)
               == Done([ParseAtom(t).value] + ParseItems(ParseAtom(t).rest, depth).value, ParseItems(ParseAtom(t).rest, depth).rest))
  {
    hide ParseAtom, RequireWs, SkipWs;
  }

  /** A list that is read was spelled, up to its closing parenthesis and one blank. */
  lemma {:induction false} ItemsSpelled(s: seq<byte>, depth: nat) returns (inner: seq<byte>, b: byte)
    requires ParseItems(s, depth).Done? && depth <= 256
    ensures s == inner + [CLOSE, b] + ParseItems(s, depth).rest && Blank(b)
    ensures SpellsAll(ParseItems(s, depth).value, inner, 256 - depth)
    decreases |s|
  {
    hide ParseItems, ParseAtom, Spells, Blank, RequireWs, SpellsAll, Blanks, SkipWs, Parens;
    var lead := SkippedLead(s);
    var t := SkipWs(s);
    ItemsUnfold(s, depth);
    if t[0] == CLOSE {
      b := BlankRead([CLOSE], t[1..]);
      inner := lead;
      assert t == [CLOSE] + t[1..];
      Regroup(lead, [CLOSE, b], ParseItems(s, depth).rest);
      NothingSpelled(lead, 256 - depth);
    } else if t[0] == OPEN {
      var a := BlankRead([OPEN], t[1..]);
      var inside := RequireWs(t[1..]).rest;
      var nested := ParseItems(inside, depth + 1);
      var within, c := ItemsSpelled(inside, depth + 1);
      var behind;
      behind, b := ItemsSpelled(nested.rest, depth);
      ListSpelled(nested.value, a, within, c, 256 - depth);
      var more := ParseItems(nested.rest, depth);
      SpellsCons(List(nested.value), more.value, lead, Parens(a, within, c), behind, 256 - depth);
      inner := lead + Parens(a, within, c) + behind;
      assert t == [OPEN] + t[1..];
      ParensRegrouped(a, within, c, nested.rest);
      PiecesRegrouped(lead, Parens(a, within, c), behind, [CLOSE, b], more.rest);
    } else {
      StartsPlain(s);
      var text := AtomSpelled(t, 256 - depth);
      var atom := ParseAtom(t);
      var behind;
      behind, b := ItemsSpelled(atom.rest, depth);
      var more := ParseItems(atom.rest, depth);
      SpellsCons(atom.value, more.value, lead, text, behind, 256 - depth);
      inner := lead + text + behind;
      PiecesRegrouped(lead, text, behind, [CLOSE, b], more.rest);
    }
  }

  lemma StartsPlain(s: seq<byte>)
    ensures SkipWs(s) != [] ==> !Blank(SkipWs(s)[0])
  {
  }

  lemma NothingSpelled(lead: seq<byte>, room: int)
    requires Blanks(lead)
    ensures SpellsAll([], lead, room)
  {
  }

  lemma ParensRegrouped(b: byte, inner: seq<byte>, c: byte, rest: seq<byte>)
    ensures Parens(b, inner, c) + rest == [OPEN, b] + (inner + [CLOSE, c] + rest)
  {
  }

  lemma PiecesRegrouped(lead: seq<byte>, text: seq<byte>, behind: seq<byte>, end: seq<byte>, rest: seq<byte>)
    ensures lead + (text + (behind + end + rest)) == (lead + text + behind) + end + rest
  {
  }

  /** A spelled list is read as its items. */
  lemma {:induction false} SpelledItems(items: seq<SvnItem>, inner: seq<byte>, b: byte, rest: seq<byte>, depth: nat)
    requires SpellsAll(items, inner, 256 - depth) && Blank(b)
    ensures ParseItems(inner + [CLOSE, b] + rest, depth) == Done(items, rest)
    decreases items
  {
    hide ParseItems, ParseAtom, Spells, Blank;
    if items == [] {
      ListClosed(inner, b, rest, depth);
    } else {
      hide SpellsAll;
      var first, more := items[0], items[1..];
      var lead, text, behind := SpellsParts(items, inner, 256 - depth);
      var tail := behind + [CLOSE, b] + rest;
      assert items == [first] + more;
      SpelledItems(more, behind, b, rest, depth);
      PiecesRegrouped(lead, text, behind, [CLOSE, b], rest);
      if first.List? {
        var a, within, c := ListParts(first.items, text, 256 - depth);
        SpelledItems(first.items, within, c, tail, depth + 1);
        ParensRegrouped(a, within, c, tail);
        ListOpened(lead, a, within + [CLOSE, c] + tail, depth);
      } else {
        SpelledAtom(first, text, 256 - depth, tail);
        assert (text + tail)[0] == text[0];
        AtomNext(lead, text + tail, depth);
      }
    }
  }

  // ----- items

  /** The input starts with blanks and a text that spells the item, and `rest` is what follows. */
  ghost predicate SpelledAt(input: seq<byte>, item: SvnItem, rest: seq<byte>) {
    exists i, j :: 0 <= i <= j <= |input| && Blanks(input[..i]) && Spells(item, input[i..j], 256) && input[j..] == rest
  }

  lemma SpelledThere(lead: seq<byte>, text: seq<byte>, rest: seq<byte>, item: SvnItem)
    requires Blanks(lead) && Spells(item, text, 256)
    ensures SpelledAt(lead + text + rest, item, rest)
  {
    hide Spells, Blanks;
    var input := lead + text + rest;
    var i, j := |lead|, |lead| + |text|;
    assert input[..i] == lead && input[i..j] == text && input[j..] == rest;
  }

  lemma ReadIsSpelled(input: seq<byte>)
    requires ParseItem(input).Done?
    ensures SpelledAt(input, ParseItem(input).value, ParseItem(input).rest)
  {
    hide ParseItems, ParseAtom, Spells, Blank, SpelledAt, Blanks, RequireWs;
    var lead := SkippedLead(input);
    var t := SkipWs(input);
    var p := ParseItem(input);
    StartsPlain(input);
    if t[0] == OPEN {
      var a := BlankRead([OPEN], t[1..]);
      var inside := RequireWs(t[1..]).rest;
      var within, c := ItemsSpelled(inside, 1);
      ListSpelled(ParseItems(inside, 1).value, a, within, c, 256);
      assert t == [OPEN] + t[1..];
      assert t == [OPEN, a] + inside;
      ParensRegrouped(a, within, c, p.rest);
      assert input == lead + (Parens(a, within, c) + p.rest);
      Regroup(lead, Parens(a, within, c), p.rest);
      SpelledThere(lead, Parens(a, within, c), p.rest, p.value);
    } else {
      var text := AtomSpelled(t, 256);
      Regroup(lead, text, p.rest);
      SpelledThere(lead, text, p.rest, p.value);
    }
  }

  lemma SpelledIsRead(lead: seq<byte>, text: seq<byte>, rest: seq<byte>, item: SvnItem)
    requires Blanks(lead) && Spells(item, text, 256)
    ensures ParseItem(lead + text + rest) == Done(item, rest)
  {
    hide ParseItems, ParseAtom, Spells, Blank, SpellsAll, Blanks;
    Regroup(lead, text, rest);
    if item.List? {
      var a, within, c := ListParts(item.items, text, 256);
      SpelledItems(item.items, within, c, rest, 1);
      ParensRegrouped(a, within, c, rest);
      ListThere(lead, a, within + [CLOSE, c] + rest);
    } else {
      SpelledAtom(item, text, 256, rest);
      assert (text + rest)[0] == text[0];
      AtomThere(lead, text + rest);
    }
  }

  lemma ListThere(lead: seq<byte>, a: byte, inside: seq<byte>)
    requires Blanks(lead) && Blank(a) && ParseItems(inside, 1).Done?
    ensures ParseItem(lead + ([OPEN, a] + inside)) == Done(List(ParseItems(inside, 1).value), ParseItems(inside, 1).rest)
  {
    hide ParseItems, ParseAtom;
    var t := [OPEN, a] + inside;
    LeadSkipped(lead, t);
    assert t[1..] == [a] + inside && t[1..][1..] == inside;
  }

  lemma AtomThere(lead: seq<byte>, t: seq<byte>)
    requires Blanks(lead) && t != [] && !Blank(t[0]) && t[0] != OPEN
    ensures ParseItem(lead + t) == ParseAtom(t)
  {
    hide ParseAtom;
    LeadSkipped(lead, t);
  }

  /**
   The reader answers an item, and leaves `rest`, exactly on the inputs that start with blanks and a
   text that spells the item and go on with `rest`.
   */
  lemma ReadsWhatIsSpelled(input: seq<byte>, item: SvnItem, rest: seq<byte>)
    ensures ParseItem(input) == Done(item, rest) <==> SpelledAt(input, item, rest)
  {
    hide ParseItem, Spells, Blanks;
    if ParseItem(input) == Done(item, rest) {
      ReadIsSpelled(input);
    }
    if SpelledAt(input, item, rest) {
      var i, j :| 0 <= i <= j <= |input| && Blanks(input[..i]) && Spells(item, input[i..j], 256) && input[j..] == rest;
      assert input == input[..i] + input[i..j] + input[j..];
      SpelledIsRead(input[..i], input[i..j], rest, item);
    }
  }
}
