/** Printing an item and reading it back: exactly which items survive, and that lists of them do. */
module ItemRoundTrip {
  import opened Bytes
  import opened Items
  import opened Grammar
  import Decimal
  import Utf8

  // ----- which items survive

  predicate PrintableWord(w: seq<byte>) {
    && w != [] && w != TRUE && w != FALSE
    && !Decimal.IsDigit(w[0])
    && (forall i :: 0 <= i < |w| ==> !IsWhitespace(w[i]) && !EndsWord(w[i]))
    && Utf8.Valid(w)
  }

  predicate Printable(item: SvnItem) {
    match item
    case Word(w) => PrintableWord(w)
    case Text(s) => |s| < TWO_64
    case List(items) => forall i :: 0 <= i < |items| ==> Printable(items[i])
    case Number(_) => true
    case Bool(_) => true
  }

  /** How deeply lists nest. */
  function Depth(item: SvnItem): nat
    decreases item, 0
  {
    if item.List? then 1 + DepthAll(item.items) else 0
  }

  function DepthAll(items: seq<SvnItem>): nat
    decreases items, 1
  {
    if items == [] then 0
    else
      var first, rest := Depth(items[0]), DepthAll(items[1..]);
      if first > rest then first else rest
  }

  predicate Readable(item: SvnItem) {
    Printable(item) && Depth(item) <= MAX_LIST_DEPTH
  }

  // ----- reading atoms back

  lemma {:induction false} DigitsReadBack(acc: u64, digits: seq<byte>, rest: seq<byte>)
    requires forall i :: 0 <= i < |digits| ==> Decimal.IsDigit(digits[i])
    requires Decimal.ReadOn(acc, digits) < TWO_64
    requires rest != [] && !Decimal.IsDigit(rest[0])
    ensures ParseDigits(digits + rest, acc) == Done(Decimal.ReadOn(acc, digits), rest)
    decreases |digits|
  {
    var s := digits + rest;
    if digits == [] {
      assert s == rest;
    } else {
      assert Decimal.IsDigit(digits[0]);
      var next := acc * 10 + (digits[0] - 48);
      Grows(next, digits[1..]);
      assert s[1..] == digits[1..] + rest;
      DigitsReadBack(next, digits[1..], rest);
    }
  }

  lemma {:induction false} Grows(acc: nat, digits: seq<byte>)
    requires forall i :: 0 <= i < |digits| ==> Decimal.IsDigit(digits[i])
    ensures Decimal.ReadOn(acc, digits) >= acc
    decreases |digits|
  {
    if digits != [] {
      assert Decimal.IsDigit(digits[0]);
      Grows(acc * 10 + (digits[0] - 48), digits[1..]);
    }
  }

  lemma NumeralReadsBack(n: u64, rest: seq<byte>)
    requires rest != [] && !Decimal.IsDigit(rest[0])
    ensures ParseDigits(Decimal.Numeral(n) + rest, 0) == Done(n, rest)
  {
    Decimal.ReadNumeral(n);
    DigitsReadBack(0, Decimal.Numeral(n), rest);
  }

  lemma {:induction false} WordReadsBack(acc: seq<byte>, w: seq<byte>, rest: seq<byte>)
    requires forall i :: 0 <= i < |w| ==> !IsWhitespace(w[i]) && !EndsWord(w[i])
    requires Utf8.Valid(acc + w) && rest != [] && IsWhitespace(rest[0])
    ensures ParseWord(w + rest, acc) == Done(acc + w, rest)
    decreases |w|
  {
    var s := w + rest;
    if w == [] {
      assert s == rest && acc + w == acc;
    } else {
      assert s[0] == w[0] && s[1..] == w[1..] + rest;
      assert (acc + [w[0]]) + w[1..] == acc + w;
      WordReadsBack(acc + [w[0]], w[1..], rest);
    }
  }

  lemma KeywordsPrintable()
    ensures Utf8.Valid(TRUE) && Utf8.Valid(FALSE)
  {
    Utf8.AsciiIsValid(TRUE);
    Utf8.AsciiIsValid(FALSE);
  }

  lemma WordAtomReadsBack(w: seq<byte>, rest: seq<byte>)
    requires w != [] && !Decimal.IsDigit(w[0]) && Utf8.Valid(w)
    requires forall i :: 0 <= i < |w| ==> !IsWhitespace(w[i]) && !EndsWord(w[i])
    ensures ParseAtom(w + [SPACE] + rest) == Done(WordItem(w), rest)
  {
    hide ParseWord, Utf8.Valid, WordItem;
    var s := w + ([SPACE] + rest);
    assert w + [SPACE] + rest == s && s[0] == w[0];
    assert [] + w == w;
    WordReadsBack([], w, [SPACE] + rest);
    assert ([SPACE] + rest)[1..] == rest;
  }

  lemma NumberAtomReadsBack(n: u64, rest: seq<byte>)
    ensures ParseAtom(Decimal.Numeral(n) + [SPACE] + rest) == Done(Number(n), rest)
  {
    hide ParseDigits;
    var digits := Decimal.Numeral(n);
    var s := digits + [SPACE] + rest;
    assert s == digits + ([SPACE] + rest) && Decimal.IsDigit(s[0]);
    NumeralReadsBack(n, [SPACE] + rest);
    assert ([SPACE] + rest)[1..] == rest;
  }

  lemma TextReadsBack(t: seq<byte>, rest: seq<byte>)
    ensures ParseText(t + ([SPACE] + rest), |t|) == Done(Text(t), rest)
  {
    var after := t + ([SPACE] + rest);
    assert after[..|t|] == t && after[|t|..] == [SPACE] + rest;
    assert ([SPACE] + rest)[1..] == rest;
  }

  lemma TextAtomReadsBack(t: seq<byte>, rest: seq<byte>)
    requires |t| < TWO_64
    ensures ParseAtom(Decimal.Numeral(|t|) + [COLON] + t + [SPACE] + rest) == Done(Text(t), rest)
  {
    hide ParseAtom, ParseDigits, ParseText, Decimal.Numeral;
    var digits := Decimal.Numeral(|t|);
    var after := t + ([SPACE] + rest);
    Regroup(digits + [COLON] + t, [SPACE], rest);
    Regroup(digits + [COLON], t, [SPACE] + rest);
    Regroup(digits, [COLON], after);
    assert Decimal.IsDigit(digits[0]);
    NumeralReadsBack(|t|, [COLON] + after);
    TextAtom(digits + ([COLON] + after), |t|, after);
    TextReadsBack(t, rest);
  }

  lemma TextAtom(s: seq<byte>, n: u64, after: seq<byte>)
    requires s != [] && Decimal.IsDigit(s[0]) && ParseDigits(s, 0) == Done(n, [COLON] + after)
    ensures ParseAtom(s) == ParseText(after, n)
  {
    hide ParseDigits, ParseText;
    assert ([COLON] + after)[1..] == after;
  }

  lemma AtomReadsBack(item: SvnItem, rest: seq<byte>)
    requires Printable(item) && !item.List?
    ensures ParseAtom(Encoded(item) + rest) == Done(item, rest)
  {
    hide ParseAtom, Utf8.Valid;
    KeywordsPrintable();
    match item
    case Word(w) => WordAtomReadsBack(w, rest);
    case Number(n) => NumberAtomReadsBack(n, rest);
    case Bool(b) => WordAtomReadsBack(if b then TRUE else FALSE, rest);
    case Text(t) => TextAtomReadsBack(t, rest);
  }

  /** A printed atom starts with neither whitespace nor a parenthesis. */
  lemma AtomStart(item: SvnItem)
    requires Printable(item) && !item.List?
    ensures Encoded(item) != []
    ensures var b := Encoded(item)[0]; !IsWhitespace(b) && b != OPEN && b != CLOSE
  {
    match item
    case Word(w) => assert Encoded(item)[0] == w[0];
    case Number(n) => assert Encoded(item)[0] == Decimal.Numeral(n)[0] && Decimal.IsDigit(Decimal.Numeral(n)[0]);
    case Bool(b) =>
    case Text(t) => assert Encoded(item)[0] == Decimal.Numeral(|t|)[0] && Decimal.IsDigit(Decimal.Numeral(|t|)[0]);
  }

  // ----- reading lists back

  lemma {:induction false} ItemsReadBack(items: seq<SvnItem>, depth: nat, rest: seq<byte>)
    requires forall i :: 0 <= i < |items| ==> Printable(items[i])
    requires depth + DepthAll(items) <= MAX_LIST_DEPTH
    ensures ParseItems(EncodedAll(items) + ([CLOSE, SPACE] + rest), depth) == Done(items, rest)
    decreases items
  {
    hide ParseItems, ParseAtom, Printable, Depth;
    var tail := [CLOSE, SPACE] + rest;
    if items == [] {
      assert EncodedAll(items) + tail == tail;
      CloseReadsBack(rest, depth);
    } else {
      var first, more := items[0], items[1..];
      var behind := EncodedAll(more) + tail;
      assert EncodedAll(items) + tail == Encoded(first) + behind;
      assert items == [first] + more;
      ItemsReadBack(more, depth, rest);
      if first.List? {
        assert depth + 1 + DepthAll(first.items) <= MAX_LIST_DEPTH && (forall i :: 0 <= i < |first.items| ==> Printable(first.items[i])) by {
          InsideList(first);
        }
        ItemsReadBack(first.items, depth + 1, behind);
        NestedReadsBack(first.items, depth, behind);
      } else {
        AtomInList(first, depth, behind);
      }
    }
  }

  lemma InsideList(item: SvnItem)
    requires item.List? && Printable(item)
    ensures Depth(item) == 1 + DepthAll(item.items)
    ensures forall i :: 0 <= i < |item.items| ==> Printable(item.items[i])
  {
  }

  lemma CloseReadsBack(rest: seq<byte>, depth: nat)
    ensures ParseItems([CLOSE, SPACE] + rest, depth) == Done([], rest)
  {
    var s := [CLOSE, SPACE] + rest;
    assert SkipWs(s) == s && s[1..] == [SPACE] + rest && s[1..][1..] == rest;
  }

  /** A nested list, then the rest of the list around it. */
  lemma NestedReadsBack(inner: seq<SvnItem>, depth: nat, behind: seq<byte>)
    requires depth < MAX_LIST_DEPTH
    requires ParseItems(EncodedAll(inner) + ([CLOSE, SPACE] + behind), depth + 1) == Done(inner, behind)
    ensures var more := ParseItems(behind, depth);
      ParseItems(Encoded(List(inner)) + behind, depth)
      == if more.Fail? then more else Done([List(inner)] + more.value, more.rest)
  {
    hide EncodedAll, ParseAtom, ParseItems;
    var inside := EncodedAll(inner) + ([CLOSE, SPACE] + behind);
    Regroup([OPEN, SPACE] + EncodedAll(inner), [CLOSE, SPACE], behind);
    Regroup([OPEN, SPACE], EncodedAll(inner), [CLOSE, SPACE] + behind);
    assert Encoded(List(inner)) + behind == [OPEN, SPACE] + inside;
    OpenReadsBack(inside, depth);
  }

  lemma OpenReadsBack(inside: seq<byte>, depth: nat)
    requires depth < MAX_LIST_DEPTH && ParseItems(inside, depth + 1).Done?
    ensures var inner := ParseItems(inside, depth + 1);
      var more := ParseItems(inner.rest, depth);
      ParseItems([OPEN, SPACE] + inside, depth)
      == if more.Fail? then more else Done([List(inner.value)] + more.value, more.rest)
  {
    hide ParseAtom;
    var s := [OPEN, SPACE] + inside;
    assert SkipWs(s) == s && s[1..] == [SPACE] + inside && s[1..][1..] == inside;
  }

  lemma AtomInList(atom: SvnItem, depth: nat, behind: seq<byte>)
    requires Printable(atom) && !atom.List?
    ensures var more := ParseItems(behind, depth);
      ParseItems(Encoded(atom) + behind, depth) == if more.Fail? then more else Done([atom] + more.value, more.rest)
  {
    hide Encoded, ParseAtom, Printable;
    AtomStart(atom);
    AtomReadsBack(atom, behind);
    assert SkipWs(Encoded(atom) + behind) == Encoded(atom) + behind;
  }

  /** A readable item is read back from its encoding, and exactly what follows it is left. */
  lemma ItemReadsBack(item: SvnItem, rest: seq<byte>)
    requires Readable(item)
    ensures ParseItem(Encoded(item) + rest) == Done(item, rest)
  {
    hide ParseItems, ParseAtom;
    var s := Encoded(item) + rest;
    if item.List? {
      var inside := EncodedAll(item.items) + ([CLOSE, SPACE] + rest);
      assert s == [OPEN, SPACE] + inside;
      assert SkipWs(s) == s && s[1..] == [SPACE] + inside && s[1..][1..] == inside;
      ItemsReadBack(item.items, 1, rest);
    } else {
      AtomStart(item);
      AtomReadsBack(item, rest);
      assert SkipWs(s) == s;
    }
  }

  // ----- nothing else is ever read

  lemma {:induction false} WordIsClean(s: seq<byte>, acc: seq<byte>)
    requires ParseWord(s, acc).Done?
    requires forall i :: 0 <= i < |acc| ==> !IsWhitespace(acc[i]) && !EndsWord(acc[i])
    ensures var w := ParseWord(s, acc).value;
      && acc <= w && Utf8.Valid(w)
      && (forall i :: 0 <= i < |w| ==> !IsWhitespace(w[i]) && !EndsWord(w[i]))
      && (!IsWhitespace(s[0]) ==> |w| > |acc| && w[|acc|] == s[0])
    decreases |s|
  {
    hide Utf8.Valid;
    if !IsWhitespace(s[0]) {
      WordIsClean(s[1..], acc + [s[0]]);
      var w := ParseWord(s, acc).value;
      assert w[..|acc| + 1] == acc + [s[0]];
      assert w[..|acc|] == acc;
    }
  }

  /** Every atom the reader answers is printable. */
  lemma AtomIsPrintable(s: seq<byte>)
    requires ParseAtom(s).Done?
    ensures Printable(ParseAtom(s).value) && !ParseAtom(s).value.List?
  {
    hide ParseDigits, Utf8.Valid;
    var t := SkipWs(s);
    if !Decimal.IsDigit(t[0]) {
      WordIsClean(t, []);
    }
  }

  /** Every list the reader answers is printable and nested no deeper than the cap. */
  lemma {:induction false} ItemsAreReadable(s: seq<byte>, depth: nat)
    requires ParseItems(s, depth).Done? && depth <= MAX_LIST_DEPTH
    ensures var items := ParseItems(s, depth).value;
      && (forall i :: 0 <= i < |items| ==> Printable(items[i]))
      && depth + DepthAll(items) <= MAX_LIST_DEPTH
    decreases |s|
  {
    hide ParseAtom, RequireWs;
    var t := SkipWs(s);
    if t[0] == OPEN {
      var inside := RequireWs(t[1..]).rest;
      var inner := ParseItems(inside, depth + 1);
      ItemsAreReadable(inside, depth + 1);
      ItemsAreReadable(inner.rest, depth);
      ConsReadable(List(inner.value), ParseItems(inner.rest, depth).value, depth);
    } else if t[0] != CLOSE {
      var atom := ParseAtom(t);
      AtomIsPrintable(t);
      ItemsAreReadable(atom.rest, depth);
      ConsReadable(atom.value, ParseItems(atom.rest, depth).value, depth);
    }
  }

  lemma ConsReadable(first: SvnItem, more: seq<SvnItem>, depth: nat)
    requires Printable(first) && depth + Depth(first) <= MAX_LIST_DEPTH
    requires forall i :: 0 <= i < |more| ==> Printable(more[i])
    requires depth + DepthAll(more) <= MAX_LIST_DEPTH
    ensures var items := [first] + more;
      && (forall i :: 0 <= i < |items| ==> Printable(items[i]))
      && depth + DepthAll(items) <= MAX_LIST_DEPTH
  {
    hide Printable, Depth;
    assert ([first] + more)[1..] == more;
  }

  lemma OnlyReadableItems(s: seq<byte>)
    requires ParseItem(s).Done?
    ensures Readable(ParseItem(s).value)
  {
    hide ParseItems, ParseAtom;
    var t := SkipWs(s);
    if t[0] == OPEN {
      ItemsAreReadable(RequireWs(t[1..]).rest, 1);
    } else {
      AtomIsPrintable(t);
    }
  }

  /**
   An item survives printing and reading, with any input behind it, exactly when it is readable:
   its words are words, its strings have a 64-bit length, and it nests at most 256 deep.
   */
  lemma RoundTripExactly(item: SvnItem)
    ensures (forall rest :: ParseItem(Encoded(item) + rest) == Done(item, rest)) <==> Readable(item)
  {
    hide ParseItem, Encoded;
    if Readable(item) {
      forall rest ensures ParseItem(Encoded(item) + rest) == Done(item, rest) {
        ItemReadsBack(item, rest);
      }
    } else if ParseItem(Encoded(item) + []) == Done(item, []) {
      OnlyReadableItems(Encoded(item) + []);
    }
  }

  // ----- messages one after the other

  /** The bytes of a list of messages, each ended by a newline. */
  function Messages(items: seq<SvnItem>): seq<byte> {
    if items == [] then [] else Encoded(items[0]) + [NEWLINE] + Messages(items[1..])
  }

  /** `n` items in a row. */
  function ParseMany(s: seq<byte>, n: nat): Parsed<seq<SvnItem>>
    decreases n
  {
    if n == 0 then Done([], s)
    else
      var (first, after) :- ParseItem(s);
      var (more, rest) :- ParseMany(after, n - 1);
      Done([first] + more, rest)
  }

  /** Messages are self-delimiting: a list of them is read back as the same list, up to the last newline. */
  lemma {:induction false} MessagesReadBack(items: seq<SvnItem>, rest: seq<byte>)
    requires items != [] && forall i :: 0 <= i < |items| ==> Readable(items[i])
    ensures ParseMany(Messages(items) + rest, |items|) == Done(items, [NEWLINE] + rest)
  {
    hide ParseItem, Encoded, Readable;
    var first, more := items[0], items[1..];
    var behind := Messages(more) + rest;
    Regroup(Encoded(first) + [NEWLINE], Messages(more), rest);
    Regroup(Encoded(first), [NEWLINE], behind);
    ItemReadsBack(first, [NEWLINE] + behind);
    assert items == [first] + more;
    if more == [] {
      assert behind == rest;
      assert ParseMany([NEWLINE] + rest, 0) == Done([], [NEWLINE] + rest);
      assert [first] + [] == items;
    } else {
      MessagesReadBack(more, rest);
      NewlineSkipped(behind);
    }
  }

  lemma NewlineSkipped(s: seq<byte>)
    ensures ParseItem([NEWLINE] + s) == ParseItem(s)
  {
    assert ([NEWLINE] + s)[1..] == s;
    assert SkipWs([NEWLINE] + s) == SkipWs(s);
  }
}
