/** What a part of an item tells: what has been read or refused stands, whatever arrives behind it. */
module Prefixes {
  import opened Bytes
  import opened Items
  import opened Grammar
  import opened Spelling
  import ItemRoundTrip
  import Decimal
  import Utf8

  /** With `more` behind the input: the same value, or the same refusal unless the input only ended too early. */
  predicate Stands<T(==)>(p: Parsed<T>, longer: Parsed<T>, more: seq<byte>) {
    match p
    case Done(value, rest) => longer == Done(value, rest + more)
    case Fail(e, rest) => if e == UnexpectedEof then rest == [] else longer == Fail(e, rest + more)
  }

  lemma {:induction false} SkipStands(s: seq<byte>, more: seq<byte>)
    ensures SkipWs(s) != [] ==> SkipWs(s + more) == SkipWs(s) + more
    decreases |s|
  {
    if s != [] {
      assert (s + more)[0] == s[0] && (s + more)[1..] == s[1..] + more;
      SkipStands(s[1..], more);
    }
  }

  lemma RequireStands(s: seq<byte>, more: seq<byte>)
    ensures Stands(RequireWs(s), RequireWs(s + more), more)
  {
    if s != [] { assert (s + more)[0] == s[0] && (s + more)[1..] == s[1..] + more; }
  }

  lemma {:induction false} DigitsStand(s: seq<byte>, n: u64, more: seq<byte>)
    ensures Stands(ParseDigits(s, n), ParseDigits(s + more, n), more)
    decreases |s|
  {
    if s != [] {
      assert (s + more)[0] == s[0] && (s + more)[1..] == s[1..] + more;
      if Decimal.IsDigit(s[0]) && n * 10 + (s[0] - 48) < TWO_64 {
        DigitsStand(s[1..], n * 10 + (s[0] - 48), more);
      }
    }
  }

  lemma {:induction false} WordStands(s: seq<byte>, acc: seq<byte>, more: seq<byte>)
    ensures Stands(ParseWord(s, acc), ParseWord(s + more, acc), more)
    decreases |s|
  {
    hide Utf8.Valid;
    if s != [] {
      assert (s + more)[0] == s[0] && (s + more)[1..] == s[1..] + more;
      if !IsWhitespace(s[0]) && !EndsWord(s[0]) {
        WordStands(s[1..], acc + [s[0]], more);
      }
    }
  }

  lemma TextStands(s: seq<byte>, len: nat, more: seq<byte>)
    ensures Stands(ParseText(s, len), ParseText(s + more, len), more)
  {
    hide RequireWs;
    if |s| >= len {
      assert (s + more)[..len] == s[..len] && (s + more)[len..] == s[len..] + more;
      RequireStands(s[len..], more);
    }
  }

  lemma AtomStands(s: seq<byte>, more: seq<byte>)
    ensures Stands(ParseAtom(s), ParseAtom(s + more), more)
  {
    hide RequireWs, ParseDigits, ParseWord, ParseText, WordItem, SkipWs;
    SkipStands(s, more);
    var t := SkipWs(s);
    if t != [] {
      assert (t + more)[0] == t[0];
      if Decimal.IsDigit(t[0]) {
        DigitsStand(t, 0, more);
        var d := ParseDigits(t, 0);
        if d.Done? {
          assert (d.rest + more)[0] == d.rest[0] && (d.rest + more)[1..] == d.rest[1..] + more;
          TextStands(d.rest[1..], d.value, more);
          RequireStands(d.rest, more);
        }
      } else {
        WordStands(t, [], more);
        var w := ParseWord(t, []);
        if w.Done? { RequireStands(w.rest, more); }
      }
    }
  }

  lemma {:induction false} ItemsStand(s: seq<byte>, depth: nat, more: seq<byte>)
    ensures Stands(ParseItems(s, depth), ParseItems(s + more, depth), more)
    decreases |s|
  {
    hide RequireWs, ParseAtom, SkipWs;
    SkipStands(s, more);
    var t := SkipWs(s);
    if t != [] {
      assert (t + more)[0] == t[0] && (t + more)[1..] == t[1..] + more;
      RequireStands(t[1..], more);
      if t[0] == OPEN {
        if depth < MAX_LIST_DEPTH && RequireWs(t[1..]).Done? {
          var inside := RequireWs(t[1..]).rest;
          ItemsStand(inside, depth + 1, more);
          var inner := ParseItems(inside, depth + 1);
          if inner.Done? { ItemsStand(inner.rest, depth, more); }
        }
      } else if t[0] != CLOSE {
        AtomStands(t, more);
        if ParseAtom(t).Done? { ItemsStand(ParseAtom(t).rest, depth, more); }
      }
    }
  }

  /** An item that has been read, or refused for another reason than its end, is so whatever follows. */
  lemma ItemStands(s: seq<byte>, more: seq<byte>)
    ensures Stands(ParseItem(s), ParseItem(s + more), more)
  {
    hide RequireWs, ParseAtom, SkipWs, ParseItems;
    SkipStands(s, more);
    var t := SkipWs(s);
    if t != [] {
      assert (t + more)[0] == t[0] && (t + more)[1..] == t[1..] + more;
      AtomStands(t, more);
      AtomStands(s, more);
      RequireStands(t[1..], more);
      if t[0] == OPEN && RequireWs(t[1..]).Done? {
        ItemsStand(RequireWs(t[1..]).rest, 1, more);
      }
    }
  }

  /** A proper front part of a spelled item is no item: the reader comes to the end of the input, having read all of it. */
  lemma FrontIsTooShort(lead: seq<byte>, text: seq<byte>, item: SvnItem, n: nat)
    requires Blanks(lead) && Spells(item, text, 256) && n < |lead + text|
    ensures ParseItem((lead + text)[..n]) == Fail(UnexpectedEof, [])
  {
    hide ParseItem, Spells, Blanks;
    var whole := lead + text;
    assert whole[..n] + whole[n..] == whole && whole + [] == whole;
    SpelledIsRead(lead, text, [], item);
    ItemStands(whole[..n], whole[n..]);
  }

  // ----- what is refused

  /** `n` opening parentheses, each with a blank behind it. */
  function Opens(n: nat): seq<byte> {
    if n == 0 then [] else ['(' as int, ' ' as int] + Opens(n - 1)
  }

  lemma {:induction false} OpensRefused(n: nat, depth: nat, more: seq<byte>)
    requires depth + n == 256
    ensures ParseItems(Opens(n) + (['(' as int] + more), depth) == Fail(NestingTooDeep, ['(' as int] + more)
    decreases n
  {
    hide ParseItems;
    var tail := ['(' as int] + more;
    var s := Opens(n) + tail;
    if n == 0 {
      assert s == tail;
      TooDeepHere(more);
    } else {
      OpensUnfold(n);
      Regroup([OPEN, SPACE], Opens(n - 1), tail);
      OpensRefused(n - 1, depth + 1, more);
      RefusedInside(Opens(n - 1) + tail, depth);
    }
  }

  lemma TooDeepHere(more: seq<byte>)
    ensures ParseItems(['(' as int] + more, 256) == Fail(NestingTooDeep, ['(' as int] + more)
  {
    assert SkipWs(['(' as int] + more) == ['(' as int] + more;
  }

  lemma RefusedInside(inside: seq<byte>, depth: nat)
    requires depth < 256 && ParseItems(inside, depth + 1).Fail?
    ensures ParseItems([OPEN, SPACE] + inside, depth) == ParseItems(inside, depth + 1)
  {
    hide ParseAtom;
    var s := [OPEN, SPACE] + inside;
    assert SkipWs(s) == s && s[1..] == [SPACE] + inside && s[1..][1..] == inside;
  }

  /** The 257th list inside each other is refused. */
  lemma TooDeep(more: seq<byte>)
    ensures ParseItem(Opens(256) + (['(' as int] + more)) == Fail(NestingTooDeep, ['(' as int] + more)
  {
    hide ParseItems, Opens;
    var tail := ['(' as int] + more;
    var inside := Opens(255) + tail;
    OpensUnfold(256);
    Regroup([OPEN, SPACE], Opens(255), tail);
    OpensRefused(255, 1, more);
    var s := [OPEN, SPACE] + inside;
    assert SkipWs(s) == s && s[1..] == [SPACE] + inside && s[1..][1..] == inside;
  }

  lemma OpensUnfold(n: nat)
    requires n > 0
    ensures Opens(n) == [OPEN, SPACE] + Opens(n - 1)
  {
  }

  /** A word that runs into a parenthesis or a colon is refused, and one that is not UTF-8. */
  lemma WordRefused(lead: seq<byte>, w: seq<byte>, c: byte, more: seq<byte>)
    requires Blanks(lead) && w != [] && !Digit(w[0])
    requires forall i :: 0 <= i < |w| ==> !Blank(w[i]) && w[i] != '(' as int && w[i] != ')' as int && w[i] != ':' as int
    ensures c == '(' as int || c == ')' as int || c == ':' as int ==> ParseItem(lead + (w + ([c] + more))) == Fail(InvalidWord, [c] + more)
    ensures Blank(c) && !Utf8.Valid(w) ==> ParseItem(lead + (w + ([c] + more))) == Fail(NonUtf8Word, [c] + more)
  {
    hide ParseWord, Utf8.Valid;
    var s := w + ([c] + more);
    assert s[0] == w[0] && SkipWs(s) == s && [] + w == w;
    AtomThere(lead, s);
    if EndsWord(c) || (Blank(c) && !Utf8.Valid(w)) { WordStops(w, [], c, more); }
  }

  lemma {:induction false} WordStops(w: seq<byte>, acc: seq<byte>, c: byte, more: seq<byte>)
    requires forall i :: 0 <= i < |w| ==> !Blank(w[i]) && !EndsWord(w[i])
    requires EndsWord(c) || (Blank(c) && !Utf8.Valid(acc + w))
    ensures ParseWord(w + ([c] + more), acc) == Fail(if EndsWord(c) then InvalidWord else NonUtf8Word, [c] + more)
    decreases |w|
  {
    hide Utf8.Valid;
    var s := w + ([c] + more);
    if w == [] {
      assert s == [c] + more && acc + w == acc;
    } else {
      assert s[0] == w[0] && s[1..] == w[1..] + ([c] + more) && acc + [w[0]] + w[1..] == acc + w;
      WordStops(w[1..], acc + [w[0]], c, more);
    }
  }

  /** A number beyond 64 bits is refused, and one with no blank behind it. */
  lemma NumberRefused(lead: seq<byte>, digits: seq<byte>, c: byte, more: seq<byte>)
    requires Blanks(lead) && Digits(digits) && !Digit(c)
    ensures NumberOf(digits) >= 0x1_0000_0000_0000_0000 ==>
      ParseItem(lead + (digits + ([c] + more))).Fail? && ParseItem(lead + (digits + ([c] + more))).error == NumberOverflow
    ensures NumberOf(digits) < 0x1_0000_0000_0000_0000 && c != ':' as int && !Blank(c) ==>
      ParseItem(lead + (digits + ([c] + more))) == Fail(ExpectedWhitespace, more)
  {
    hide ParseDigits, NumberOf;
    var s := digits + ([c] + more);
    assert s[0] == digits[0] && SkipWs(s) == s && ([c] + more)[1..] == more;
    AtomThere(lead, s);
    ReadOnIs(digits);
    if NumberOf(digits) >= TWO_64 {
      DigitsOverflow(0, digits, [c] + more);
    } else {
      ItemRoundTrip.DigitsReadBack(0, digits, [c] + more);
    }
  }

  lemma {:induction false} DigitsOverflow(acc: u64, digits: seq<byte>, rest: seq<byte>)
    requires forall i :: 0 <= i < |digits| ==> Decimal.IsDigit(digits[i])
    requires Decimal.ReadOn(acc, digits) >= TWO_64
    ensures ParseDigits(digits + rest, acc).Fail? && ParseDigits(digits + rest, acc).error == NumberOverflow
    decreases |digits|
  {
    if digits != [] {
      var s := digits + rest;
      assert Decimal.IsDigit(digits[0]) && s[0] == digits[0] && s[1..] == digits[1..] + rest;
      var next := acc * 10 + (digits[0] - 48);
      if next < TWO_64 { DigitsOverflow(next, digits[1..], rest); }
    }
  }

  /** A string with no blank behind it is refused. */
  lemma TextRefused(lead: seq<byte>, digits: seq<byte>, t: seq<byte>, c: byte, more: seq<byte>)
    requires Blanks(lead) && Digits(digits) && NumberOf(digits) == |t| < 0x1_0000_0000_0000_0000 && !Blank(c)
    ensures ParseItem(lead + (digits + ([':' as int] + (t + ([c] + more))))) == Fail(ExpectedWhitespace, more)
  {
    hide ParseDigits, NumberOf, ParseText;
    var after := t + ([c] + more);
    var s := digits + ([COLON] + after);
    assert s[0] == digits[0] && SkipWs(s) == s && ([COLON] + after)[1..] == after;
    AtomThere(lead, s);
    ReadOnIs(digits);
    ItemRoundTrip.DigitsReadBack(0, digits, [COLON] + after);
    TextStops(t, c, more);
  }

  lemma TextStops(t: seq<byte>, c: byte, more: seq<byte>)
    requires !Blank(c)
    ensures ParseText(t + ([c] + more), |t|) == Fail(ExpectedWhitespace, more)
  {
    var after := t + ([c] + more);
    assert after[..|t|] == t && after[|t|..] == [c] + more && ([c] + more)[1..] == more;
  }
}
