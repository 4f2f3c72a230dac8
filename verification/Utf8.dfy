/** Well-formed UTF-8, as section 3 of RFC 3629 tabulates it. */
module Utf8 {
  import opened Bytes

  predicate Tail(s: seq<byte>, i: nat) {
    i < |s| && 0x80 <= s[i] <= 0xBF
  }

  /** Length of the character `s` starts with; 0 when it starts with none. */
  function CharLen(s: seq<byte>): (n: nat)
    ensures n <= |s|
    ensures forall i :: 1 <= i < n ==> s[i] >= 0x80
  {
    if s == [] then 0
    else if s[0] < 0x80 then 1
    else if 0xC2 <= s[0] <= 0xDF && Tail(s, 1) then 2
    else if 0xE0 <= s[0] <= 0xEF && Tail(s, 1) && Tail(s, 2)
      && (s[0] == 0xE0 ==> s[1] >= 0xA0) && (s[0] == 0xED ==> s[1] <= 0x9F) then 3
    else if 0xF0 <= s[0] <= 0xF4 && Tail(s, 1) && Tail(s, 2) && Tail(s, 3)
      && (s[0] == 0xF0 ==> s[1] >= 0x90) && (s[0] == 0xF4 ==> s[1] <= 0x8F) then 4
    else 0
  }

  predicate Valid(s: seq<byte>)
    decreases |s|
  {
    s == [] || (CharLen(s) > 0 && Valid(s[CharLen(s)..]))
  }

  /** A first character does not depend on what follows, and never runs across an ASCII byte. */
  lemma CharLenBefore(a: seq<byte>, b: seq<byte>)
    requires a != [] && (b == [] || b[0] < 0x80)
    ensures CharLen(a + b) == CharLen(a)
  {
    var s := a + b;
    assert forall i :: 0 <= i < |a| ==> s[i] == a[i];
    assert forall i :: 0 <= i < 4 ==> (Tail(s, i) && i < |a| <==> Tail(a, i));
    if b != [] {
      assert !Tail(s, |a|);
    }
  }

  /** Cutting at an ASCII byte cuts between characters. */
  lemma {:induction false} ValidSplit(a: seq<byte>, b: seq<byte>)
    requires b == [] || b[0] < 0x80
    ensures Valid(a + b) <==> Valid(a) && Valid(b)
    decreases |a|
  {
    if a == [] {
      assert a + b == b;
    } else {
      CharLenBefore(a, b);
      var n := CharLen(a);
      if n > 0 {
        assert (a + b)[n..] == a[n..] + b;
        ValidSplit(a[n..], b);
      }
    }
  }

  lemma {:induction false} AsciiIsValid(s: seq<byte>)
    requires forall i :: 0 <= i < |s| ==> s[i] < 0x80
    ensures Valid(s)
  {
    if s != [] {
      AsciiIsValid(s[1..]);
    }
  }

  /** Text around an ASCII separator. */
  lemma ValidAround(a: seq<byte>, sep: byte, b: seq<byte>)
    requires sep < 0x80
    ensures Valid(a + [sep] + b) <==> Valid(a) && Valid(b)
  {
    assert a + [sep] + b == a + ([sep] + b);
    ValidSplit(a, [sep] + b);
    assert ([sep] + b)[1..] == b;
  }

  // ----- valid text is encoded characters

  /** A Unicode scalar value: any code point but the surrogates. */
  predicate Scalar(c: int) { 0 <= c < 0xD800 || 0xE000 <= c < 0x11_0000 }

  /** The encoding of a character, section 3 of RFC 3629. */
  function EncodedChar(c: int): seq<byte>
    requires Scalar(c)
  {
    if c < 0x80 then [c]
    else if c < 0x800 then [0xC0 + c / 0x40, 0x80 + c % 0x40]
    else if c < 0x1_0000 then [0xE0 + c / 0x1000, 0x80 + c / 0x40 % 0x40, 0x80 + c % 0x40]
    else [0xF0 + c / 0x4_0000, 0x80 + c / 0x1000 % 0x40, 0x80 + c / 0x40 % 0x40, 0x80 + c % 0x40]
  }

  ghost predicate Scalars(text: seq<int>) { forall c :: c in text ==> Scalar(c) }

  ghost function EncodedText(text: seq<int>): seq<byte>
    requires Scalars(text)
  {
    if text == [] then [] else assert text[0] in text; EncodedChar(text[0]) + EncodedText(text[1..])
  }

  /** The bytes of an encoded character are in the ranges RFC 3629 gives. */
  lemma EncodedForm(c: int)
    requires Scalar(c)
    ensures var e := EncodedChar(c);
      && 1 <= |e| <= 4 && (|e| == 1 ==> e[0] < 0x80)
      && (forall i :: 1 <= i < |e| ==> 0x80 <= e[i] <= 0xBF)
      && (|e| == 2 ==> 0xC2 <= e[0] <= 0xDF)
      && (|e| == 3 ==> 0xE0 <= e[0] <= 0xEF && (e[0] == 0xE0 ==> e[1] >= 0xA0) && (e[0] == 0xED ==> e[1] <= 0x9F))
      && (|e| == 4 ==> 0xF0 <= e[0] <= 0xF4 && (e[0] == 0xF0 ==> e[1] >= 0x90) && (e[0] == 0xF4 ==> e[1] <= 0x8F))
  {
  }

  lemma CharEncoded(c: int, rest: seq<byte>)
    requires Scalar(c)
    ensures CharLen(EncodedChar(c) + rest) == |EncodedChar(c)| > 0
  {
    hide EncodedChar, Scalar;
    EncodedForm(c);
    var e := EncodedChar(c);
    var s := e + rest;
    assert forall i :: 0 <= i < |e| ==> s[i] == e[i];
  }

  /** Groups of six bits, put together and taken apart. */
  lemma SixBits(a: int, x: int, y: int, z: int)
    requires 0 <= a && 0 <= x < 0x40 && 0 <= y < 0x40 && 0 <= z < 0x40
    ensures var c := a * 0x4_0000 + x * 0x1000 + y * 0x40 + z;
      c / 0x4_0000 == a && c / 0x1000 == a * 0x40 + x && c / 0x40 == a * 0x1000 + x * 0x40 + y
      && c / 0x1000 % 0x40 == x && c / 0x40 % 0x40 == y && c % 0x40 == z
  {
    var c := a * 0x4_0000 + x * 0x1000 + y * 0x40 + z;
    assert c / 0x40 == a * 0x1000 + x * 0x40 + y;
    assert c / 0x1000 == a * 0x40 + x;
  }

  lemma TwoBytes(b0: byte, b1: byte) returns (c: int)
    requires 0xC2 <= b0 <= 0xDF && 0x80 <= b1 <= 0xBF
    ensures Scalar(c) && EncodedChar(c) == [b0, b1]
  {
    SixBits(0, 0, b0 - 0xC0, b1 - 0x80);
    c := 0x40 * b0 + b1 - 0x3080;
  }

  lemma ThreeBytes(b0: byte, b1: byte, b2: byte) returns (c: int)
    requires 0xE0 <= b0 <= 0xEF && 0x80 <= b1 <= 0xBF && 0x80 <= b2 <= 0xBF
    requires (b0 == 0xE0 ==> b1 >= 0xA0) && (b0 == 0xED ==> b1 <= 0x9F)
    ensures Scalar(c) && EncodedChar(c) == [b0, b1, b2]
  {
    SixBits(0, b0 - 0xE0, b1 - 0x80, b2 - 0x80);
    c := 0x1000 * b0 + 0x40 * b1 + b2 - 0xE_2080;
  }

  lemma FourBytes(b0: byte, b1: byte, b2: byte, b3: byte) returns (c: int)
    requires 0xF0 <= b0 <= 0xF4 && 0x80 <= b1 <= 0xBF && 0x80 <= b2 <= 0xBF && 0x80 <= b3 <= 0xBF
    requires (b0 == 0xF0 ==> b1 >= 0x90) && (b0 == 0xF4 ==> b1 <= 0x8F)
    ensures Scalar(c) && EncodedChar(c) == [b0, b1, b2, b3]
  {
    SixBits(b0 - 0xF0, b1 - 0x80, b2 - 0x80, b3 - 0x80);
    c := 0x4_0000 * b0 + 0x1000 * b1 + 0x40 * b2 + b3 - 0x3C8_2080;
  }

  lemma CharDecoded(s: seq<byte>) returns (c: int)
    requires CharLen(s) > 0
    ensures Scalar(c) && EncodedChar(c) == s[..CharLen(s)]
  {
    hide EncodedChar, Scalar;
    var n := CharLen(s);
    if n == 1 {
      c := s[0];
      OneByte(s[0]);
      assert s[..n] == [s[0]];
    } else if n == 2 {
      c := TwoBytes(s[0], s[1]);
      assert s[..n] == [s[0], s[1]];
    } else if n == 3 {
      c := ThreeBytes(s[0], s[1], s[2]);
      assert s[..n] == [s[0], s[1], s[2]];
    } else {
      c := FourBytes(s[0], s[1], s[2], s[3]);
      assert s[..n] == [s[0], s[1], s[2], s[3]];
    }
  }

  lemma OneByte(b: byte)
    requires b < 0x80
    ensures Scalar(b) && EncodedChar(b) == [b]
  {
  }

  lemma {:induction false} EncodedIsValid(text: seq<int>)
    requires Scalars(text)
    ensures Valid(EncodedText(text))
  {
    hide EncodedChar, CharLen;
    if text != [] {
      assert text[0] in text && forall c :: c in text[1..] ==> c in text;
      var rest := EncodedText(text[1..]);
      EncodedIsValid(text[1..]);
      CharEncoded(text[0], rest);
      var e := EncodedChar(text[0]);
      assert (e + rest)[|e|..] == rest;
    }
  }

  lemma {:induction false} ValidIsEncoded(s: seq<byte>) returns (text: seq<int>)
    requires Valid(s)
    ensures Scalars(text) && EncodedText(text) == s
    decreases |s|
  {
    hide EncodedChar, CharLen;
    if s == [] {
      text := [];
    } else {
      var n := CharLen(s);
      var c := CharDecoded(s);
      var more := ValidIsEncoded(s[n..]);
      text := [c] + more;
      assert text[1..] == more && s[..n] + s[n..] == s;
    }
  }

  /** A byte string is valid exactly when it is the encoding of some characters. */
  lemma ValidIffEncoded(s: seq<byte>)
    ensures Valid(s) <==> exists text :: Scalars(text) && EncodedText(text) == s
  {
    hide Valid, EncodedText, Scalars;
    if Valid(s) {
      var text := ValidIsEncoded(s);
    }
    if text :| Scalars(text) && EncodedText(text) == s {
      EncodedIsValid(text);
    }
  }
}
