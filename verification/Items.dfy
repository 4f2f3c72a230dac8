/** The items of the `ra_svn` protocol and the printer that puts them on the wire. */
module Items {
  import opened Bytes
  import Decimal

  const SPACE: byte := 32
  const NEWLINE: byte := 10
  const OPEN: byte := 40
  const CLOSE: byte := 41
  const COLON: byte := 58
  const TRUE: seq<byte> := [116, 114, 117, 101]
  const FALSE: seq<byte> := [102, 97, 108, 115, 101]

  /** Words and strings are byte strings; a word's bytes are the UTF-8 of the Rust `String`. */
  datatype SvnItem =
    | Word(name: seq<byte>)
    | Number(value: u64)
    | Text(bytes: seq<byte>)
    | List(items: seq<SvnItem>)
    | Bool(flag: bool)

  function Encoded(item: SvnItem): seq<byte>
    decreases item, 0
  {
    match item
    case Word(w) => w + [SPACE]
    case Number(n) => Decimal.Numeral(n) + [SPACE]
    case Bool(b) => (if b then TRUE else FALSE) + [SPACE]
    case Text(s) => Decimal.Numeral(|s|) + [COLON] + s + [SPACE]
    case List(items) => [OPEN, SPACE] + EncodedAll(items) + [CLOSE, SPACE]
  }

  function EncodedAll(items: seq<SvnItem>): seq<byte>
    decreases items, 1
  {
    if items == [] then [] else Encoded(items[0]) + EncodedAll(items[1..])
  }

  lemma {:induction false} EncodedAllAppend(a: seq<SvnItem>, b: seq<SvnItem>)
    ensures EncodedAll(a + b) == EncodedAll(a) + EncodedAll(b)
  {
    if a == [] {
      assert a + b == b;
    } else {
      assert (a + b)[1..] == a[1..] + b;
      EncodedAllAppend(a[1..], b);
    }
  }

  /** Appends wire tokens to a buffer it does not own. */
  class WireEncoder {
    const out: OutBuf

    constructor (out: OutBuf)
      ensures this.out == out
    {
      this.out := out;
    }

    method Word(word: seq<byte>)
      modifies out
      ensures out.bytes == old(out.bytes) + Encoded(SvnItem.Word(word))
    {
      out.Extend(word);
      out.Push(SPACE);
    }

    method Number(n: u64)
      modifies out
      ensures out.bytes == old(out.bytes) + Encoded(SvnItem.Number(n))
    {
      Decimal.EncodeDecimal(n, out);
      out.Push(SPACE);
    }

    method Bool(b: bool)
      modifies out
      ensures out.bytes == old(out.bytes) + Encoded(SvnItem.Bool(b))
    {
      if b {
        out.Extend([116, 114, 117, 101, 32]);
      } else {
        out.Extend([102, 97, 108, 115, 101, 32]);
      }
    }

    method StringBytes(bytes: seq<byte>)
      requires |bytes| < TWO_64
      modifies out
      ensures out.bytes == old(out.bytes) + Encoded(Text(bytes))
    {
      Decimal.EncodeDecimal(|bytes|, out);
      out.Push(COLON);
      out.Extend(bytes);
      out.Push(SPACE);
    }

    method ListStart()
      modifies out
      ensures out.bytes == old(out.bytes) + [OPEN, SPACE]
    {
      out.Extend([OPEN, SPACE]);
    }

    method ListEnd()
      modifies out
      ensures out.bytes == old(out.bytes) + [CLOSE, SPACE]
    {
      out.Extend([CLOSE, SPACE]);
    }

    method NewLine()
      modifies out
      ensures out.bytes == old(out.bytes) + [NEWLINE]
    {
      out.Push(NEWLINE);
    }
  }

  /** Every string in the item has a length the machine can represent. */
  predicate Sized(item: SvnItem) {
    match item
    case Text(s) => |s| < TWO_64
    case List(items) => forall i :: 0 <= i < |items| ==> Sized(items[i])
    case _ => true
  }

  method EncodeItem(item: SvnItem, out: OutBuf)
    requires Sized(item)
    modifies out
    ensures out.bytes == old(out.bytes) + Encoded(item)
  {
    var enc := new WireEncoder(out);
    EncodeItemWith(enc, item);
  }

  method EncodeItemWith(enc: WireEncoder, item: SvnItem)
    requires Sized(item)
    modifies enc.out
    ensures enc.out.bytes == old(enc.out.bytes) + Encoded(item)
    decreases item, 0
  {
    hide Encoded, EncodedAll;
    match item {
      case Word(w) => enc.Word(w);
      case Number(n) => enc.Number(n);
      case Bool(b) => enc.Bool(b);
      case Text(s) => enc.StringBytes(s);
      case List(items) =>
        EncodedList(items, enc.out.bytes);
        enc.ListStart();
        EncodeEachWith(enc, items);
        enc.ListEnd();
    }
  }

  lemma EncodedList(items: seq<SvnItem>, start: seq<byte>)
    ensures start + [OPEN, SPACE] + EncodedAll(items) + [CLOSE, SPACE] == start + Encoded(List(items))
  {
    hide EncodedAll;
  }

  /** The loop over a list's items. */
  method EncodeEachWith(enc: WireEncoder, items: seq<SvnItem>)
    requires forall i :: 0 <= i < |items| ==> Sized(items[i])
    modifies enc.out
    ensures enc.out.bytes == old(enc.out.bytes) + EncodedAll(items)
    decreases items, 1
  {
    hide EncodedAll, Encoded;
    ghost var start := enc.out.bytes;
    EncodedNothing();
    assert start + [] == start && items[..0] == [];
    var i := 0;
    while i < |items|
      invariant 0 <= i <= |items|
      invariant enc.out.bytes == start + EncodedAll(items[..i])
    {
      assert items[..i + 1] == items[..i] + [items[i]];
      EncodedAllAppend(items[..i], [items[i]]);
      EncodedOne(items[i]);
      EncodeItemWith(enc, items[i]);
      i := i + 1;
    }
    assert items[..i] == items;
  }

  lemma EncodedNothing()
    ensures EncodedAll([]) == []
  {
  }

  lemma EncodedOne(item: SvnItem)
    ensures EncodedAll([item]) == Encoded(item)
  {
    assert [item][1..] == [];
    assert EncodedAll([item]) == Encoded(item) + EncodedAll([]);
  }
}
