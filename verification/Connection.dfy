/**
 The reading half of a connection: a buffer that is compacted before every refill, and an item
 reader that keeps the lists it has not closed on an explicit stack.
 */
module Connection {
  import opened Bytes
  import opened Items
  import opened Grammar
  import Decimal
  import Utf8

  /** The rest of the result of a list reader whose open lists are `stack`, outermost first. */
  function Resume(stack: seq<seq<SvnItem>>, s: seq<byte>): Parsed<SvnItem>
    requires stack != []
    decreases |stack|, 0
  {
    match ParseItems(s, |stack|)
    case Fail(e, left) => Fail(e, left)
    case Done(items, rest) => Close(stack[..|stack| - 1], List(stack[|stack| - 1] + items), rest)
  }

  /** A completed list goes to the innermost list around it, or is the result. */
  function Close(outer: seq<seq<SvnItem>>, item: SvnItem, rest: seq<byte>): Parsed<SvnItem>
    decreases |outer|, 1
  {
    if outer == [] then Done(item, rest) else Resume(Added(outer, item), rest)
  }

  /** `item` at the end of the innermost open list. */
  function Added(stack: seq<seq<SvnItem>>, item: SvnItem): (r: seq<seq<SvnItem>>)
    requires stack != []
    ensures |r| == |stack|
  {
    stack[|stack| - 1 := stack[|stack| - 1] + [item]]
  }

  function Opened(stack: seq<seq<SvnItem>>): (r: seq<seq<SvnItem>>)
    ensures |r| == |stack| + 1
  {
    var empty: seq<SvnItem> := [];
    stack + [empty]
  }

  /** One item more in the innermost list, then the same again. */
  lemma ResumeItem(stack: seq<seq<SvnItem>>, s: seq<byte>, item: SvnItem, after: seq<byte>)
    requires stack != []
    requires ParseItems(s, |stack|) ==
      match ParseItems(after, |stack|)
      case Fail(e, left) => Fail(e, left)
      case Done(more, rest) => Done([item] + more, rest)
    ensures Resume(stack, s) == Resume(Added(stack, item), after)
  {
    hide ParseItems, Close;
    var n := |stack| - 1;
    var top := stack[n];
    assert Added(stack, item)[..n] == stack[..n];
    match ParseItems(after, |stack|)
    case Fail(_, _) =>
    case Done(more, _) => assert (top + [item]) + more == top + ([item] + more);
  }

  lemma ResumeClose(stack: seq<seq<SvnItem>>, s: seq<byte>)
    requires stack != [] && SkipWs(s) != [] && SkipWs(s)[0] == CLOSE
    ensures Resume(stack, s) ==
      match RequireWs(SkipWs(s)[1..])
      case Fail(e, left) => Fail(e, left)
      case Done(_, rest) => Close(stack[..|stack| - 1], List(stack[|stack| - 1]), rest)
  {
    assert stack[|stack| - 1] + [] == stack[|stack| - 1];
  }

  lemma ResumeOpen(stack: seq<seq<SvnItem>>, s: seq<byte>)
    requires stack != [] && SkipWs(s) != [] && SkipWs(s)[0] == OPEN
    ensures |stack| >= MAX_LIST_DEPTH ==> Resume(stack, s) == Fail(NestingTooDeep, SkipWs(s))
    ensures |stack| < MAX_LIST_DEPTH ==>
      var ws := RequireWs(SkipWs(s)[1..]);
      Resume(stack, s) == if ws.Fail? then Fail(ws.error, ws.rest) else Resume(Opened(stack), ws.rest)
  {
    if |stack| < MAX_LIST_DEPTH && RequireWs(SkipWs(s)[1..]).Done? {
      var inside := RequireWs(SkipWs(s)[1..]).rest;
      assert Opened(stack)[..|stack|] == stack;
      var nested := ParseItems(inside, |stack| + 1);
      if nested.Done? {
        assert Opened(stack)[|stack|] + nested.value == nested.value;
        ResumeItem(stack, s, List(nested.value), nested.rest);
      }
    }
  }

  lemma ResumeAtom(stack: seq<seq<SvnItem>>, s: seq<byte>)
    requires stack != [] && SkipWs(s) != [] && SkipWs(s)[0] != OPEN && SkipWs(s)[0] != CLOSE
    ensures var a := ParseAtom(SkipWs(s));
      Resume(stack, s) == if a.Fail? then a else Resume(Added(stack, a.value), a.rest)
  {
    hide ParseAtom;
    var a := ParseAtom(SkipWs(s));
    if a.Done? {
      ResumeItem(stack, s, a.value, a.rest);
    }
  }

  /** Whether a reader's answer and the unread bytes it leaves are what the grammar says. */
  predicate Agrees<T(==)>(r: Result<T, ReadError>, unread: seq<byte>, p: Parsed<T>) {
    match p
    case Fail(e, rest) => r == Err(e) && unread == rest
    case Done(value, rest) => r == Ok(value) && unread == rest
  }

  /** `transport` lists what the successive reads deliver; after them the peer has closed. */
  class RaSvnConnection {
    var buf: seq<byte>
    var pos: nat
    var transport: seq<seq<byte>>

    ghost predicate Valid()
      reads this
    {
      pos <= |buf| && forall i :: 0 <= i < |transport| ==> transport[i] != []
    }

    /** Everything that has not been read: the rest of the buffer, then what is still to arrive. */
    ghost function Unread(): seq<byte>
      reads this
      requires pos <= |buf|
    {
      buf[pos..] + Flatten(transport)
    }

    constructor (transport: seq<seq<byte>>)
      requires forall i :: 0 <= i < |transport| ==> transport[i] != []
      ensures Valid() && Unread() == Flatten(transport)
    {
      buf, pos, this.transport := [], 0, transport;
    }

    /** Moves the unread bytes to the front of the buffer and appends one read. */
    method Fill() returns (r: Result<(), ReadError>)
      requires Valid()
      modifies this
      ensures Valid() && Unread() == old(Unread())
      ensures r.Ok? ==> |transport| < old(|transport|) && |buf| - pos > old(|buf| - pos)
      ensures r.Err? ==> r == Err(UnexpectedEof) && Flatten(transport) == [] && buf[pos..] == old(buf[pos..])
    {
      if pos > 0 {
        buf := buf[pos..];
        pos := 0;
      }
      if transport == [] {
        return Err(UnexpectedEof);
      }
      var temp := transport[0];
      assert buf[pos..] + Flatten(transport) == (buf + temp)[pos..] + Flatten(transport[1..]);
      buf := buf + temp;
      transport := transport[1..];
      return Ok(());
    }

    method PeekByte() returns (r: Result<byte, ReadError>)
      requires Valid()
      modifies this
      ensures Valid() && Unread() == old(Unread())
      ensures if Unread() == [] then r == Err(UnexpectedEof) else r == Ok(Unread()[0]) && pos < |buf| && buf[pos] == r.value
    {
      while pos >= |buf|
        invariant Valid() && Unread() == old(Unread())
        decreases |transport|
      {
        var filled := Fill();
        if filled.Err? {
          return Err(filled.error);
        }
      }
      return Ok(buf[pos]);
    }

    method ConsumeByte() returns (r: Result<byte, ReadError>)
      requires Valid()
      modifies this
      ensures Valid()
      ensures if old(Unread()) == [] then r == Err(UnexpectedEof) && Unread() == []
              else r == Ok(old(Unread())[0]) && Unread() == old(Unread())[1..]
    {
      var b := PeekByte();
      if b.Err? {
        return b;
      }
      pos := pos + 1;
      assert buf[pos - 1..] == [b.value] + buf[pos..];
      return b;
    }

    /** Skips to the first other byte, which has to arrive. */
    method SkipWhitespace() returns (r: Result<(), ReadError>)
      requires Valid()
      modifies this
      ensures Valid() && Unread() == SkipWs(old(Unread()))
      ensures r == if Unread() == [] then Err(UnexpectedEof) else Ok(())
    {
      while true
        invariant Valid() && SkipWs(Unread()) == SkipWs(old(Unread()))
        decreases |Unread()|
      {
        var b := PeekByte();
        if b.Err? {
          return Err(b.error);
        }
        if !IsWhitespace(b.value) {
          return Ok(());
        }
        b := ConsumeByte();
      }
    }

    method RequireWhitespace() returns (r: Result<(), ReadError>)
      requires Valid()
      modifies this
      ensures Valid() && Agrees(r, Unread(), RequireWs(old(Unread())))
    {
      var b := ConsumeByte();
      if b.Err? {
        return Err(b.error);
      }
      if IsWhitespace(b.value) {
        return Ok(());
      }
      return Err(ExpectedWhitespace);
    }

    method ReadDigits() returns (r: Result<u64, ReadError>)
      requires Valid()
      modifies this
      ensures Valid() && Agrees(r, Unread(), ParseDigits(old(Unread()), 0))
    {
      var n: u64 := 0;
      while true
        invariant Valid() && ParseDigits(Unread(), n) == ParseDigits(old(Unread()), 0)
        decreases |Unread()|
      {
        var b := PeekByte();
        if b.Err? {
          return Err(b.error);
        }
        if !Decimal.IsDigit(b.value) {
          return Ok(n);
        }
        var digit := b.value - 48;
        b := ConsumeByte();
        if n * 10 + digit >= TWO_64 {
          return Err(NumberOverflow);
        }
        n := n * 10 + digit;
      }
    }

    method ReadWord() returns (r: Result<seq<byte>, ReadError>)
      requires Valid()
      modifies this
      ensures Valid() && Agrees(r, Unread(), ParseWord(old(Unread()), []))
    {
      var bytes: seq<byte> := [];
      while true
        invariant Valid() && ParseWord(Unread(), bytes) == ParseWord(old(Unread()), [])
        decreases |Unread()|
      {
        var b := PeekByte();
        if b.Err? {
          return Err(b.error);
        }
        if IsWhitespace(b.value) {
          if Utf8.Valid(bytes) {
            return Ok(bytes);
          }
          return Err(NonUtf8Word);
        }
        if EndsWord(b.value) {
          return Err(InvalidWord);
        }
        var c := ConsumeByte();
        bytes := bytes + [c.value];
      }
    }

    /** At most `limit` of the bytes in the buffer. */
    method TakeBuffered(limit: nat) returns (bytes: seq<byte>)
      requires Valid() && pos < |buf| && limit > 0
      modifies this
      ensures Valid() && transport == old(transport)
      ensures 0 < |bytes| <= limit && bytes + Unread() == old(Unread())
    {
      var take := if limit < |buf| - pos then limit else |buf| - pos;
      bytes := buf[pos..pos + take];
      Regroup(bytes, buf[pos + take..], Flatten(transport));
      assert bytes + buf[pos + take..] == buf[pos..];
      pos := pos + take;
    }

    /** Copies `n` bytes out of the buffer, refilling it as often as needed. */
    method ReadExactVec(n: nat) returns (r: Result<seq<byte>, ReadError>)
      requires Valid()
      modifies this
      ensures Valid()
      ensures if |old(Unread())| < n then r == Err(UnexpectedEof) && Unread() == []
              else r == Ok(old(Unread())[..n]) && Unread() == old(Unread())[n..]
    {
      hide Flatten;
      var out: seq<byte> := [];
      while |out| < n
        invariant Valid() && |out| <= n
        invariant out + Unread() == old(Unread())
        decreases n - |out|, |transport|
      {
        if pos < |buf| {
          var bytes := TakeBuffered(n - |out|);
          Regroup(out, bytes, Unread());
          out := out + bytes;
        } else {
          var filled := Fill();
          if filled.Err? {
            assert Unread() == [];
            return Err(filled.error);
          }
        }
      }
      CutApart(out, Unread());
      return Ok(out);
    }

    method ReadAtom() returns (r: Result<SvnItem, ReadError>)
      requires Valid()
      modifies this
      ensures Valid() && Agrees(r, Unread(), ParseAtom(old(Unread())))
    {
      hide ParseDigits, ParseWord, Flatten;
      var skipped := SkipWhitespace();
      if skipped.Err? {
        return Err(skipped.error);
      }
      var b := PeekByte();
      if Decimal.IsDigit(b.value) {
        r := ReadNumberOrText();
      } else {
        var word := ReadWord();
        if word.Err? {
          return Err(word.error);
        }
        var item := WordItem(word.value);
        var ws := RequireWhitespace();
        if ws.Err? {
          return Err(ws.error);
        }
        return Ok(item);
      }
    }

    /** The branch of `ReadAtom` for a digit: a number, or the length of a string. */
    method ReadNumberOrText() returns (r: Result<SvnItem, ReadError>)
      requires Valid() && Unread() != [] && Decimal.IsDigit(Unread()[0])
      modifies this
      ensures Valid() && Agrees(r, Unread(), ParseAtom(old(Unread())))
    {
      hide ParseDigits, ParseWord, Flatten;
      var n := ReadDigits();
      if n.Err? {
        return Err(n.error);
      }
      var next := PeekByte();
      if next.value == COLON {
        next := ConsumeByte();
        var bytes := ReadExactVec(n.value);
        if bytes.Err? {
          return Err(bytes.error);
        }
        var ws := RequireWhitespace();
        if ws.Err? {
          return Err(ws.error);
        }
        return Ok(Text(bytes.value));
      }
      var ws := RequireWhitespace();
      if ws.Err? {
        return Err(ws.error);
      }
      return Ok(Number(n.value));
    }

    /** The list reader: one loop, with the open lists on a stack. */
    method ReadList() returns (r: Result<SvnItem, ReadError>)
      requires Valid() && Unread() != []
      modifies this
      ensures Valid() && Agrees(r, Unread(), ParseList(old(Unread())))
    {
      hide ParseItems, ParseAtom, RequireWs, SkipWs, Flatten, Resume, Close;
      ghost var goal := ParseList(Unread());
      var open := ConsumeByte();
      var ws := RequireWhitespace();
      if ws.Err? {
        return Err(ws.error);
      }
      var stack: seq<seq<SvnItem>> := [[]];
      ListIsResume(Unread());
      while true
        invariant Valid() && stack != []
        invariant Resume(stack, Unread()) == goal
        decreases |Unread()|
      {
        ghost var s := Unread();
        var skipped := SkipWhitespace();
        if skipped.Err? {
          ResumeEnd(stack, s);
          return Err(skipped.error);
        }
        var next := PeekByte();
        if next.value == CLOSE {
          ResumeClose(stack, s);
          next := ConsumeByte();
          ws := RequireWhitespace();
          if ws.Err? {
            return Err(ws.error);
          }
          var item := List(stack[|stack| - 1]);
          stack := stack[..|stack| - 1];
          CloseStep(stack, item, Unread());
          if stack == [] {
            return Ok(item);
          }
          stack := Added(stack, item);
        } else if next.value == OPEN {
          ResumeOpen(stack, s);
          if |stack| >= MAX_LIST_DEPTH {
            return Err(NestingTooDeep);
          }
          next := ConsumeByte();
          ws := RequireWhitespace();
          if ws.Err? {
            return Err(ws.error);
          }
          stack := Opened(stack);
        } else {
          ResumeAtom(stack, s);
          var atom := ReadAtom();
          if atom.Err? {
            return Err(atom.error);
          }
          stack := Added(stack, atom.value);
        }
      }
    }

    /**
     The item reader. For every byte sequence and every way the transport delivers it, the answer
     is the grammar's: the same item or the same failure, and the same bytes left unread.
     */
    method ReadItem() returns (r: Result<SvnItem, ReadError>)
      requires Valid()
      modifies this
      ensures Valid() && Agrees(r, Unread(), ParseItem(old(Unread())))
    {
      hide ParseList, Flatten, ParseAtom;
      SkipTwice(Unread());
      var skipped := SkipWhitespace();
      if skipped.Err? {
        return Err(skipped.error);
      }
      var ch := PeekByte();
      if ch.value == OPEN {
        r := ReadList();
      } else {
        r := ReadAtom();
      }
    }
  }

  lemma CutApart(a: seq<byte>, b: seq<byte>)
    ensures (a + b)[..|a|] == a && (a + b)[|a|..] == b
  {
  }

  lemma ListIsResume(inside: seq<byte>)
    ensures var items := ParseItems(inside, 1);
      Resume([[]], inside) == if items.Fail? then Fail(items.error, items.rest) else Done(List(items.value), items.rest)
  {
    hide ParseItems;
    var items := ParseItems(inside, 1);
    var stack: seq<seq<SvnItem>> := [[]];
    if items.Done? {
      assert stack[0] + items.value == items.value;
    }
  }

  lemma ResumeEnd(stack: seq<seq<SvnItem>>, s: seq<byte>)
    requires stack != [] && SkipWs(s) == []
    ensures Resume(stack, s) == Fail(UnexpectedEof, [])
  {
  }

  lemma CloseStep(outer: seq<seq<SvnItem>>, item: SvnItem, rest: seq<byte>)
    ensures Close(outer, item, rest) == if outer == [] then Done(item, rest) else Resume(Added(outer, item), rest)
  {
  }

  lemma SkipTwice(s: seq<byte>)
    ensures SkipWs(SkipWs(s)) == SkipWs(s)
  {
  }
}
