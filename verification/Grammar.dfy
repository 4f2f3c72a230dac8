/**
 The grammar of `ra_svn` items as a recursive-descent parser over a byte string: what an item at
 the front of the input is, what follows it, and why there is none.
 */
module Grammar {
  import opened Bytes
  import opened Items
  import Decimal
  import Utf8

  const MAX_LIST_DEPTH := 256

  datatype ReadError =
    | UnexpectedEof
    | ExpectedWhitespace
    | NestingTooDeep
    | NumberOverflow
    | InvalidWord
    | NonUtf8Word

  /** A parsed value and the input behind it, or a failure and the input not consumed by then. */
  datatype Parsed<+T> = Done(value: T, rest: seq<byte>) | Fail(error: ReadError, rest: seq<byte>) {
    predicate IsFailure() { Fail? }

    function PropagateFailure<U>(): Parsed<U>
      requires Fail?
    {
      Fail(error, rest)
    }

    function Extract(): (T, seq<byte>)
      requires Done?
    {
      (value, rest)
    }
  }

  predicate IsWhitespace(b: byte) {
    b == 32 || b == 9 || b == 10 || b == 12 || b == 13
  }

  function SkipWs(s: seq<byte>): (r: seq<byte>)
    ensures |r| <= |s|
    ensures r != [] ==> !IsWhitespace(r[0])
  {
    if s != [] && IsWhitespace(s[0]) then SkipWs(s[1..]) else s
  }

  function RequireWs(s: seq<byte>): (r: Parsed<()>)
    ensures r.Done? ==> |r.rest| < |s|
  {
    if s == [] then Fail(UnexpectedEof, [])
    else if IsWhitespace(s[0]) then Done((), s[1..])
    else Fail(ExpectedWhitespace, s[1..])
  }

  /** Digits up to the first other byte, which must have arrived. */
  function ParseDigits(s: seq<byte>, n: u64): (r: Parsed<u64>)
    ensures r.Done? ==> r.rest != [] && |r.rest| <= |s|
    ensures r.Done? && s != [] && Decimal.IsDigit(s[0]) ==> |r.rest| < |s|
    decreases |s|
  {
    if s == [] then Fail(UnexpectedEof, [])
    else if !Decimal.IsDigit(s[0]) then Done(n, s)
    else if n * 10 + (s[0] - 48) >= TWO_64 then Fail(NumberOverflow, s[1..])
    else ParseDigits(s[1..], n * 10 + (s[0] - 48))
  }

  predicate EndsWord(b: byte) { b == OPEN || b == CLOSE || b == COLON }

  /** A word: bytes up to a whitespace byte, which must have arrived. */
  function ParseWord(s: seq<byte>, acc: seq<byte>): (r: Parsed<seq<byte>>)
    ensures r.Done? ==> |r.rest| <= |s|
    decreases |s|
  {
    if s == [] then Fail(UnexpectedEof, [])
    else if IsWhitespace(s[0]) then (if Utf8.Valid(acc) then Done(acc, s) else Fail(NonUtf8Word, s))
    else if EndsWord(s[0]) then Fail(InvalidWord, s)
    else ParseWord(s[1..], acc + [s[0]])
  }

  function ParseText(s: seq<byte>, len: nat): (r: Parsed<SvnItem>)
    ensures r.Done? ==> |r.rest| < |s|
  {
    if |s| < len then Fail(UnexpectedEof, [])
    else
      var (_, rest) :- RequireWs(s[len..]);
      Done(Text(s[..len]), rest)
  }

  function WordItem(w: seq<byte>): SvnItem {
    if w == TRUE then Bool(true) else if w == FALSE then Bool(false) else Word(w)
  }

  function ParseAtom(input: seq<byte>): (r: Parsed<SvnItem>)
    ensures r.Done? ==> |r.rest| < |input|
  {
    var s := SkipWs(input);
    if s == [] then Fail(UnexpectedEof, [])
    else if Decimal.IsDigit(s[0]) then
      var (n, after) :- ParseDigits(s, 0);
      if after[0] == COLON then ParseText(after[1..], n)
      else
        var (_, rest) :- RequireWs(after);
        Done(Number(n), rest)
    else
      var (w, after) :- ParseWord(s, []);
      var (_, rest) :- RequireWs(after);
      Done(WordItem(w), rest)
  }

  /** The items of a list whose opening parenthesis has been read, at nesting level `depth`. */
  function ParseItems(input: seq<byte>, depth: nat): (r: Parsed<seq<SvnItem>>)
    ensures r.Done? ==> |r.rest| < |input|
    decreases |input|
  {
    var s := SkipWs(input);
    if s == [] then Fail(UnexpectedEof, [])
    else if s[0] == CLOSE then
      var (_, rest) :- RequireWs(s[1..]);
      Done([], rest)
    else if s[0] == OPEN then
      if depth >= MAX_LIST_DEPTH then Fail(NestingTooDeep, s)
      else
        var (_, inside) :- RequireWs(s[1..]);
        var (inner, after) :- ParseItems(inside, depth + 1);
        var (more, rest) :- ParseItems(after, depth);
        Done([List(inner)] + more, rest)
    else
      var (atom, after) :- ParseAtom(s);
      var (more, rest) :- ParseItems(after, depth);
      Done([atom] + more, rest)
  }

  function ParseList(s: seq<byte>): (r: Parsed<SvnItem>)
    requires s != []
    ensures r.Done? ==> |r.rest| < |s|
  {
    var (_, inside) :- RequireWs(s[1..]);
    var (items, rest) :- ParseItems(inside, 1);
    Done(List(items), rest)
  }

  function ParseItem(input: seq<byte>): (r: Parsed<SvnItem>)
    ensures r.Done? ==> |r.rest| < |input|
  {
    var s := SkipWs(input);
    if s == [] then Fail(UnexpectedEof, [])
    else if s[0] == OPEN then ParseList(s)
    else ParseAtom(s)
  }
}
