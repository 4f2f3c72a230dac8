/** Byte-wise order of paths, sorting by it, and why sorted paths with a common prefix are neighbours. */
module Order {
  import opened Bytes

  predicate Less(a: seq<byte>, b: seq<byte>) {
    b != [] && (a == [] || a[0] < b[0] || (a[0] == b[0] && Less(a[1..], b[1..])))
  }

  predicate LessEq(a: seq<byte>, b: seq<byte>) { a == b || Less(a, b) }

  lemma {:induction false} LessTransitive(a: seq<byte>, b: seq<byte>, c: seq<byte>)
    requires Less(a, b) && Less(b, c)
    ensures Less(a, c)
  {
    if a != [] && a[0] == b[0] == c[0] {
      LessTransitive(a[1..], b[1..], c[1..]);
    }
  }

  lemma {:induction false} LessIrreflexive(a: seq<byte>)
    ensures !Less(a, a)
  {
    if a != [] {
      LessIrreflexive(a[1..]);
    }
  }

  lemma {:induction false} LessTotal(a: seq<byte>, b: seq<byte>)
    ensures a == b || Less(a, b) || Less(b, a)
  {
    if a != [] && b != [] && a[0] == b[0] {
      LessTotal(a[1..], b[1..]);
      assert a == [a[0]] + a[1..] && b == [b[0]] + b[1..];
    }
  }

  lemma {:induction false} PrefixLess(a: seq<byte>, b: seq<byte>)
    requires a < b
    ensures Less(a, b)
  {
    if a != [] {
      PrefixLess(a[1..], b[1..]);
    }
  }

  /** What lies between two texts with a common prefix has that prefix too. */
  lemma {:induction false} PrefixBetween(prefix: seq<byte>, x: seq<byte>, y: seq<byte>, z: seq<byte>)
    requires prefix <= x && prefix <= z && LessEq(x, y) && LessEq(y, z)
    ensures prefix <= y
  {
    if prefix != [] && x != y && y != z {
      assert x[0] == prefix[0] == z[0] && y[0] == x[0];
      assert prefix[1..] <= x[1..] && prefix[1..] <= z[1..];
      PrefixBetween(prefix[1..], x[1..], y[1..], z[1..]);
    }
  }
}
