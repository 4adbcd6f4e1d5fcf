/** Keys as bytes and as nibbles, and the lexicographic order the trie is walked in.

    Keys enter and leave the database as bytes; inside the trie every path is a
    sequence of nibbles, high half first (`NibblesIterator`, `key_from_nibble_iter`).
 */
module Nibbles {

  type Nibble = n: nat | n < 16
  type Byte = b: nat | b < 256

  type Path = seq<Nibble>
  type Key = seq<Byte>

  datatype Option<+T> = None | Some(value: T)

  /** The nibbles of `k`, two per byte, high half first. */
  function ToNibbles(k: Key): (p: Path)
    ensures |p| == 2 * |k|
  {
    if k == [] then [] else [k[0] / 16, k[0] % 16] + ToNibbles(k[1..])
  }

  function Join(hi: Nibble, lo: Nibble): Byte {
    hi as int * 16 + lo as int
  }

  /** The bytes of the complete nibble pairs of `p`; an odd last nibble is dropped. */
  function Pack(p: Path): (k: Key)
    ensures |k| == |p| / 2
  {
    if |p| < 2 then [] else [Join(p[0], p[1])] + Pack(p[2..])
  }

  /** `key_from_nibble_iter`: the loop that packs nibbles two at a time. */
  method KeyFromNibbles(p: Path) returns (k: Key)
    ensures k == Pack(p)
  {
    k := [];
    var rest := p;
    while |rest| >= 2
      invariant Pack(p) == k + Pack(rest)
    {
      k := k + [Join(rest[0], rest[1])];
      rest := rest[2..];
    }
  }

  /** Packing undoes unpacking. */
  lemma {:induction false} PackToNibbles(k: Key)
    ensures Pack(ToNibbles(k)) == k
  {
    if k != [] {
      PackToNibbles(k[1..]);
      assert ToNibbles(k)[2..] == ToNibbles(k[1..]);
    }
  }

  /** Unpacking undoes packing on even-length paths, and loses the last nibble of the odd
      ones. */
  lemma {:induction false} ToNibblesPack(p: Path)
    ensures |p| % 2 == 0 ==> ToNibbles(Pack(p)) == p
    ensures |p| % 2 == 1 ==> ToNibbles(Pack(p)) == p[..|p| - 1]
  {
    if |p| >= 2 {
      ToNibblesPack(p[2..]);
      var k := Pack(p);
      assert k[1..] == Pack(p[2..]);
      assert k[0] / 16 == p[0] && k[0] % 16 == p[1];
      assert p == [p[0], p[1]] + p[2..];
    }
  }

  /** Strict lexicographic order; a proper prefix comes first. */
  predicate Less(a: seq<nat>, b: seq<nat>) {
    b != [] && (a == [] || a[0] < b[0] || (a[0] == b[0] && Less(a[1..], b[1..])))
  }

  predicate Leq(a: seq<nat>, b: seq<nat>) {
    a == b || Less(a, b)
  }

  lemma {:induction false} LessIrreflexive(a: seq<nat>)
    ensures !Less(a, a)
  {
    if a != [] { LessIrreflexive(a[1..]); }
  }

  lemma {:induction false} LessTransitive(a: seq<nat>, b: seq<nat>, c: seq<nat>)
    requires Less(a, b) && Less(b, c)
    ensures Less(a, c)
  {
    if a != [] && a[0] == b[0] && b[0] == c[0] { LessTransitive(a[1..], b[1..], c[1..]); }
  }

  lemma {:induction false} LessTotal(a: seq<nat>, b: seq<nat>)
    ensures Less(a, b) || a == b || Less(b, a)
  {
    if a != [] && b != [] && a[0] == b[0] {
      LessTotal(a[1..], b[1..]);
      assert a == [a[0]] + a[1..] && b == [b[0]] + b[1..];
    }
  }

  lemma {:induction false} LessAsymmetric(a: seq<nat>, b: seq<nat>)
    requires Less(a, b)
    ensures !Less(b, a) && a != b
  {
    if Less(b, a) { LessTransitive(a, b, a); }
    LessIrreflexive(a);
  }

  /** A common prefix does not change the order. */
  lemma {:induction false} LessCommonPrefix(p: seq<nat>, a: seq<nat>, b: seq<nat>)
    ensures Less(p + a, p + b) <==> Less(a, b)
  {
    if p == [] {
      assert p + a == a && p + b == b;
    } else {
      LessCommonPrefix(p[1..], a, b);
      assert (p + a)[1..] == p[1..] + a && (p + b)[1..] == p[1..] + b;
    }
  }

  /** Byte order on keys is nibble order on their paths. */
  lemma {:induction false} NibbleOrder(a: Key, b: Key)
    ensures Less(a, b) <==> Less(ToNibbles(a), ToNibbles(b))
  {
    if a != [] && b != [] {
      NibbleOrder(a[1..], b[1..]);
      var x, y := ToNibbles(a), ToNibbles(b);
      assert x[2..] == ToNibbles(a[1..]) && y[2..] == ToNibbles(b[1..]);
      assert x[1..][1..] == x[2..] && y[1..][1..] == y[2..];
      assert a[0] == Join(x[0], x[1]) && b[0] == Join(y[0], y[1]);
    }
  }

  /** Unpacking is injective. */
  lemma {:induction false} ToNibblesInjective(a: Key, b: Key)
    requires ToNibbles(a) == ToNibbles(b)
    ensures a == b
  {
    PackToNibbles(a);
    PackToNibbles(b);
  }
}
