/**
 * Nouns, and the numbers that atoms stand for.
 *
 * A noun is an atom or a pair. The program reads an atom as a number in two ways: `as_usize`, `as_u64`,
 * `as_u8` and tree addressing read it with the least significant byte first, while arithmetic and the
 * `from_*_compact` constructors put the most significant byte first.
 */
module Nouns {
  import opened Basics

  datatype Noun = Atom(bytes: Bytes) | Cell(left: Noun, right: Noun)

  /** The value of a byte string whose first byte is least significant. */
  function LeValue(bs: Bytes): nat {
    if bs == [] then 0 else bs[0] + 256 * LeValue(bs[1..])
  }

  /** The value of a byte string whose first byte is most significant. */
  function BeValue(bs: Bytes): nat {
    if bs == [] then 0 else 256 * BeValue(bs[..|bs| - 1]) + bs[|bs| - 1]
  }

  /** The shortest byte string of a number, most significant byte first. */
  function CompactBytes(n: nat): Bytes {
    if n == 0 then [] else CompactBytes(n / 256) + [n % 256]
  }

  function FromU8(b: Byte): Noun {
    Atom([b])
  }

  function FromBool(b: bool): Noun {
    FromU8(if b then 1 else 0)
  }

  function FromCompact(n: nat): Noun {
    Atom(CompactBytes(n))
  }

  function AsBounded(n: Noun, limit: nat): Option<nat> {
    match n
    case Cell(_, _) => None
    case Atom(bs) => if LeValue(bs) < limit then Some(LeValue(bs)) else None
  }

  function AsU8(n: Noun): Option<nat> {
    AsBounded(n, 256)
  }

  /** `as_usize` and `as_u64` agree on a 64-bit machine. */
  function AsU64(n: Noun): Option<nat> {
    AsBounded(n, USIZE_LIMIT)
  }

  function AtomLen(n: Noun): nat {
    match n
    case Cell(_, _) => 0
    case Atom(bs) => |bs|
  }

  /** How many atoms a noun has. */
  function Leaves(n: Noun): (r: nat)
    ensures r >= 1
  {
    match n
    case Atom(_) => 1
    case Cell(l, r) => Leaves(l) + Leaves(r)
  }

  /** The bytes of all atoms, left to right. */
  function Flatten(n: Noun): Bytes {
    match n
    case Atom(bs) => bs
    case Cell(l, r) => Flatten(l) + Flatten(r)
  }

  /** A right-nested tree: [a b c] is [a [b c]]. */
  function Nested(xs: seq<Noun>): Noun
    requires xs != []
  {
    if |xs| == 1 then xs[0] else Cell(xs[0], Nested(xs[1..]))
  }

  function Reverse(bs: Bytes): (r: Bytes)
    ensures |r| == |bs|
  {
    if bs == [] then [] else Reverse(bs[1..]) + [bs[0]]
  }

  /** A number that survives being written by `from_u64_compact` and read back by `as_u64` or `axis`. */
  predicate Readable(n: nat) {
    LeValue(CompactBytes(n)) == n
  }

  lemma {:induction false} CompactBytesValue(n: nat)
    ensures BeValue(CompactBytes(n)) == n
    ensures n > 0 ==> CompactBytes(n) != [] && CompactBytes(n)[0] != 0
  {
    if n > 0 {
      CompactBytesValue(n / 256);
      var bs := CompactBytes(n);
      assert bs[..|bs| - 1] == CompactBytes(n / 256);
    }
  }

  lemma {:induction false} CompactBytesLength(n: nat, k: nat)
    requires n < Pow256(k)
    ensures |CompactBytes(n)| <= k
  {
    if n > 0 {
      assert k > 0;
      CompactBytesLength(n / 256, k - 1);
    }
  }

  lemma {:induction false} LeValueBound(bs: Bytes)
    ensures LeValue(bs) < Pow256(|bs|)
  {
    if bs != [] {
      LeValueBound(bs[1..]);
    }
  }

  lemma {:induction false} BeValueBound(bs: Bytes)
    ensures BeValue(bs) < Pow256(|bs|)
  {
    if bs != [] {
      BeValueBound(bs[..|bs| - 1]);
    }
  }

  lemma {:induction false} LeValueSnoc(bs: Bytes, b: Byte)
    ensures LeValue(bs + [b]) == LeValue(bs) + b * Pow256(|bs|)
  {
    if bs == [] {
      assert [b][1..] == [];
      assert LeValue([b]) == b;
      assert bs + [b] == [b];
    } else {
      LeValueSnoc(bs[1..], b);
      assert (bs + [b])[1..] == bs[1..] + [b];
      assert Pow256(|bs|) == 256 * Pow256(|bs| - 1);
    }
  }

  /** Reading in one order is reading the reversed bytes in the other. */
  lemma {:induction false} LeIsBeReversed(bs: Bytes)
    ensures LeValue(bs) == BeValue(Reverse(bs))
  {
    if bs != [] {
      LeIsBeReversed(bs[1..]);
      var r := Reverse(bs);
      assert r[..|r| - 1] == Reverse(bs[1..]);
    }
  }

  lemma {:induction false} BeValueInjective(a: Bytes, b: Bytes)
    requires |a| == |b|
    requires BeValue(a) == BeValue(b)
    ensures a == b
  {
    if a != [] {
      var n := |a| - 1;
      BeValueInjective(a[..n], b[..n]);
      assert a == a[..n] + [a[n]];
      assert b == b[..n] + [b[n]];
    }
  }

  /** The two byte orders agree on exactly the numbers whose bytes are a palindrome. */
  lemma ReadableIffPalindrome(n: nat)
    ensures Readable(n) <==> CompactBytes(n) == Reverse(CompactBytes(n))
  {
    var bs := CompactBytes(n);
    LeIsBeReversed(bs);
    CompactBytesValue(n);
    if Readable(n) {
      BeValueInjective(bs, Reverse(bs));
    }
  }

  /** Every one-byte number is read back. */
  lemma ByteIsReadable(n: nat)
    requires n < 256
    ensures Readable(n)
  {
    if n > 0 {
      assert n / 256 == 0;
      assert CompactBytes(n / 256) == [];
      assert CompactBytes(n) == [n];
      assert [n][1..] == [];
      assert LeValue([n][1..]) == 0;
    }
  }

  /** The smallest number the two byte orders disagree on. */
  lemma FirstUnreadable()
    ensures !Readable(256)
    ensures LeValue(CompactBytes(256)) == 1
  {
    assert CompactBytes(0) == [];
    assert CompactBytes(1) == [1];
    assert CompactBytes(256) == [1, 0];
    assert [1, 0][1..] == [0];
    assert [0][1..] == [];
    assert LeValue([]) == 0;
    assert LeValue([0]) == 0;
  }
}
