/**
 * How nouns are stored (`vm/src/noun.rs`): an atom of at most four bytes lives inline in a zero-padded
 * buffer, and a longer one in a vector. Every constructor keeps to that split, which is what lets stored
 * nouns be compared field by field and read as numbers from the padded buffer.
 */
module Representation {
  import opened Basics
  import opened Nouns

  datatype Stored =
    | SmallAtom(value: Bytes, length: nat)
    | LargeAtom(bytes: Bytes)
    | StoredCell(left: Stored, right: Stored)

  /** What every constructor maintains: short atoms are inline and padded with zeros. */
  predicate Canonical(s: Stored) {
    match s
    case SmallAtom(value, length) =>
      |value| == 4 && length <= 4 && forall i :: length <= i < 4 ==> value[i] == 0
    case LargeAtom(bs) => |bs| > 4
    case StoredCell(l, r) => Canonical(l) && Canonical(r)
  }

  /** The noun that a stored noun stands for: `as_kind`. */
  function Meaning(s: Stored): Noun
    requires Canonical(s)
  {
    match s
    case SmallAtom(value, length) => Atom(value[..length])
    case LargeAtom(bs) => Atom(bs)
    case StoredCell(l, r) => Cell(Meaning(l), Meaning(r))
  }

  function FromSmallSlice(source: Bytes): Stored {
    SmallAtom(
      [if |source| > 0 then source[0] else 0,
       if |source| > 1 then source[1] else 0,
       if |source| > 2 then source[2] else 0,
       if |source| > 3 then source[3] else 0],
      |source|)
  }

  function FromVec(source: Bytes): Stored {
    if |source| <= 4 then FromSmallSlice(source) else LargeAtom(source)
  }

  function Store(n: Noun): Stored {
    match n
    case Atom(bs) => FromVec(bs)
    case Cell(l, r) => StoredCell(Store(l), Store(r))
  }

  /** Storing gives a canonical noun with the same meaning. */
  lemma {:induction false} StoreMeans(n: Noun)
    ensures Canonical(Store(n)) && Meaning(Store(n)) == n
  {
    match n
    case Atom(bs) =>
      if |bs| <= 4 {
        assert Store(n).value[..|bs|] == bs;
      }
    case Cell(l, r) =>
      StoreMeans(l);
      StoreMeans(r);
  }

  /** There is one canonical form: comparing stored fields is comparing nouns. */
  lemma {:induction false} CanonicalUnique(a: Stored, b: Stored)
    requires Canonical(a) && Canonical(b)
    ensures a == b <==> Meaning(a) == Meaning(b)
  {
    match (a, b)
    case (SmallAtom(v, n), SmallAtom(w, m)) =>
      if Meaning(a) == Meaning(b) {
        assert n == |v[..n]| == |w[..m]| == m;
        forall i | 0 <= i < 4
          ensures v[i] == w[i]
        {
          if i < n {
            assert v[i] == v[..n][i] == w[..n][i] == w[i];
          }
        }
        assert v == w;
      }
    case (StoredCell(l, r), StoredCell(x, y)) =>
      CanonicalUnique(l, x);
      CanonicalUnique(r, y);
    case (SmallAtom(v, n), LargeAtom(bs)) =>
      assert |v[..n]| == n;
    case (LargeAtom(bs), SmallAtom(v, n)) =>
      assert |v[..n]| == n;
    case _ =>
  }

  lemma {:induction false} LeValueZeros(bs: Bytes)
    ensures (forall i :: 0 <= i < |bs| ==> bs[i] == 0) <==> LeValue(bs) == 0
  {
    if bs != [] {
      LeValueZeros(bs[1..]);
      if LeValue(bs) == 0 {
        forall i | 0 <= i < |bs|
          ensures bs[i] == 0
        {
          if i > 0 {
            assert bs[i] == bs[1..][i - 1];
          }
        }
      }
    }
  }

  lemma {:induction false} LeValueSplit(bs: Bytes, k: nat)
    requires k <= |bs|
    ensures LeValue(bs) == LeValue(bs[..k]) + Pow256(k) * LeValue(bs[k..])
  {
    if k > 0 {
      LeValueSplit(bs[1..], k - 1);
      assert bs[1..][..k - 1] == bs[..k][1..];
      assert bs[1..][k - 1..] == bs[k..];
      ScaleBy256(Pow256(k - 1), LeValue(bs[k..]));
    } else {
      assert bs[..0] == [];
      assert bs[0..] == bs;
    }
  }

  lemma ScaleBy256(power: nat, value: nat)
    ensures 256 * (power * value) == 256 * power * value
  {
  }

  /** Reading the whole padded buffer is reading the bytes in use. */
  lemma PaddingIsSilent(value: Bytes, length: nat)
    requires Canonical(SmallAtom(value, length))
    ensures LeValue(value) == LeValue(value[..length]) < USIZE_LIMIT
  {
    LeValueSplit(value, length);
    LeValueZeros(value[length..]);
    LeValueBound(value);
    assert Pow256(4) == 256 * Pow256(3) == 65536 * Pow256(2);
  }

  /**
   * `as_usize` and `as_u64`: the little-endian value, or nothing when a nonzero byte lies past the eighth.
   * `tester` is the overflow tester, which has shifted out to zero exactly after eight bytes.
   */
  method AsU64(s: Stored) returns (r: Option<nat>)
    requires Canonical(s)
    ensures r == Nouns.AsU64(Meaning(s))
  {
    match s {
      case StoredCell(_, _) =>
        r := None;
      case SmallAtom(value, length) =>
        PaddingIsSilent(value, length);
        r := Some(LeValue(value));
      case LargeAtom(xs) =>
        var scale: nat, accum: nat, tester: nat := 1, 0, 255;
        for i := 0 to |xs|
          invariant accum == LeValue(xs[..i])
          invariant i <= 8 ==> scale == Pow256(i)
          invariant tester == if i < 8 then 255 * Pow256(i) else 0
          invariant i >= 8 ==> accum < USIZE_LIMIT
        {
          assert xs[..i + 1] == xs[..i] + [xs[i]];
          LeValueSnoc(xs[..i], xs[i]);
          Pow256Limit();
          if xs[i] != 0 {
            if tester == 0 {
              TooBig(xs, i);
              return None;
            }
            accum := accum + xs[i] * scale;
          }
          LeValueBound(xs[..i + 1]);
          scale := scale * 256;
          tester := tester * 256 % USIZE_LIMIT;
          TesterStep(i);
        }
        assert xs[..|xs|] == xs;
        LeValueBound(xs);
        if |xs| < 8 {
          Pow256Monotone(|xs|, 8);
          Pow256Limit();
        }
        r := Some(accum);
    }
  }

  lemma {:induction false} Pow256Monotone(a: nat, b: nat)
    requires a <= b
    ensures Pow256(a) <= Pow256(b)
    decreases b - a
  {
    if a < b {
      Pow256Monotone(a, b - 1);
    }
  }

  lemma Pow256Limit()
    ensures Pow256(8) == USIZE_LIMIT
  {
    assert Pow256(4) == 256 * Pow256(3) == 65536 * Pow256(2) == 0x1_0000_0000;
    Pow256Sum(4, 4);
  }

  lemma TesterStep(i: nat)
    ensures i < 7 ==> 255 * Pow256(i) * 256 % USIZE_LIMIT == 255 * Pow256(i + 1)
    ensures i == 7 ==> 255 * Pow256(i) * 256 % USIZE_LIMIT == 0
  {
    Pow256Limit();
    if i < 7 {
      Pow256Monotone(i + 2, 8);
      assert Pow256(i + 2) == 256 * Pow256(i + 1);
    }
  }

  lemma TooBig(xs: Bytes, i: nat)
    requires 8 <= i < |xs| && xs[i] != 0
    ensures LeValue(xs) >= USIZE_LIMIT
  {
    LeValueSplit(xs, i);
    LeValueZeros(xs[i..]);
    assert xs[i..][0] != 0;
    Pow256Monotone(8, i);
    Pow256Limit();
    AtLeastOnce(Pow256(i), LeValue(xs[i..]));
  }

  lemma AtLeastOnce(a: nat, b: nat)
    requires b >= 1
    ensures a * b >= a
  {
  }

  /** `as_u8`: the first byte when every later byte is zero. */
  method AsU8(s: Stored) returns (r: Option<nat>)
    requires Canonical(s)
    ensures r == Nouns.AsU8(Meaning(s))
  {
    match s {
      case StoredCell(_, _) =>
        r := None;
      case SmallAtom(value, length) =>
        PaddingIsSilent(value, length);
        r := if LeValue(value) < 256 then Some(LeValue(value)) else None;
      case LargeAtom(xs) =>
        assert LeValue(xs) == xs[0] + 256 * LeValue(xs[1..]);
        LeValueZeros(xs[1..]);
        for i := 1 to |xs|
          invariant forall j :: 1 <= j < i ==> xs[j] == 0
        {
          if xs[i] != 0 {
            assert xs[1..][i - 1] != 0;
            return None;
          }
        }
        assert forall j :: 0 <= j < |xs[1..]| ==> xs[1..][j] == xs[j + 1];
        r := Some(xs[0]);
    }
  }

  /** `from_usize_compact` and `from_u64_compact`: collect low bytes, then reverse. */
  method FromU64Compact(source: nat) returns (s: Stored)
    ensures s == Store(FromCompact(source))
  {
    var rest := source;
    var bs: Bytes := [];
    while rest != 0
      invariant CompactBytes(source) == CompactBytes(rest) + Reverse(bs)
    {
      ReverseSnoc(bs, rest % 256);
      assert CompactBytes(rest) + Reverse(bs) == CompactBytes(rest / 256) + ([rest % 256] + Reverse(bs));
      bs := bs + [rest % 256];
      rest := rest / 256;
    }
    s := FromVec(Reverse(bs));
  }

  lemma {:induction false} ReverseSnoc(bs: Bytes, b: Byte)
    ensures Reverse(bs + [b]) == [b] + Reverse(bs)
  {
    if bs == [] {
      assert [b][1..] == [];
      assert bs + [b] == [b];
    } else {
      ReverseSnoc(bs[1..], b);
      assert (bs + [b])[1..] == bs[1..] + [b];
    }
  }
}
