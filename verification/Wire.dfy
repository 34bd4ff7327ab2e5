/**
 * Encodings byte by byte: the encoder writes the shortest of the forms that the decoder has for an atom, and the bits
 * of a tree's shape stand where the decoder looks for them.
 */
module Wire {
  import opened Basics
  import opened Nouns
  import opened Bits
  import opened Serialize
  import opened Deserialize
  import opened Codec

  lemma {:induction false} VarintShortest(n: nat, groups: nat)
    requires groups >= 1 && n < Pow2(7 * groups)
    ensures |Varint(n)| <= groups
    decreases groups
  {
    if n >= 128 {
      assert Pow2(7) == 128;
      if groups > 1 {
        Pow2Sum(7, 7 * (groups - 1));
        VarintShortest(n / 128, groups - 1);
      }
    }
  }

  /** What is read as a length is below what its number of groups can hold. */
  lemma {:induction false} ReadLengthBound(stream: Bytes, group: nat, sum: nat)
    requires sum < Pow2(7 * group) && ReadLength(stream, group, sum).Ok?
    ensures var (len, rest) := ReadLength(stream, group, sum).value;
            |stream| - |rest| >= 1 && len < Pow2(7 * (group + |stream| - |rest|))
    decreases |stream|
  {
    hide Pow2;
    var sum' := sum + stream[0] % 128 * Pow2(7 * group);
    GroupBound(sum, stream[0] % 128, group);
    if stream[0] >= 128 {
      ReadLengthBound(stream[1..], group + 1, sum');
    }
  }

  lemma GroupBound(sum: nat, digit: nat, group: nat)
    requires sum < Pow2(7 * group) && digit < 128
    ensures sum + digit * Pow2(7 * group) < Pow2(7 * (group + 1))
  {
    assert Pow2(7) == 128;
    Pow2Sum(7, 7 * group);
    hide Pow2;
    var p := Pow2(7 * group);
    MultiplyLe(digit, 127, p);
    assert 7 + 7 * group == 7 * (group + 1);
  }

  /** The value of groups of seven bits, the least significant first. */
  function GroupsValue(groups: Bytes): nat {
    if groups == [] then 0 else groups[0] % 128 + 128 * GroupsValue(groups[1..])
  }

  /** Every length the decoder reads: up to nine groups, all but the last with the high bit set. Ten are too many. */
  lemma LengthRead(head: Bytes, last: Byte, rest: Bytes)
    requires last < 128 && forall i :: 0 <= i < |head| ==> head[i] >= 128
    ensures ReadLength(head + ([last] + rest), 0, 0) ==
            if |head| < 9 then Ok((GroupsValue(head + [last]), rest)) else Err(DeserializeError.OverlongAtom)
    ensures ReadLength(head, 0, 0) ==
            Err(if |head| < 10 then UnexpectedEndOfAtomStream else DeserializeError.OverlongAtom)
  {
    PowZero();
    hide Pow2, ReadLength, GroupsValue;
    GroupsRead(head, last, rest, 0, 0);
    GroupsEnd(head, 0, 0);
  }

  lemma {:induction false} GroupsRead(head: Bytes, last: Byte, rest: Bytes, group: nat, sum: nat)
    requires last < 128 && forall i :: 0 <= i < |head| ==> head[i] >= 128
    ensures ReadLength(head + ([last] + rest), group, sum) ==
            if group + |head| < 9 then Ok((sum + GroupsValue(head + [last]) * Pow2(7 * group), rest))
            else Err(DeserializeError.OverlongAtom)
    decreases |head|
  {
    hide Pow2;
    if head == [] {
      assert head + ([last] + rest) == [last] + rest && head + [last] == [last];
      assert ([last] + rest)[1..] == rest && [last][1..] == [];
    } else {
      var stream := head + ([last] + rest);
      assert stream[1..] == head[1..] + ([last] + rest) && (head + [last])[1..] == head[1..] + [last];
      var p := Pow2(7 * group);
      GroupsRead(head[1..], last, rest, group + 1, sum + head[0] % 128 * p);
      NextGroup(group);
      Distribute(head[0] % 128, GroupsValue(head[1..] + [last]), p);
    }
  }

  lemma NextGroup(group: nat)
    ensures Pow2(7 * (group + 1)) == 128 * Pow2(7 * group)
  {
    Pow2Sum(7, 7 * group);
    assert Pow2(7) == 128;
    assert 7 + 7 * group == 7 * (group + 1);
  }

  lemma Distribute(digit: nat, more: nat, p: nat)
    ensures (digit + 128 * more) * p == digit * p + more * (128 * p)
  {
  }

  lemma {:induction false} GroupsEnd(head: Bytes, group: nat, sum: nat)
    requires forall i :: 0 <= i < |head| ==> head[i] >= 128
    ensures ReadLength(head, group, sum) ==
            Err(if group + |head| < 10 || head == [] then UnexpectedEndOfAtomStream else DeserializeError.OverlongAtom)
    decreases |head|
  {
    hide Pow2;
    if head != [] {
      GroupsEnd(head[1..], group + 1, sum + head[0] % 128 * Pow2(7 * group));
    }
  }

  /** No sequence of bytes that the decoder reads as an atom is shorter than the one the encoder writes. */
  lemma ShortestForm(s: Bytes, bs: Bytes)
    requires ReadAtom(s) == Ok((Atom(bs), []))
    ensures |EncodeAtom(bs)| <= |s|
  {
    hide ReadLength, Varint, Pow2;
    if s[0] == 255 {
      var (len, rest) := ReadLength(s[1..], 0, 0).value;
      PowZero();
      ReadLengthBound(s[1..], 0, 0);
      VarintShortest(len, |s[1..]| - |rest|);
    }
  }

  lemma PowZero()
    ensures Pow2(0) == 1
  {
  }

  /**
   * How many bytes an atom takes: itself if it is one byte below 190, else one more, or one and the groups of its
   * length.
   */
  lemma AtomTakes(bs: Bytes)
    ensures |EncodeAtom(bs)| == 1 <==> bs == [] || (|bs| == 1 && bs[0] < 190)
    ensures |EncodeAtom(bs)| == |bs| <==> |bs| == 1 && bs[0] < 190
    ensures |bs| <= 64 && !(|bs| == 1 && bs[0] < 190) ==> |EncodeAtom(bs)| == 1 + |bs|
    ensures |bs| > 64 ==> |EncodeAtom(bs)| > 1 + |bs| && (|bs| < 128 ==> |EncodeAtom(bs)| == 2 + |bs|)
  {
  }

  /** Every form the decoder has, whether or not the encoder would write it. */
  lemma ReadAtomForms(head: Byte, bs: Bytes, rest: Bytes)
    ensures head < 190 ==> ReadAtom([head] + rest) == Ok((Atom([head]), rest))
    ensures 190 <= head < 255 && |bs| == head - 190 ==> ReadAtom([head] + (bs + rest)) == Ok((Atom(bs), rest))
    ensures 190 <= head < 255 && |bs| < head - 190 ==> ReadAtom([head] + bs) == Err(UnexpectedEndOfAtomStream)
    ensures |bs| < Pow2(63) ==> ReadAtom([255] + (Varint(|bs|) + (bs + rest))) == Ok((Atom(bs), rest))
    ensures ReadAtom([]) == Err(UnexpectedEndOfAtomStream)
  {
    hide ReadLength, Varint, ReadBody, Pow2;
    assert ([head] + rest)[1..] == rest;
    assert ([head] + (bs + rest))[1..] == bs + rest;
    assert ([head] + bs)[1..] == bs;
    ReadBodyOf(bs, rest);
    if 190 <= head < 255 && |bs| < head - 190 {
      BodyMissing(bs, head - 190);
    }
    if |bs| < Pow2(63) {
      var stream := [255] + (Varint(|bs|) + (bs + rest));
      assert stream[1..] == Varint(|bs|) + (bs + rest);
      ReadWholeLength(|bs|, bs + rest);
      ReadCounted(stream);
    }
  }

  lemma BodyMissing(stream: Bytes, len: nat)
    requires |stream| < len
    ensures ReadBody(stream, len) == Err(UnexpectedEndOfAtomStream)
  {
  }

  /** Bit `i` of a packed sequence is bit `i % 8`, counted from the least significant, of byte `i / 8`. */
  lemma {:induction false} UnpackBit(bs: Bytes, i: nat)
    requires i < 8 * |bs|
    ensures Unpack(bs)[i] == (bs[i / 8] / Pow2(i % 8) % 2 == 1)
    decreases |bs|
  {
    hide LsbBits, Pow2;
    if i < 8 {
      LsbBitAt(bs[0], 8, i);
    } else {
      UnpackBit(bs[1..], i - 8);
    }
  }

  lemma PackBit(bits: seq<bool>, i: nat)
    requires i < |bits|
    ensures bits[i] == (Pack(bits)[i / 8] / Pow2(i % 8) % 2 == 1)
  {
    hide Pack, Unpack, Pow2;
    UnpackOfPack(bits);
    UnpackBit(Pack(bits), i);
  }

  /** An encoding, given its atom stream and the byte that holds its shape. */
  lemma SmallEncoding(n: Noun, max: nat, atoms: Bytes, shape: Byte)
    requires EncodeAtoms(n) == atoms && |atoms| < max < USIZE_LIMIT && |atoms| < 190
    requires |StructureBits(n)| <= 8 && ByteOf(StructureBits(n)) == shape
    ensures Encode(n, max) == Ok([|atoms|] + atoms + [shape])
  {
    AppendAtomsFits([], n, max);
    EncodeShape(n, max);
    hide AppendAtoms, Encode, EncodeAtoms, StructureBits, LsbValue;
    var len := |atoms|;
    assert len / 256 == 0 && CompactBytes(0) == [];
    assert CompactBytes(len) == [len];
    assert EncodeAtom([len]) == [len];
  }

  /** The encodings of one small atom, of a pair of them, and of the two trees of three. */
  lemma SmallEncodings(x: Byte, y: Byte, z: Byte, max: nat)
    requires x < 190 && y < 190 && z < 190 && 4 <= max < USIZE_LIMIT
    ensures Encode(Atom([x]), max) == Ok([1, x, 0x00])
    ensures Encode(Cell(Atom([x]), Atom([y])), max) == Ok([2, x, y, 0x01])
    ensures Encode(Cell(Cell(Atom([x]), Atom([y])), Atom([z])), max) == Ok([3, x, y, z, 0x03])
    ensures Encode(Cell(Atom([x]), Cell(Atom([y]), Atom([z]))), max) == Ok([3, x, y, z, 0x05])
  {
    hide Encode;
    var a, b, c := Atom([x]), Atom([y]), Atom([z]);
    Shapes(a, b, c);
    SmallEncoding(a, max, [x], 0x00);
    SmallEncoding(Cell(a, b), max, [x, y], 0x01);
    SmallEncoding(Cell(Cell(a, b), c), max, [x, y, z], 0x03);
    SmallEncoding(Cell(a, Cell(b, c)), max, [x, y, z], 0x05);
    assert [1] + [x] + [0x00] == [1, x, 0x00] && [2] + [x, y] + [0x01] == [2, x, y, 0x01];
    assert [3] + [x, y, z] + [0x03] == [3, x, y, z, 0x03] && [3] + [x, y, z] + [0x05] == [3, x, y, z, 0x05];
  }

  lemma Shapes(a: Noun, b: Noun, c: Noun)
    requires a.Atom? && b.Atom? && c.Atom?
    ensures ByteOf(StructureBits(a)) == 0
    ensures |StructureBits(Cell(a, b))| <= 8 && ByteOf(StructureBits(Cell(a, b))) == 1
    ensures |StructureBits(Cell(Cell(a, b), c))| <= 8 && ByteOf(StructureBits(Cell(Cell(a, b), c))) == 3
    ensures |StructureBits(Cell(a, Cell(b, c)))| <= 8 && ByteOf(StructureBits(Cell(a, Cell(b, c)))) == 5
  {
    assert StructureBits(Cell(a, b)) == [true, false, false];
    assert StructureBits(Cell(Cell(a, b), c)) == [true, true, false, false, false];
    assert StructureBits(Cell(a, Cell(b, c))) == [true, false, true, false, false];
    assert LsbValue([]) == LsbValue([false]) == LsbValue([false, false]) == LsbValue([false, false, false]) == 0 by {
      assert [false][1..] == [] && [false, false][1..] == [false] && [false, false, false][1..] == [false, false];
    }
    assert LsbValue([true, false, false]) == 1 by {
      assert [true, false, false][1..] == [false, false];
    }
    assert LsbValue([true, true, false, false, false]) == 3 by {
      assert [true, true, false, false, false][1..] == [true, false, false, false];
      assert [true, false, false, false][1..] == [false, false, false];
    }
    assert LsbValue([true, false, true, false, false]) == 5 by {
      assert [true, false, true, false, false][1..] == [false, true, false, false];
      assert [false, true, false, false][1..] == [true, false, false];
    }
  }

  /** Bytes that the decoder reads as the atoms of a noun, from left to right and in any of the forms it has. */
  ghost predicate Spells(s: Bytes, n: Noun)
    decreases n
  {
    match n
    case Atom(_) => ReadAtom(s) == Ok((n, []))
    case Cell(l, r) => exists k: nat :: k <= |s| && Spells(s[..k], l) && Spells(s[k..], r)
  }

  lemma {:induction false} ReadLengthCut(s: Bytes, group: nat, sum: nat)
    requires ReadLength(s, group, sum).Ok?
    ensures var (len, rest) := ReadLength(s, group, sum).value;
            var k := |s| - |rest|;
            rest == s[k..] && ReadLength(s[..k], group, sum) == Ok((len, []))
    decreases |s|
  {
    var (len, rest) := ReadLength(s, group, sum).value;
    var k := |s| - |rest|;
    assert s[..k][1..] == s[1..][..k - 1];
    if s[0] >= 128 {
      ReadLengthCut(s[1..], group + 1, sum + s[0] % 128 * Pow2(7 * group));
    }
  }

  /** What is read as an atom is a piece of the stream, which is read so by itself. */
  lemma ReadAtomCut(s: Bytes)
    requires ReadAtom(s).Ok?
    ensures var (atom, rest) := ReadAtom(s).value;
            atom.Atom? && |rest| < |s| && rest == s[|s| - |rest|..] && Spells(s[..|s| - |rest|], atom)
  {
    var k := |s| - |ReadAtom(s).value.1|;
    if s[0] == 255 {
      CountedAtomCut(s);
    } else if s[0] >= 190 {
      hide ReadLength;
      var len := s[0] - 190;
      assert s[..k][1..] == s[1..][..len] && s[1..][..len][..len] == s[1..][..len];
      assert s[1..][..len][len..] == [];
    } else {
      assert s[..k][1..] == [];
    }
  }

  lemma CountedAtomCut(s: Bytes)
    requires ReadAtom(s).Ok? && s[0] == 255
    ensures var (atom, rest) := ReadAtom(s).value;
            atom.Atom? && |rest| < |s| && rest == s[|s| - |rest|..] && ReadAtom(s[..|s| - |rest|]) == Ok((atom, []))
  {
    ReadLengthCut(s[1..], 0, 0);
    var (len, body) := ReadLength(s[1..], 0, 0).value;
    hide ReadLength;
    var head := |s| - |body|;
    assert s[1..][..head - 1] == s[1..head] && body == s[head..];
    ReadCutLength(s[1..head], body[..len], len);
    var cut := s[..head + len];
    CutInTwo(s, head, len);
    ReadCounted(cut);
    ReadBodyOf(body[..len], []);
    assert body[..len] + [] == body[..len] && s[head + len..] == body[len..];
  }

  lemma CutInTwo(s: Bytes, head: nat, len: nat)
    requires 1 <= head && head + len <= |s|
    ensures s[..head + len][1..] == s[1..head] + s[head..][..len]
  {
  }

  lemma ReadCutLength(head: Bytes, body: Bytes, len: nat)
    requires ReadLength(head, 0, 0) == Ok((len, []))
    ensures ReadLength(head + body, 0, 0) == Ok((len, body))
  {
    ReadLengthLocal(head, 0, 0, body);
    assert [] + body == body;
  }

  lemma {:induction false} ReadNounCut(s: Bytes, bits: seq<bool>)
    requires ReadNoun(s, bits).Ok?
    ensures var (n, rest, _) := ReadNoun(s, bits).value;
            |rest| <= |s| && rest == s[|s| - |rest|..] && Spells(s[..|s| - |rest|], n)
    decreases |bits|
  {
    hide ReadAtom;
    if bits[0] {
      var (l, rest, bits') := ReadNoun(s, bits[1..]).value;
      ReadNounCut(s, bits[1..]);
      ReadNounCut(rest, bits');
      var rest' := ReadNoun(rest, bits').value.1;
      var k, k' := |s| - |rest|, |s| - |rest'|;
      assert s[..k'][..k] == s[..k] && s[..k'][k..] == rest[..|rest| - |rest'|];
    } else {
      ReadAtomCut(s);
    }
  }

  lemma {:induction false} SpelledRead(s: Bytes, n: Noun, rest: Bytes, bits: seq<bool>)
    requires Spells(s, n)
    ensures ReadNoun(s + rest, StructureBits(n) + bits) == Ok((n, rest, bits))
    decreases n
  {
    hide ReadAtom, ReadNoun;
    match n
    case Atom(bs) =>
      SpelledAtom(s, bs, rest);
      ReadOneAtom(s + rest, [false] + bits);
      assert ([false] + bits)[1..] == bits;
    case Cell(l, r) =>
      var k: nat :| k <= |s| && Spells(s[..k], l) && Spells(s[k..], r);
      SpelledRead(s[..k], l, s[k..] + rest, StructureBits(r) + bits);
      SpelledRead(s[k..], r, rest, bits);
      SpelledCell(s, k, l, r, rest, bits);
  }

  lemma SpelledCell(s: Bytes, k: nat, l: Noun, r: Noun, rest: Bytes, bits: seq<bool>)
    requires k <= |s|
    requires ReadNoun(s[..k] + (s[k..] + rest), StructureBits(l) + (StructureBits(r) + bits)) ==
             Ok((l, s[k..] + rest, StructureBits(r) + bits))
    requires ReadNoun(s[k..] + rest, StructureBits(r) + bits) == Ok((r, rest, bits))
    ensures ReadNoun(s + rest, StructureBits(Cell(l, r)) + bits) == Ok((Cell(l, r), rest, bits))
  {
    hide ReadNoun, StructureBits;
    assert s + rest == s[..k] + (s[k..] + rest);
    var bits' := StructureBits(l) + (StructureBits(r) + bits);
    ShapeOfCell(l, r, bits);
    assert ([true] + bits')[1..] == bits';
    ReadOneCell(s + rest, [true] + bits');
  }

  lemma ShapeOfCell(l: Noun, r: Noun, bits: seq<bool>)
    ensures StructureBits(Cell(l, r)) + bits == [true] + (StructureBits(l) + (StructureBits(r) + bits))
  {
    Regroup([true], StructureBits(l), StructureBits(r), bits);
  }

  /**
   * An encoding of a noun, by where its parts end: the length of the atoms as an atom, the atoms, and the shape in bits
   * with less than a byte of anything after it.
   */
  ghost predicate Framed(buf: Bytes, i: nat, j: nat, n: Noun) {
    i <= j <= |buf| &&
    (exists len: Bytes :: Spells(buf[..i], Atom(len)) && LeValue(len) == j - i < 0x1_0000_0000_0000_0000) &&
    Spells(buf[i..j], n) &&
    var bits := Unpack(buf[j..]);
    |StructureBits(n)| <= |bits| < |StructureBits(n)| + 8 && bits[..|StructureBits(n)|] == StructureBits(n)
  }

  /** The decoder accepts exactly the encodings of nouns, in any form that each of their atoms has. */
  lemma DecodesIff(buf: Bytes, n: Noun)
    ensures Decode(buf) == Ok(n) <==> exists i: nat, j: nat :: Framed(buf, i, j, n)
  {
    hide Unpack;
    if Decode(buf) == Ok(n) {
      DecodedFramed(buf, n);
    }
    forall i: nat, j: nat | Framed(buf, i, j, n)
      ensures Decode(buf) == Ok(n)
    {
      FramedDecodes(buf, i, j, n);
    }
  }

  /** How the decoder refuses bytes that begin with an atom for the length. */
  lemma Refusals(head: Bytes, len: Bytes, rest: Bytes)
    requires Spells(head, Atom(len))
    ensures LeValue(len) > |rest| || LeValue(len) >= 0x1_0000_0000_0000_0000 ==>
              Decode(head + rest) == Err(InvalidAtomStreamLength)
    ensures LeValue(len) == |rest| < 0x1_0000_0000_0000_0000 ==>
              Decode(head + rest) == Err(UnexpectedEndOfStructureStream)
  {
    hide Spells, ReadAtom, LeValue;
    SpelledAtom(head, len, rest);
  }

  lemma DecodedFramed(buf: Bytes, n: Noun)
    requires Decode(buf) == Ok(n)
    ensures exists i: nat, j: nat :: Framed(buf, i, j, n)
  {
    hide ReadAtom, ReadNoun, Unpack, Spells;
    ReadAtomCut(buf);
    var (prefix, rest) := ReadAtom(buf).value;
    var i := |buf| - |rest|;
    var len := AsU64(prefix).value;
    var atoms, structure := rest[..len], rest[len..];
    var j := i + len;
    CutInThree(buf, i, j);
    ReadNounCut(atoms, Unpack(structure));
    assert atoms[..|atoms|] == atoms;
    ReadNounLocal(atoms, Unpack(structure), [], []);
    assert Framed(buf, i, j, n);
  }

  lemma FramedDecodes(buf: Bytes, i: nat, j: nat, n: Noun)
    requires Framed(buf, i, j, n)
    ensures Decode(buf) == Ok(n)
  {
    hide StructureBits, Unpack, Spells;
    FramedStreamsDecode(buf[i..j], buf[j..], n);
    hide DecodeStreams;
    var len: Bytes :| Spells(buf[..i], Atom(len)) && LeValue(len) == j - i < 0x1_0000_0000_0000_0000;
    SpelledAtom(buf[..i], len, buf[i..]);
    CutInThree(buf, i, j);
    hide ReadAtom, LeValue;
  }

  lemma FramedStreamsDecode(atoms: Bytes, structure: Bytes, n: Noun)
    requires Spells(atoms, n)
    requires var bits := Unpack(structure);
             |StructureBits(n)| <= |bits| < |StructureBits(n)| + 8 && bits[..|StructureBits(n)|] == StructureBits(n)
    ensures DecodeStreams(atoms, structure) == Ok(n)
  {
    hide ReadNoun, Unpack, StructureBits, Spells;
    var bits := Unpack(structure);
    var shape := |StructureBits(n)|;
    SpelledRead(atoms, n, [], bits[shape..]);
    assert atoms + [] == atoms && bits == bits[..shape] + bits[shape..];
  }

  lemma CutInThree(buf: Bytes, i: nat, j: nat)
    requires i <= j <= |buf|
    ensures buf[..i] + buf[i..] == buf && buf[i..][..j - i] == buf[i..j] && buf[i..][j - i..] == buf[j..]
  {
  }

  lemma SpelledAtom(s: Bytes, bs: Bytes, rest: Bytes)
    requires Spells(s, Atom(bs))
    ensures ReadAtom(s + rest) == Ok((Atom(bs), rest))
  {
    ReadAtomLocal(s, rest);
    assert [] + rest == rest;
  }
}
