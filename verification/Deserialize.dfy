/**
 * The noun decoder (`vm/src/deserialize.rs`). The `Read` functions say what each step of the decoder takes
 * from its two streams; the `Deserializer` class is shown to do that.
 */
module Deserialize {
  import opened Basics
  import opened Nouns
  import opened Bits

  datatype DeserializeError =
    | UnexpectedEndOfAtomStream
    | UnexpectedEndOfStructureStream
    | OverlongAtom
    | InvalidAtomStreamLength
    | UnexpectedContinuationOfStream

  type ReadResult<T> = Result<T, DeserializeError>

  /** A 64-bit length holds nine whole groups of seven bits. */
  const LENGTH_GROUPS: nat := 9

  /** Read the rest of a length, `group` groups of which have added up to `sum`. */
  function ReadLength(stream: Bytes, group: nat, sum: nat): (r: ReadResult<(nat, Bytes)>)
    ensures r.Ok? ==> |r.value.1| < |stream|
  {
    if stream == [] then Err(UnexpectedEndOfAtomStream)
    else if group >= LENGTH_GROUPS then Err(OverlongAtom)
    else
      var sum' := sum + stream[0] % 128 * Pow2(7 * group);
      if stream[0] < 128 then Ok((sum', stream[1..])) else ReadLength(stream[1..], group + 1, sum')
  }

  function ReadBody(stream: Bytes, len: nat): ReadResult<(Noun, Bytes)> {
    if |stream| < len then Err(UnexpectedEndOfAtomStream) else Ok((Atom(stream[..len]), stream[len..]))
  }

  function ReadAtom(stream: Bytes): ReadResult<(Noun, Bytes)> {
    if stream == [] then Err(UnexpectedEndOfAtomStream)
    else if stream[0] < 190 then Ok((FromU8(stream[0]), stream[1..]))
    else if stream[0] != 255 then ReadBody(stream[1..], stream[0] - 190)
    else
      match ReadLength(stream[1..], 0, 0)
      case Err(e) => Err(e)
      case Ok((len, rest)) => ReadBody(rest, len)
  }

  function ReadNoun(stream: Bytes, bits: seq<bool>): (r: ReadResult<(Noun, Bytes, seq<bool>)>)
    ensures r.Ok? ==> |r.value.2| < |bits|
    decreases |bits|
  {
    if bits == [] then Err(UnexpectedEndOfStructureStream)
    else if bits[0] then
      match ReadNoun(stream, bits[1..])
      case Err(e) => Err(e)
      case Ok((left, stream', bits')) =>
        match ReadNoun(stream', bits')
        case Err(e) => Err(e)
        case Ok((right, stream'', bits'')) => Ok((Cell(left, right), stream'', bits''))
    else
      match ReadAtom(stream)
      case Err(e) => Err(e)
      case Ok((atom, stream')) => Ok((atom, stream', bits[1..]))
  }

  function Decode(buf: Bytes): ReadResult<Noun> {
    match ReadAtom(buf)
    case Err(e) => Err(e)
    case Ok((prefix, rest)) =>
      match AsU64(prefix)
      case None => Err(InvalidAtomStreamLength)
      case Some(len) =>
        if len > |rest| then Err(InvalidAtomStreamLength)
        else DecodeStreams(rest[..len], rest[len..])
  }

  /** Decode one noun and insist that both streams end there, but for less than a byte of padding. */
  function DecodeStreams(atoms: Bytes, structure: Bytes): ReadResult<Noun> {
    match ReadNoun(atoms, Unpack(structure))
    case Err(e) => Err(e)
    case Ok((n, atoms', bits')) =>
      if |atoms'| > 0 || |bits'| >= 8 then Err(UnexpectedContinuationOfStream) else Ok(n)
  }

  class Deserializer {
    var atomBuffer: Bytes
    var structureBuffer: Bytes
    var structureBitPos: nat

    ghost predicate Valid()
      reads this
    {
      structureBitPos < 8 && (structureBuffer == [] ==> structureBitPos == 0)
    }

    /** The structure bits not yet consumed. */
    ghost function Bits(): seq<bool>
      requires Valid()
      reads this
    {
      Unpack(structureBuffer)[structureBitPos..]
    }

    constructor (atoms: Bytes, structure: Bytes)
      ensures Valid() && atomBuffer == atoms && Bits() == Unpack(structure)
    {
      atomBuffer := atoms;
      structureBuffer := structure;
      structureBitPos := 0;
    }

    method ConsumeByte() returns (r: ReadResult<Byte>)
      modifies `atomBuffer
      ensures old(atomBuffer) == [] ==> r == Err(UnexpectedEndOfAtomStream) && atomBuffer == []
      ensures old(atomBuffer) != [] ==> r == Ok(old(atomBuffer)[0]) && atomBuffer == old(atomBuffer)[1..]
    {
      if atomBuffer == [] {
        return Err(UnexpectedEndOfAtomStream);
      }
      r := Ok(atomBuffer[0]);
      atomBuffer := atomBuffer[1..];
    }

    method ConsumeStructureBit() returns (r: ReadResult<bool>)
      requires Valid()
      modifies `structureBuffer, `structureBitPos
      ensures Valid()
      ensures old(Bits()) == [] ==> r == Err(UnexpectedEndOfStructureStream) && Bits() == []
      ensures old(Bits()) != [] ==> r == Ok(old(Bits())[0]) && Bits() == old(Bits())[1..]
    {
      if |structureBuffer| == 0 {
        return Err(UnexpectedEndOfStructureStream);
      }
      LsbBitAt(structureBuffer[0], 8, structureBitPos);
      r := Ok(structureBuffer[0] / Pow2(structureBitPos) % 2 == 1);
      structureBitPos := structureBitPos + 1;
      if structureBitPos == 8 {
        structureBuffer := structureBuffer[1..];
        structureBitPos := 0;
      }
    }

    /**
     * The length loop. `sentinel` is seven one bits shifted along with the groups; once some of them fall
     * off the end of the word it no longer shifts back to its previous value.
     */
    method ConsumeLength() returns (r: ReadResult<nat>)
      modifies `atomBuffer
      ensures match ReadLength(old(atomBuffer), 0, 0)
              case Ok((len, rest)) => r == Ok(len) && atomBuffer == rest
              case Err(e) => r == Err(e)
    {
      var length: nat, shift: nat := 0, 0;
      var sentinel: nat, previous: nat := 127, 0;
      ghost var group := 0;
      while true
        invariant shift == 7 * group && group <= LENGTH_GROUPS
        invariant sentinel == 127 * Pow2(7 * group) % USIZE_LIMIT
        invariant previous == if group == 0 then 0 else 127 * Pow2(7 * group - 7) % USIZE_LIMIT
        invariant ReadLength(old(atomBuffer), 0, 0) == ReadLength(atomBuffer, group, length)
        decreases |atomBuffer|
      {
        var b := ConsumeByte();
        if b.Err? {
          return Err(b.error);
        }
        SentinelTells(group);
        SentinelShifts(group);
        if sentinel / 128 != previous {
          return Err(OverlongAtom);
        }
        length := length + b.value % 128 * Pow2(shift);
        if b.value < 128 {
          break;
        }
        shift := shift + 7;
        previous := sentinel;
        sentinel := sentinel * 128 % USIZE_LIMIT;
        group := group + 1;
      }
      r := Ok(length);
    }

    method DeserializeAtom() returns (r: ReadResult<Noun>)
      modifies `atomBuffer
      ensures match ReadAtom(old(atomBuffer))
              case Ok((n, rest)) => r == Ok(n) && atomBuffer == rest
              case Err(e) => r == Err(e)
    {
      var kind := ConsumeByte();
      if kind.Err? {
        return Err(kind.error);
      }
      if kind.value < 190 {
        return Ok(FromU8(kind.value));
      }
      var length: nat;
      if kind.value != 255 {
        length := kind.value - 190;
      } else {
        var consumed := ConsumeLength();
        if consumed.Err? {
          return Err(consumed.error);
        }
        length := consumed.value;
      }
      if |atomBuffer| < length {
        return Err(UnexpectedEndOfAtomStream);
      }
      r := Ok(Atom(atomBuffer[..length]));
      atomBuffer := atomBuffer[length..];
    }

    method DeserializeNoun() returns (r: ReadResult<Noun>)
      requires Valid()
      modifies this
      ensures Valid()
      ensures match ReadNoun(old(atomBuffer), old(Bits()))
              case Ok((n, rest, bits)) => r == Ok(n) && atomBuffer == rest && Bits() == bits
              case Err(e) => r == Err(e)
      decreases |Bits()|
    {
      var isCell := ConsumeStructureBit();
      if isCell.Err? {
        return Err(isCell.error);
      }
      if isCell.value {
        var left := DeserializeNoun();
        if left.Err? {
          return left;
        }
        var right := DeserializeNoun();
        if right.Err? {
          return right;
        }
        r := Ok(Cell(left.value, right.value));
      } else {
        r := DeserializeAtom();
      }
    }

    method CheckExhausted() returns (ok: bool)
      requires Valid()
      ensures ok <==> |atomBuffer| == 0 && |Bits()| < 8
    {
      ok := |atomBuffer| == 0 &&
            !(|structureBuffer| > 1 || (|structureBuffer| == 1 && structureBitPos == 0));
    }
  }

  /** Shifting the sentinel back finds its previous value exactly while no bit has been lost. */
  lemma SentinelTells(group: nat)
    requires group <= LENGTH_GROUPS
    ensures var sentinel := 127 * Pow2(7 * group) % USIZE_LIMIT;
            var previous := if group == 0 then 0 else 127 * Pow2(7 * group - 7) % USIZE_LIMIT;
            sentinel / 128 == previous <==> group < LENGTH_GROUPS
  {
    hide Pow2;
    Pow2SixtyThree();
    Pow2Seven();
    if group > 0 {
      Pow2Sum(7 * group - 7, 7);
      if group < LENGTH_GROUPS {
        Pow2Sum(7 * group, 7);
        Pow2Monotone(7 * group + 7, 63);
        SentinelDivides(Pow2(7 * group), Pow2(7 * group - 7));
      }
    } else {
      Pow2Zero();
    }
  }

  lemma Pow2Seven()
    ensures Pow2(7) == 128
  {
  }

  lemma Pow2Zero()
    ensures Pow2(0) == 1
  {
  }

  lemma SentinelDivides(power: nat, previous: nat)
    requires power == 128 * previous && 128 * power <= 0x8000_0000_0000_0000
    ensures 127 * power % USIZE_LIMIT / 128 == 127 * previous % USIZE_LIMIT
  {
    assert 127 * power < USIZE_LIMIT;
    assert 127 * power == 128 * (127 * previous);
  }

  lemma SentinelShifts(group: nat)
    ensures 127 * Pow2(7 * group) % USIZE_LIMIT * 128 % USIZE_LIMIT == 127 * Pow2(7 * group + 7) % USIZE_LIMIT
  {
    var bits := 127 * Pow2(7 * group);
    Pow2Sum(7 * group, 7);
    assert Pow2(7) == 128;
    assert bits == bits / USIZE_LIMIT * USIZE_LIMIT + bits % USIZE_LIMIT;
    ModShift(bits % USIZE_LIMIT * 128, bits / USIZE_LIMIT * 128, USIZE_LIMIT);
  }

  method DeserializeBytes(buf: Bytes) returns (r: ReadResult<Noun>)
    ensures r == Decode(buf)
  {
    var d := new Deserializer(buf, []);
    var prefix := d.DeserializeAtom();
    if prefix.Err? {
      return prefix;
    }
    var length := AsU64(prefix.value);
    if length == None {
      return Err(InvalidAtomStreamLength);
    }
    if length.value > |d.atomBuffer| {
      return Err(InvalidAtomStreamLength);
    }
    d := new Deserializer(d.atomBuffer[..length.value], d.atomBuffer[length.value..]);
    r := d.DeserializeNoun();
    if r.Err? {
      return;
    }
    var ok := d.CheckExhausted();
    if !ok {
      r := Err(UnexpectedContinuationOfStream);
    }
  }
}
