/**
 * The layout of a content packet (`src/content_packet.rs`): identifier, blinded length, checksum, payload, filler.
 * The length field is the payload's length in words plus a random multiple of one more than the words there is
 * room for, so the decoder takes it modulo that.
 */
module ContentPackets {
  import opened Basics
  import opened Nouns

  const IDENTIFIER_LEN: nat := 8
  const LENGTH_END: nat := 12
  const PAYLOAD_START: nat := 28
  const CHECKSUM_LEN: nat := 16
  const U32_MAX: nat := U32_LIMIT - 1

  datatype PacketError = InternalError | InternalLimitExceeded

  datatype Parts = Parts(identifier: nat, payload: Bytes, checksum: Bytes)

  /** A number in a fixed count of bytes, least significant first. */
  function LeBytes(v: nat, count: nat): (r: Bytes)
    ensures |r| == count
  {
    if count == 0 then [] else [v % 256] + LeBytes(v / 256, count - 1)
  }

  lemma {:induction false} LeBytesValue(v: nat, count: nat)
    requires v < Pow256(count)
    ensures LeValue(LeBytes(v, count)) == v
  {
    if count > 0 {
      LeBytesValue(v / 256, count - 1);
      assert LeBytes(v, count)[1..] == LeBytes(v / 256, count - 1);
    }
  }

  function RemainingWords(packetLen: nat): nat
    requires packetLen >= PAYLOAD_START
  {
    (packetLen - PAYLOAD_START) / 4
  }

  /** Why a packet of some length cannot be decoded, if it cannot. */
  function Undecodable(packetLen: nat): Option<PacketError> {
    if packetLen < PAYLOAD_START then Some(InternalError)
    else if packetLen >= U32_LIMIT then Some(InternalLimitExceeded)
    else None
  }

  /** `decode`. */
  function Decode(packet: Bytes): Result<Parts, PacketError> {
    if Undecodable(|packet|).Some? then Err(Undecodable(|packet|).value)
    else
      var plus := LeValue(packet[IDENTIFIER_LEN..LENGTH_END]);
      var payloadBytes := plus % (1 + RemainingWords(|packet|)) * 4;
      Ok(Parts(LeValue(packet[..IDENTIFIER_LEN]), packet[PAYLOAD_START..PAYLOAD_START + payloadBytes],
               packet[LENGTH_END..PAYLOAD_START]))
  }

  /** Why a buffer cannot be prepared, if it cannot. */
  function Unprepared(bufferLen: nat, payloadLen: nat): Option<PacketError> {
    if PAYLOAD_START + payloadLen >= USIZE_LIMIT then Some(InternalLimitExceeded)
    else if bufferLen < PAYLOAD_START + payloadLen then Some(InternalError)
    else if payloadLen % 4 != 0 then Some(InternalError)
    else if payloadLen / 4 >= U32_LIMIT then Some(InternalLimitExceeded)
    else if bufferLen - PAYLOAD_START >= U32_LIMIT then Some(InternalLimitExceeded)
    else None
  }

  /** The random multiple is drawn below this. */
  function Multiples(bufferLen: nat, payloadLen: nat): nat
    requires Unprepared(bufferLen, payloadLen).None?
  {
    Range(payloadLen / 4, RemainingWords(bufferLen))
  }

  function Range(payloadWords: nat, remainingWords: nat): nat
    requires payloadWords <= U32_MAX
  {
    (U32_MAX - payloadWords) / (remainingWords + 1)
  }

  function Encoded(payloadWords: nat, extra: nat, remainingWords: nat): nat {
    payloadWords + extra * (remainingWords + 1)
  }

  function BlindedLength(bufferLen: nat, payloadLen: nat, extra: nat): nat
    requires bufferLen >= PAYLOAD_START
  {
    Encoded(payloadLen / 4, extra, RemainingWords(bufferLen))
  }

  /** The range drawn from is never empty, and no draw overflows the 32-bit field. */
  lemma BlindedLengthFits(bufferLen: nat, payloadLen: nat, extra: nat)
    requires Unprepared(bufferLen, payloadLen).None?
    ensures Multiples(bufferLen, payloadLen) >= 1
    ensures extra < Multiples(bufferLen, payloadLen) ==> BlindedLength(bufferLen, payloadLen, extra) <= U32_MAX
  {
    var room := U32_MAX - payloadLen / 4;
    var step := RemainingWords(bufferLen) + 1;
    assert step <= room;
    DivMod(room, room / step, room % step, step);
    if extra < room / step {
      MultiplyLe(extra, room / step, step);
    }
  }

  /** Taken modulo the room, a blinded length is the payload's. */
  lemma Unblinded(bufferLen: nat, payloadLen: nat, extra: nat)
    requires bufferLen >= PAYLOAD_START + payloadLen && payloadLen % 4 == 0
    ensures BlindedLength(bufferLen, payloadLen, extra) % (1 + RemainingWords(bufferLen)) * 4 == payloadLen
  {
    DivMod(BlindedLength(bufferLen, payloadLen, extra), extra, payloadLen / 4, RemainingWords(bufferLen) + 1);
  }

  function Zeros(count: nat): (r: Bytes)
    ensures |r| == count && forall b :: b in r ==> b == 0
  {
    if count == 0 then [] else Zeros(count - 1) + [0]
  }

  /** A packet: header, checksum, payload, filler. */
  function Laid(identifier: nat, blinded: nat, checksum: Bytes, payload: Bytes, filler: Bytes): Bytes {
    LeBytes(identifier, IDENTIFIER_LEN) + LeBytes(blinded, LENGTH_END - IDENTIFIER_LEN) + checksum + payload + filler
  }

  /**
   * Decoding what was prepared and filled in gives back the identifier, the checksum and the payload, for every
   * random choice, if and only if the whole packet's length fits 32 bits. Preparing checks only what follows the
   * header.
   */
  lemma DecodeOfPrepared(identifier: nat, checksum: Bytes, payload: Bytes, filler: Bytes, extra: nat)
    requires identifier < USIZE_LIMIT && |checksum| == CHECKSUM_LEN
    requires var total := PAYLOAD_START + |payload| + |filler|;
             Unprepared(total, |payload|).None? && extra < Multiples(total, |payload|)
    ensures var total := PAYLOAD_START + |payload| + |filler|;
            var packet := Laid(identifier, BlindedLength(total, |payload|, extra), checksum, payload, filler);
            Decode(packet) ==
              if total < U32_LIMIT then Ok(Parts(identifier, payload, checksum)) else Err(InternalLimitExceeded)
  {
    var total := PAYLOAD_START + |payload| + |filler|;
    var blinded := BlindedLength(total, |payload|, extra);
    var packet := Laid(identifier, blinded, checksum, payload, filler);
    BlindedLengthFits(total, |payload|, extra);
    Unblinded(total, |payload|, extra);
    hide BlindedLength, Multiples;
    Widths();
    LeBytesValue(identifier, IDENTIFIER_LEN);
    LeBytesValue(blinded, LENGTH_END - IDENTIFIER_LEN);
    LaidSlices(identifier, blinded, checksum, payload, filler);
    hide LeBytes, Laid;
  }

  /** A packet byte by byte: identifier, blinded length in words, checksum, payload, filler, all little-endian. */
  lemma PacketLayout(identifier: nat, checksum: Bytes, payload: Bytes, filler: Bytes, extra: nat)
    requires identifier < USIZE_LIMIT && |checksum| == 16 && |payload| % 4 == 0
    requires var total := 28 + |payload| + |filler|;
             total - 28 < 0x1_0000_0000 && extra < (0xffff_ffff - |payload| / 4) / (1 + (total - 28) / 4)
    ensures var total := 28 + |payload| + |filler|;
            Unprepared(total, |payload|).None? && extra < Multiples(total, |payload|) &&
            var packet := Laid(identifier, BlindedLength(total, |payload|, extra), checksum, payload, filler);
            |packet| == total && LeValue(packet[..8]) == identifier &&
            LeValue(packet[8..12]) == |payload| / 4 + extra * (1 + (total - 28) / 4) &&
            packet[12..28] == checksum && packet[28..28 + |payload|] == payload && packet[28 + |payload|..] == filler
  {
    var total := 28 + |payload| + |filler|;
    var blinded := BlindedLength(total, |payload|, extra);
    BlindedLengthFits(total, |payload|, extra);
    Widths();
    LeBytesValue(identifier, 8);
    LeBytesValue(blinded, 4);
    hide LeBytes, LeValue;
    LaidSlices(identifier, blinded, checksum, payload, filler);
  }

  /**
   * What can be decoded, and to what: a payload of as many words as the length gives modulo one more than there are.
   */
  lemma DecodedIs(packet: Bytes)
    ensures |packet| < 28 ==> Decode(packet) == Err(InternalError)
    ensures |packet| >= 0x1_0000_0000 ==> Decode(packet) == Err(InternalLimitExceeded)
    ensures 28 <= |packet| < 0x1_0000_0000 ==>
              var words := LeValue(packet[8..12]) % (1 + (|packet| - 28) / 4);
              28 + 4 * words <= |packet| &&
              Decode(packet) == Ok(Parts(LeValue(packet[..8]), packet[28..28 + 4 * words], packet[12..28]))
  {
    if 28 <= |packet| < 0x1_0000_0000 {
      var plus := LeValue(packet[8..12]);
      hide LeValue;
      RemainderFits(plus, |packet| - 28);
    }
  }

  lemma RemainderFits(plus: nat, room: nat)
    ensures plus % (1 + room / 4) <= room / 4 && 4 * (plus % (1 + room / 4)) <= room
  {
    assert plus % (1 + room / 4) < 1 + room / 4;
  }

  /** Which buffers can be prepared, and the errors for the others, the first that applies. */
  lemma PreparedWhen(bufferLen: nat, payloadLen: nat)
    ensures Unprepared(bufferLen, payloadLen) ==
            if 28 + payloadLen >= 0x1_0000_0000_0000_0000 then Some(InternalLimitExceeded)
            else if bufferLen < 28 + payloadLen || payloadLen % 4 != 0 then Some(InternalError)
            else if bufferLen >= 28 + 0x1_0000_0000 then Some(InternalLimitExceeded)
            else None
  {
  }

  lemma LaidSlices(identifier: nat, blinded: nat, checksum: Bytes, payload: Bytes, filler: Bytes)
    requires |checksum| == CHECKSUM_LEN
    ensures var packet := Laid(identifier, blinded, checksum, payload, filler);
            packet[..IDENTIFIER_LEN] == LeBytes(identifier, IDENTIFIER_LEN) &&
            packet[IDENTIFIER_LEN..LENGTH_END] == LeBytes(blinded, LENGTH_END - IDENTIFIER_LEN) &&
            packet[LENGTH_END..PAYLOAD_START] == checksum &&
            packet[PAYLOAD_START..PAYLOAD_START + |payload|] == payload
  {
    hide LeBytes;
  }

  lemma Widths()
    ensures Pow256(8) == USIZE_LIMIT && Pow256(4) == U32_LIMIT
  {
    assert Pow256(2) == 0x1_0000;
    assert Pow256(4) == U32_LIMIT;
    Pow256Sum(4, 4);
  }

  /** Whatever bytes arrive, a decoded payload is whole words that lie within the packet. */
  lemma DecodedFits(packet: Bytes)
    ensures Decode(packet).Ok? <==> PAYLOAD_START <= |packet| < U32_LIMIT
    ensures Decode(packet).Ok? ==>
      var parts := Decode(packet).value;
      |parts.checksum| == CHECKSUM_LEN && |parts.payload| % 4 == 0 && PAYLOAD_START + |parts.payload| <= |packet|
  {
  }

  /** Copy bytes into a buffer. */
  method Write(buffer: array<Byte>, at: nat, bytes: Bytes)
    requires at + |bytes| <= buffer.Length
    modifies buffer
    ensures buffer[..] == old(buffer[..at]) + bytes + old(buffer[at + |bytes|..])
  {
    for i := 0 to |bytes|
      invariant buffer[..at] == old(buffer[..at])
      invariant buffer[at..at + i] == bytes[..i]
      invariant buffer[at + i..] == old(buffer[at + i..])
    {
      buffer[at + i] := bytes[i];
    }
    assert buffer[..] == buffer[..at] + buffer[at..at + |bytes|] + buffer[at + |bytes|..];
  }

  /** The buffer is zeroed, so that nothing left in it by mistake is sent. */
  method Blank(buffer: array<Byte>)
    modifies buffer
    ensures buffer[..] == Zeros(buffer.Length)
  {
    for i := 0 to buffer.Length
      invariant buffer[..i] == Zeros(i)
    {
      buffer[i] := 0;
      assert buffer[..i + 1] == buffer[..i] + [0];
    }
    assert buffer[..buffer.Length] == buffer[..];
  }

  /** Everything but the checksum and the payload. */
  method WriteHeader(buffer: array<Byte>, payloadLen: nat, identifier: nat, blinded: nat, filler: Bytes)
    requires buffer.Length == PAYLOAD_START + payloadLen + |filler| && buffer[..] == Zeros(buffer.Length)
    modifies buffer
    ensures buffer[..] == Laid(identifier, blinded, Zeros(CHECKSUM_LEN), Zeros(payloadLen), filler)
  {
    hide Zeros, LeBytes;
    var header, blindedBytes := LeBytes(identifier, IDENTIFIER_LEN), LeBytes(blinded, LENGTH_END - IDENTIFIER_LEN);
    ghost var rest := Zeros(buffer.Length)[LENGTH_END..];
    Write(buffer, 0, header);
    assert buffer[..] == header + Zeros(buffer.Length)[IDENTIFIER_LEN..];
    Write(buffer, IDENTIFIER_LEN, blindedBytes);
    assert buffer[..] == header + blindedBytes + rest;
    Write(buffer, PAYLOAD_START + payloadLen, filler);
    assert buffer[..] == header + blindedBytes + rest[..CHECKSUM_LEN + payloadLen] + filler;
    ZerosBetween(buffer.Length, payloadLen);
  }

  lemma ZerosBetween(total: nat, payloadLen: nat)
    requires total >= PAYLOAD_START + payloadLen
    ensures Zeros(total)[LENGTH_END..][..CHECKSUM_LEN + payloadLen] == Zeros(CHECKSUM_LEN) + Zeros(payloadLen)
  {
    hide Zeros;
    var length := CHECKSUM_LEN + payloadLen;
    ZerosSplit(LENGTH_END, total);
    ZerosSplit(length, total - LENGTH_END);
    ZerosSplit(CHECKSUM_LEN, length);
    Middle(Zeros(LENGTH_END), Zeros(length), Zeros(total - LENGTH_END - length));
  }

  lemma Middle(a: Bytes, b: Bytes, c: Bytes)
    ensures (a + (b + c))[|a|..][..|b|] == b
  {
    CutSum(a, b + c, |a|);
    CutSum(b, c, |b|);
    assert [] + (b + c) == b + c;
  }

  /**
   * `prepare`, with the randomness as parameters: any number, taken into the range, and filler for what is left.
   * The caller then writes the payload and its checksum over the zeros.
   */
  method Prepare(buffer: array<Byte>, payloadLen: nat, identifier: nat, random: nat,
                 filler: Bytes) returns (r: Option<PacketError>)
    requires buffer.Length >= PAYLOAD_START + payloadLen ==> |filler| == buffer.Length - PAYLOAD_START - payloadLen
    modifies buffer
    ensures r == Unprepared(buffer.Length, payloadLen)
    ensures r.None? ==>
      var extra := random % Multiples(buffer.Length, payloadLen);
      buffer[..] == Laid(identifier, BlindedLength(buffer.Length, payloadLen, extra), Zeros(CHECKSUM_LEN),
                         Zeros(payloadLen), filler)
    ensures r.Some? ==> buffer[..] == Zeros(buffer.Length)
  {
    Blank(buffer);
    hide Range, Encoded;
    r := Unprepared(buffer.Length, payloadLen);
    if r.Some? {
      return;
    }
    BlindedLengthFits(buffer.Length, payloadLen, 0);
    var payloadWords: nat := payloadLen / 4;
    var remainingWords: nat := (buffer.Length - PAYLOAD_START) / 4;
    var extra: nat := random % Range(payloadWords, remainingWords);
    var encodedLength := Encoded(payloadWords, extra, remainingWords);
    assert PAYLOAD_START + payloadLen <= buffer.Length;
    hide Unprepared;
    WriteHeader(buffer, payloadLen, identifier, encodedLength, filler);
  }

  lemma {:induction false} ZerosSplit(a: nat, b: nat)
    requires a <= b
    ensures Zeros(b) == Zeros(a) + Zeros(b - a)
    decreases b - a
  {
    if a < b {
      ZerosSplit(a, b - 1);
    }
  }
}
