/**
 * One encrypted stream with a neighbour (`src/stream.rs`): the identifiers and nonces of its packets, and the
 * window of incoming packets it keeps in step with the table of expected packets.
 *
 * Cryptography is arbitrary: a key exchange, the public half of a seed, and the identifiers that a stream's
 * key, direction and packet number determine. Packet numbers are unbounded here; the program's are 64-bit.
 */
module Streams {
  import opened Basics
  import opened Masks
  import opened Windows
  import opened ExpectedPackets

  datatype Cipher = Cipher(
    publicOf: Bytes -> Bytes,
    exchange: (Bytes, Bytes) -> Bytes,
    identifier: (Bytes, bool, nat) -> nat)

  /** A payload sealed under a key and a nonce. It opens only under the same two. */
  datatype Sealed = Sealed(key: Bytes, nonce: nat, payload: Bytes)

  const BATCH: nat := 8

  type Batch = ids: seq<nat> | |ids| == BATCH witness [0, 0, 0, 0, 0, 0, 0, 0]

  datatype StreamState = StreamState(
    key: Bytes,
    neighborIsLater: bool,
    outgoingIdentifiers: Batch,
    outgoingIndex: nat,
    window: Window)

  datatype Direction = Incoming | Outgoing

  /** Which of the two identifier sequences of a key a direction uses. */
  function Sequence(direction: Direction, neighborIsLater: bool): bool {
    direction.Incoming? == neighborIsLater
  }

  function Identifier(c: Cipher, st: StreamState, direction: Direction, number: nat): nat {
    c.identifier(st.key, Sequence(direction, st.neighborIsLater), number)
  }

  function Identifiers(c: Cipher, st: StreamState, direction: Direction, first: nat, count: nat): (r: seq<nat>)
    ensures |r| == count
    ensures forall i: nat :: i < count ==> r[i] == Identifier(c, st, direction, first + i)
  {
    if count == 0 then []
    else Identifiers(c, st, direction, first, count - 1) + [Identifier(c, st, direction, first + count - 1)]
  }

  function OutgoingNonce(st: StreamState, index: nat): nat {
    2 * index + if st.neighborIsLater then 1 else 0
  }

  function IncomingNonce(st: StreamState, number: nat): nat {
    2 * number + if st.neighborIsLater then 0 else 1
  }

  /** A stream nothing has been sent or received on. */
  function NewStream(c: Cipher, seed: Bytes, material: Bytes, neighborIsLater: bool): StreamState {
    StreamState(c.exchange(material, seed), neighborIsLater, [0, 0, 0, 0, 0, 0, 0, 0], 0, FIRST_WINDOW)
  }

  /** Expect incoming packets `first`, `first + 1`, ... of a stream. */
  function ExpectFrom(c: Cipher, st: StreamState, who: Identity, t: Table, first: nat, count: nat): Table {
    if count == 0 then t
    else
      var number := first + count - 1;
      Added(ExpectFrom(c, st, who, t, first, count - 1), ExpectedPacket(who, st.key, number),
            Identifier(c, st, Incoming, number))
  }

  /** `Stream::maybe_new`: a stream needs both a seed and key material; its first packets are expected at once. */
  function MaybeStream(c: Cipher, seed: Option<Bytes>, material: Option<Bytes>, later: bool): Option<StreamState> {
    if seed.None? || material.None? then None else Some(NewStream(c, seed.value, material.value, later))
  }

  function ExpectFirst(c: Cipher, st: Option<StreamState>, who: Identity, t: Table): Table {
    if st.None? then t else ExpectFrom(c, st.value, who, t, 0, WINDOW)
  }

  function ForgetFrom(c: Cipher, st: StreamState, who: Identity, t: Table, first: nat, count: nat): Table {
    if count == 0 then t
    else
      var number := first + count - 1;
      Removed(ForgetFrom(c, st, who, t, first, count - 1), ExpectedPacket(who, st.key, number),
              Identifier(c, st, Incoming, number))
  }

  /** `Stream::got_incoming_packet`, or nothing where it panics. */
  function GotIncoming(c: Cipher, st: StreamState, p: ExpectedPacket, t: Table): Option<(StreamState, Table)> {
    var w := st.window;
    if p.packetNumber < w.start then Some((st, t))
    else if p.packetNumber - w.start >= WINDOW then None
    else
      var mask := Marked(w, p.packetNumber);
      if Moves(mask) then
        var added := ExpectFrom(c, st, p.streamWith, t, w.start + WINDOW, STRIDE);
        var pruned := if mask == 0 then added else ForgetFrom(c, st, p.streamWith, added, w.start, STRIDE);
        Some((st.(window := Received(w, p.packetNumber)), pruned))
      else Some((st.(window := Received(w, p.packetNumber)), t))
  }

  /** `produce_outgoing_identifier`: the identifier and nonce of the next packet; identifiers come eight at a time. */
  function Produced(c: Cipher, st: StreamState): (nat, nat, StreamState)
  {
    var ids := if st.outgoingIndex % BATCH == 0 then Identifiers(c, st, Outgoing, st.outgoingIndex, BATCH)
               else st.outgoingIdentifiers;
    (ids[st.outgoingIndex % BATCH], OutgoingNonce(st, st.outgoingIndex),
     st.(outgoingIdentifiers := ids, outgoingIndex := st.outgoingIndex + 1))
  }

  /** The cached batch, while it is in use, holds the identifiers of its packets. */
  predicate Cached(c: Cipher, st: StreamState) {
    st.outgoingIndex % BATCH != 0 ==>
      (forall i: nat :: i < BATCH ==>
        st.outgoingIdentifiers[i] == Identifier(c, st, Outgoing, st.outgoingIndex - st.outgoingIndex % BATCH + i))
  }

  /** The identifier produced is always the one of the packet's own number, cached or not. */
  lemma ProducedIdentifier(c: Cipher, st: StreamState)
    requires Cached(c, st)
    ensures var (id, nonce, st') := Produced(c, st);
            id == Identifier(c, st, Outgoing, st.outgoingIndex) && nonce == OutgoingNonce(st, st.outgoingIndex) &&
            st' == st.(outgoingIdentifiers := st'.outgoingIdentifiers, outgoingIndex := st.outgoingIndex + 1) &&
            Cached(c, st')
  {
    var i := st.outgoingIndex;
    var base := i - i % BATCH;
    var st' := Produced(c, st).2;
    assert base + i % BATCH == i;
    if (i + 1) % BATCH != 0 {
      assert i + 1 - (i + 1) % BATCH == base;
      forall k: nat | k < BATCH
        ensures st'.outgoingIdentifiers[k] == Identifier(c, st', Outgoing, base + k)
      {
      }
    }
  }

  /** `decrypt_incoming_payload`. */
  function OpenIncoming(st: StreamState, number: nat, sealed: Sealed): Option<Bytes> {
    if sealed.key == st.key && sealed.nonce == IncomingNonce(st, number) then Some(sealed.payload) else None
  }

  /** The two ends of a stream: the same key, and opposite opinions on who is later. */
  predicate Ends(a: StreamState, b: StreamState) {
    a.key == b.key && a.neighborIsLater != b.neighborIsLater
  }

  /** What one end uses for outgoing packet `i` is what the other expects of incoming packet `i`. */
  lemma EndsAgree(c: Cipher, a: StreamState, b: StreamState, i: nat)
    requires Ends(a, b)
    ensures Identifier(c, a, Outgoing, i) == Identifier(c, b, Incoming, i)
    ensures OutgoingNonce(a, i) == IncomingNonce(b, i)
  {
  }

  /** No nonce is used twice under a key: not in one direction, nor across the two; and all fit 64 bits. */
  lemma NoncesDistinct(a: StreamState, b: StreamState, i: nat, j: nat)
    requires Ends(a, b)
    ensures OutgoingNonce(a, i) != OutgoingNonce(b, j)
    ensures OutgoingNonce(a, i) == OutgoingNonce(a, j) <==> i == j
    ensures OutgoingNonce(a, i) < USIZE_LIMIT <==> i < TOP_NUMBER
  {
  }

  const TOP_NUMBER: nat := 0x8000_0000_0000_0000

  /** A stream's key, and whom it is shared with. */
  type Channel = (Identity, Bytes)

  function ChannelOf(p: ExpectedPacket): Channel {
    (p.streamWith, p.streamKey)
  }

  /** A stream awaits this entry: the packet's number is in its window, and the identifier is that packet's. */
  predicate Awaited(c: Cipher, st: StreamState, who: Identity, p: ExpectedPacket, id: nat) {
    p.streamWith == who && Awaits(st.window, p.packetNumber) && id == Identifier(c, st, Incoming, p.packetNumber)
  }

  /**
   * The table's entries for a stream are exactly the packets its window awaits, each once, under its own
   * identifier.
   */
  ghost predicate Exact(c: Cipher, st: StreamState, who: Identity, t: Table) {
    Valid(st.window) &&
    forall p: ExpectedPacket, id: nat {:trigger Count(t, p, id)} :: ChannelOf(p) == (who, st.key) ==>
      Count(t, p, id) == if Awaited(c, st, who, p, id) then 1 else 0
  }

  ghost predicate Unmentioned(t: Table, ch: Channel) {
    forall p: ExpectedPacket, id: nat {:trigger Count(t, p, id)} :: ChannelOf(p) == ch ==> Count(t, p, id) == 0
  }

  /** Two tables agree on every entry that is not for a channel. */
  ghost predicate SameElsewhere(t: Table, t': Table, ch: Channel) {
    forall p: ExpectedPacket, id: nat {:trigger Count(t', p, id)} :: ChannelOf(p) != ch ==>
      Count(t', p, id) == Count(t, p, id)
  }

  /** An entry is the one for a packet of the range. */
  predicate InRange(c: Cipher, st: StreamState, who: Identity, p: ExpectedPacket, id: nat, first: nat, count: nat) {
    p.streamKey == st.key && p.streamWith == who && first <= p.packetNumber < first + count &&
    id == Identifier(c, st, Incoming, p.packetNumber)
  }

  lemma {:induction false} ExpectFromCount(c: Cipher, st: StreamState, who: Identity, t: Table, first: nat,
                                           count: nat, p: ExpectedPacket, id: nat)
    ensures Count(ExpectFrom(c, st, who, t, first, count), p, id) ==
            Count(t, p, id) + if InRange(c, st, who, p, id, first, count) then 1 else 0
  {
    hide Count, Added, Removed, Identifier;
    if count > 0 {
      var number := first + count - 1;
      ExpectFromCount(c, st, who, t, first, count - 1, p, id);
      AddedCount(ExpectFrom(c, st, who, t, first, count - 1), ExpectedPacket(who, st.key, number),
                 Identifier(c, st, Incoming, number), p, id);
    }
  }

  lemma {:induction false} ForgetFromCount(c: Cipher, st: StreamState, who: Identity, t: Table, first: nat,
                                           count: nat, p: ExpectedPacket, id: nat)
    ensures Count(ForgetFrom(c, st, who, t, first, count), p, id) ==
            if InRange(c, st, who, p, id, first, count) && Count(t, p, id) > 0 then Count(t, p, id) - 1
            else Count(t, p, id)
  {
    hide Count, Added, Removed, Identifier;
    if count > 0 {
      var number := first + count - 1;
      ForgetFromCount(c, st, who, t, first, count - 1, p, id);
      RemovedCount(ForgetFrom(c, st, who, t, first, count - 1), ExpectedPacket(who, st.key, number),
                   Identifier(c, st, Incoming, number), p, id);
    }
  }

  /** A new stream's packets, added to a table that knows nothing of its key, are exactly its window. */
  lemma NewStreamExact(c: Cipher, st: StreamState, who: Identity, t: Table)
    requires st.window == FIRST_WINDOW && Unmentioned(t, (who, st.key))
    ensures Exact(c, st, who, ExpectFrom(c, st, who, t, 0, WINDOW))
    ensures SameElsewhere(t, ExpectFrom(c, st, who, t, 0, WINDOW), (who, st.key))
  {
    var t' := ExpectFrom(c, st, who, t, 0, WINDOW);
    forall p: ExpectedPacket, id: nat
      ensures Count(t', p, id) == Count(t, p, id) + if InRange(c, st, who, p, id, 0, WINDOW) then 1 else 0
    {
      ExpectFromCount(c, st, who, t, 0, WINDOW, p, id);
    }
    forall m: nat | m < WINDOW
      ensures Awaits(FIRST_WINDOW, m)
    {
      FullMaskBits(m);
    }
  }

  /** Receiving an expected packet and then removing its entry keeps the table and the window exactly in step. */
  lemma GotIncomingExact(c: Cipher, st: StreamState, who: Identity, p: ExpectedPacket, id: nat, t: Table)
    requires Exact(c, st, who, t) && ChannelOf(p) == (who, st.key) && Count(t, p, id) > 0
    ensures Awaits(st.window, p.packetNumber) && GotIncoming(c, st, p, t).Some?
    ensures var (st', t') := GotIncoming(c, st, p, t).value;
            st' == st.(window := Received(st.window, p.packetNumber)) &&
            Exact(c, st', who, Removed(t', p, id)) && SameElsewhere(t, Removed(t', p, id), (who, st.key))
  {
    var (st', t') := GotIncoming(c, st, p, t).value;
    ReceivedAwaits(st.window, p.packetNumber, p.packetNumber);
    forall q: ExpectedPacket, j: nat
      ensures ChannelOf(q) != (who, st.key) ==> Count(Removed(t', p, id), q, j) == Count(t, q, j)
      ensures ChannelOf(q) == (who, st.key) ==>
        Count(Removed(t', p, id), q, j) == if Awaited(c, st', who, q, j) then 1 else 0
    {
      GotIncomingEntry(c, st, who, p, id, t, q, j);
    }
  }

  lemma GotIncomingEntry(c: Cipher, st: StreamState, who: Identity, p: ExpectedPacket, id: nat, t: Table,
                         q: ExpectedPacket, j: nat)
    requires Exact(c, st, who, t) && ChannelOf(p) == (who, st.key) && Count(t, p, id) > 0
    ensures Awaits(st.window, p.packetNumber)
    ensures var (st', t') := GotIncoming(c, st, p, t).value;
            Count(Removed(t', p, id), q, j) ==
              if ChannelOf(q) != (who, st.key) then Count(t, q, j)
              else if Awaited(c, st', who, q, j) then 1 else 0
  {
    hide Count, Added, Removed, Awaits, Moves, Marked, Received;
    var w := st.window;
    assert Awaited(c, st, who, p, id);
    AwaitsRange(w, p.packetNumber);
    var mask := Marked(w, p.packetNumber);
    var (st', t') := GotIncoming(c, st, p, t).value;
    ReceivedAwaits(w, p.packetNumber, q.packetNumber);
    AwaitsRange(w, q.packetNumber);
    RemovedCount(t', p, id, q, j);
    if Moves(mask) {
      var added := ExpectFrom(c, st, who, t, w.start + WINDOW, STRIDE);
      ExpectFromCount(c, st, who, t, w.start + WINDOW, STRIDE, q, j);
      if mask != 0 {
        ForgetFromCount(c, st, who, added, w.start, STRIDE, q, j);
      } else {
        EmptyMaskAwaits(w, p.packetNumber, q.packetNumber);
      }
    }
  }

  lemma AwaitsRange(w: Window, m: nat)
    ensures Awaits(w, m) ==> w.start <= m < w.start + WINDOW
  {
  }

  /** When the mask is empty, nothing but the packet just received was awaited. */
  lemma EmptyMaskAwaits(w: Window, n: nat, m: nat)
    requires Valid(w) && Awaits(w, n) && Marked(w, n) == 0
    ensures Awaits(w, m) <==> m == n
  {
    EmptyMask(Marked(w, n));
    if w.start <= m < w.start + WINDOW {
      ClearBitBits(w.mask, n - w.start, m - w.start);
    }
  }

  /** Identifiers depend on a stream's key and direction, not on its counters. */
  lemma {:induction false} RangesIgnoreCounters(c: Cipher, st: StreamState, st': StreamState, who: Identity, t: Table,
                                                first: nat, count: nat)
    requires st.key == st'.key && st.neighborIsLater == st'.neighborIsLater
    ensures ExpectFrom(c, st, who, t, first, count) == ExpectFrom(c, st', who, t, first, count)
    ensures ForgetFrom(c, st, who, t, first, count) == ForgetFrom(c, st', who, t, first, count)
  {
    if count > 0 {
      RangesIgnoreCounters(c, st, st', who, t, first, count - 1);
    }
  }

  ghost function Held(stream: Stream?): Option<StreamState>
    reads stream
  {
    if stream == null then None else Some(stream.Value())
  }

  class Stream {
    var key: Bytes
    var neighborIsLater: bool
    var outgoingMessageIdentifiers: Batch
    var outgoingMessageIndex: nat
    var incomingMessageMaskStart: nat
    var incomingMessageMask: nat

    ghost function Value(): StreamState
      reads this
    {
      StreamState(key, neighborIsLater, outgoingMessageIdentifiers, outgoingMessageIndex,
                  Window(incomingMessageMaskStart, incomingMessageMask))
    }

    constructor (streamKey: Bytes, later: bool)
      ensures Value() == StreamState(streamKey, later, [0, 0, 0, 0, 0, 0, 0, 0], 0, FIRST_WINDOW)
    {
      key, neighborIsLater := streamKey, later;
      outgoingMessageIdentifiers, outgoingMessageIndex := [0, 0, 0, 0, 0, 0, 0, 0], 0;
      incomingMessageMaskStart, incomingMessageMask := 0, FULL_MASK;
    }

    static method MaybeNew(c: Cipher, ownSeed: Option<Bytes>, material: Option<Bytes>, streamWith: Identity,
                           later: bool,
                           upcoming: ExpectedPacketSet) returns (r: Stream?)
      modifies upcoming
      ensures r != null ==> fresh(r)
      ensures Held(r) == MaybeStream(c, ownSeed, material, later)
      ensures upcoming.inner == ExpectFirst(c, Held(r), streamWith, old(upcoming.inner))
    {
      if ownSeed.None? || material.None? {
        return null;
      }
      var stream := new Stream(c.exchange(material.value, ownSeed.value), later);
      stream.AddExpected(c, streamWith, 0, WINDOW, upcoming);
      r := stream;
    }

    method GenerateIdentifiers(c: Cipher, direction: Direction, first: nat, identifiers: array<nat>)
      modifies identifiers
      ensures identifiers[..] == Identifiers(c, Value(), direction, first, identifiers.Length)
    {
      for i := 0 to identifiers.Length
        invariant identifiers[..i] == Identifiers(c, Value(), direction, first, i)
      {
        identifiers[i] := c.identifier(key, Sequence(direction, neighborIsLater), first + i);
        assert identifiers[..i + 1] == identifiers[..i] + [identifiers[i]];
      }
      assert identifiers[..identifiers.Length] == identifiers[..];
    }

    /** The loop that expects `count` packets from `first` on. */
    method AddExpected(c: Cipher, streamWith: Identity, first: nat, count: nat, upcoming: ExpectedPacketSet)
      modifies upcoming
      ensures upcoming.inner == ExpectFrom(c, Value(), streamWith, old(upcoming.inner), first, count)
    {
      var identifiers := new nat[count];
      GenerateIdentifiers(c, Incoming, first, identifiers);
      for i := 0 to count
        invariant identifiers[..] == Identifiers(c, Value(), Incoming, first, count)
        invariant upcoming.inner == ExpectFrom(c, Value(), streamWith, old(upcoming.inner), first, i)
      {
        assert identifiers[i] == identifiers[..][i];
        upcoming.Add(ExpectedPacket(streamWith, key, first + i), identifiers[i]);
      }
    }

    /** The loop that forgets `count` packets from `first` on. */
    method RemoveExpected(c: Cipher, streamWith: Identity, first: nat, count: nat, upcoming: ExpectedPacketSet)
      modifies upcoming
      ensures upcoming.inner == ForgetFrom(c, Value(), streamWith, old(upcoming.inner), first, count)
    {
      var identifiers := new nat[count];
      GenerateIdentifiers(c, Incoming, first, identifiers);
      for i := 0 to count
        invariant identifiers[..] == Identifiers(c, Value(), Incoming, first, count)
        invariant upcoming.inner == ForgetFrom(c, Value(), streamWith, old(upcoming.inner), first, i)
      {
        assert identifiers[i] == identifiers[..][i];
        upcoming.Remove(ExpectedPacket(streamWith, key, first + i), identifiers[i]);
      }
    }

    method ProduceOutgoingIdentifier(c: Cipher) returns (identifier: nat, nonce: nat)
      modifies this
      ensures (identifier, nonce, Value()) == old(Produced(c, Value()))
    {
      if outgoingMessageIndex % BATCH == 0 {
        var batch := new nat[BATCH];
        GenerateIdentifiers(c, Outgoing, outgoingMessageIndex, batch);
        outgoingMessageIdentifiers := batch[..];
      }
      var index := outgoingMessageIndex;
      identifier := outgoingMessageIdentifiers[outgoingMessageIndex % BATCH];
      outgoingMessageIndex := outgoingMessageIndex + 1;
      nonce := index * 2 + if neighborIsLater then 1 else 0;
    }

    method DecryptIncomingPayload(packetNumber: nat, sealed: Sealed) returns (r: Option<Bytes>)
      ensures r == OpenIncoming(Value(), packetNumber, sealed)
    {
      var nonce := packetNumber * 2 + if neighborIsLater then 0 else 1;
      r := if sealed.key == key && sealed.nonce == nonce then Some(sealed.payload) else None;
    }

    /** The source panics when its packet is beyond the window, so it is only called with one that is not. */
    method GotIncomingPacket(c: Cipher, packet: ExpectedPacket, upcoming: ExpectedPacketSet)
      requires GotIncoming(c, Value(), packet, upcoming.inner).Some?
      modifies this, upcoming
      ensures (Value(), upcoming.inner) == old(GotIncoming(c, Value(), packet, upcoming.inner).value)
    {
      hide ExpectFrom, ForgetFrom, ClearBit, Slide;
      if packet.packetNumber < incomingMessageMaskStart {
        return;
      }
      incomingMessageMask := ClearBit(incomingMessageMask, packet.packetNumber - incomingMessageMaskStart);
      if incomingMessageMask % LOW_BYTE == 0 || incomingMessageMask / HIGH_SHIFT != HIGH_ONES {
        ghost var st := old(Value());
        RangesIgnoreCounters(c, st, Value(), packet.streamWith, upcoming.inner, st.window.start + WINDOW, STRIDE);
        AddExpected(c, packet.streamWith, incomingMessageMaskStart + WINDOW, STRIDE, upcoming);
        RangesIgnoreCounters(c, st, Value(), packet.streamWith, upcoming.inner, st.window.start, STRIDE);
        if incomingMessageMask != 0 {
          RemoveExpected(c, packet.streamWith, incomingMessageMaskStart, STRIDE, upcoming);
        }
        incomingMessageMask := Slide(incomingMessageMask);
        incomingMessageMaskStart := incomingMessageMaskStart + STRIDE;
      }
    }
  }
}
