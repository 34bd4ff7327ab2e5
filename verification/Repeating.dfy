/**
 * A channel that is ready to accept a number again: its packet is listed, and its neighbour's newest stream has its
 * key. Delivering the packet that carries the number then makes the agent accept something every time, until it is the
 * channel's own number.
 */
module Repeating {
  import opened Basics
  import opened Masks
  import opened Windows
  import opened ExpectedPackets
  import opened Streams
  import opened Clusters
  import opened Agents
  import opened Exactness
  import opened Runs
  import opened Acceptance
  import opened Reopening

  /** The newest stream with a channel's neighbour is on the channel. */
  predicate Newest(ag: AgentState, ch: Channel) {
    Live(ag, ch.0, CC) && LiveStream(ag, ch.0, CC).key == ch.1 &&
    LiveStream(ag, ch.0, CC).neighborIsLater == (ch.0 > ag.identity)
  }

  ghost predicate EntriesKnown(ag: AgentState) {
    forall p: ExpectedPacket, id: nat {:trigger Count(ag.upcoming, p, id)} :: Count(ag.upcoming, p, id) > 0 ==>
      p.streamWith in ag.neighbors
  }

  /** No stream on a channel has heard anything. */
  predicate Unheard(streams: seq<Option<StreamState>>, key: Bytes) {
    forall i: nat :: i < |streams| && streams[i].Some? && streams[i].value.key == key ==>
      streams[i].value.window == FIRST_WINDOW
  }

  /** A number may be accepted on a channel this often: once, or if it is number 0 and nothing was heard, twice. */
  ghost predicate Ready(c: Cipher, ag: AgentState, ch: Channel, number: nat, times: nat) {
    Newest(ag, ch) && EntriesKnown(ag) && number < WINDOW && 1 <= times <= 2 &&
    Count(ag.upcoming, PacketOn(ch, number), IdentifierOn(c, ag.identity, ch, number)) >= times &&
    (times == 2 ==> number == 0 && Unheard(ag.neighbors[ch.0].streams.streams, ch.1))
  }

  function Delivery(c: Cipher, self: Identity, ch: Channel, number: nat, payload: Bytes): (e: Event)
    ensures Delivers(e)
  {
    Receive(Content(IdentifierOn(c, self, ch, number), Sealed(ch.1, NonceOn(self, ch, number), payload),
                    SEND_THRESHOLD), 0, [])
  }

  /** What a stream does with a packet changes no entry of anyone but the packet's neighbour. */
  lemma GotIncomingOthers(c: Cipher, st: StreamState, p: ExpectedPacket, t: Table, q: ExpectedPacket, id: nat)
    requires GotIncoming(c, st, p, t).Some? && q.streamWith != p.streamWith
    ensures Count(GotIncoming(c, st, p, t).value.1, q, id) == Count(t, q, id)
  {
    hide Count, Marked, Moves, Received;
    var w := st.window;
    if p.packetNumber >= w.start && Moves(Marked(w, p.packetNumber)) {
      var added := ExpectFrom(c, st, p.streamWith, t, w.start + WINDOW, STRIDE);
      ExpectFromCount(c, st, p.streamWith, t, w.start + WINDOW, STRIDE, q, id);
      ForgetFromCount(c, st, p.streamWith, added, w.start, STRIDE, q, id);
    }
  }

  lemma {:induction false} GotFromOthers(c: Cipher, streams: seq<Option<StreamState>>, p: ExpectedPacket, t: Table,
                                         i: nat, q: ExpectedPacket, id: nat)
    requires i <= |streams| && GotFrom(c, streams, p, t, i).Some? && q.streamWith != p.streamWith
    ensures Count(GotFrom(c, streams, p, t, i).value.1, q, id) == Count(t, q, id)
    decreases |streams| - i
  {
    if i < |streams| {
      if streams[i].Some? && streams[i].value.key == p.streamKey {
        var (st, t') := GotIncoming(c, streams[i].value, p, t).value;
        GotIncomingOthers(c, streams[i].value, p, t, q, id);
        hide Count, GotIncoming;
        GotFromOthers(c, streams[i := Some(st)], p, t', i + 1, q, id);
      } else {
        hide Count, GotIncoming;
        GotFromOthers(c, streams, p, t, i + 1, q, id);
      }
    }
  }

  predicate SameKeys(a: seq<Option<StreamState>>, b: seq<Option<StreamState>>) {
    |a| == |b| &&
    forall i: nat :: i < |a| ==>
      (a[i].Some? <==> b[i].Some?) &&
      (a[i].Some? ==> a[i].value.key == b[i].value.key && a[i].value.neighborIsLater == b[i].value.neighborIsLater)
  }

  lemma {:induction false} GotFromKeys(c: Cipher, streams: seq<Option<StreamState>>, p: ExpectedPacket, t: Table,
                                       i: nat)
    requires i <= |streams| && GotFrom(c, streams, p, t, i).Some?
    ensures SameKeys(streams, GotFrom(c, streams, p, t, i).value.0)
    decreases |streams| - i
  {
    if i < |streams| {
      if streams[i].Some? && streams[i].value.key == p.streamKey {
        var (st, t') := GotIncoming(c, streams[i].value, p, t).value;
        GotKeepsKey(c, streams[i].value, p, t);
        hide GotIncoming;
        GotFromKeys(c, streams[i := Some(st)], p, t', i + 1);
      } else {
        hide GotIncoming;
        GotFromKeys(c, streams, p, t, i + 1);
      }
    }
  }

  /** Number 0 does not move a window that has heard nothing. */
  lemma FirstNumberStays()
    ensures !Moves(Marked(FIRST_WINDOW, 0))
  {
    var mask := Marked(FIRST_WINDOW, 0);
    MovesWhen(mask);
    forall i: nat | 0 < i < 64
      ensures Bit(mask, i)
    {
      FullMaskBits(i);
      ClearBitBits(FULL_MASK, 0, i);
    }
    assert Bit(mask, 1);
  }

  /** So hearing it changes no table. */
  lemma {:induction false} FirstNumberHeard(c: Cipher, streams: seq<Option<StreamState>>, p: ExpectedPacket, t: Table,
                                            i: nat)
    requires i <= |streams| && p.packetNumber == 0
    requires forall k: nat :: i <= k < |streams| && streams[k].Some? && streams[k].value.key == p.streamKey ==>
      streams[k].value.window == FIRST_WINDOW
    ensures GotFrom(c, streams, p, t, i).Some? && GotFrom(c, streams, p, t, i).value.1 == t
    decreases |streams| - i
  {
    if i < |streams| {
      FirstNumberStays();
      hide Moves, Marked;
      if streams[i].Some? && streams[i].value.key == p.streamKey {
        var (st, t') := GotIncoming(c, streams[i].value, p, t).value;
        assert t' == t;
        FirstNumberHeard(c, streams[i := Some(st)], p, t, i + 1);
      } else {
        FirstNumberHeard(c, streams, p, t, i + 1);
      }
    }
  }

  /** What is found for a number of a channel is that number of the same key, with whichever neighbour. */
  lemma FoundNumber(c: Cipher, ag: AgentState, ch: Channel, number: nat, times: nat, payload: Bytes)
    requires Ready(c, ag, ch, number, times)
    ensures var f := Find(ag.neighbors, Listed(ag.upcoming, IdentifierOn(c, ag.identity, ch, number)),
                          Sealed(ch.1, NonceOn(ag.identity, ch, number), payload));
            f.Opened? && f.packet.streamKey == ch.1 && f.packet.packetNumber == number && f.payload == payload &&
            Count(ag.upcoming, f.packet, IdentifierOn(c, ag.identity, ch, number)) > 0
  {
    hide Count, IdentifierOn;
    var id := IdentifierOn(c, ag.identity, ch, number);
    var sealed := Sealed(ch.1, NonceOn(ag.identity, ch, number), payload);
    var list := Listed(ag.upcoming, id);
    var p := PacketOn(ch, number);
    ListedCounts(ag.upcoming, p, id);
    assert Opening(ag.neighbors, p, sealed) == Some(payload);
    forall q | q in list
      ensures q.streamWith in ag.neighbors
    {
      ListedCounts(ag.upcoming, q, id);
    }
    FindOpens(ag.neighbors, list, sealed, p);
    var q := Find(ag.neighbors, list, sealed).packet;
    ListedCounts(ag.upcoming, q, id);
    var k := OpenFromSome(ag.neighbors[q.streamWith].streams.streams, q.streamKey, q.packetNumber, sealed, 0);
  }

  /** Delivering a ready number: what is found is heard by the streams of whoever it is with. */
  lemma DeliverReadyMeans(c: Cipher, ag: AgentState, ch: Channel, number: nat, times: nat, payload: Bytes)
    returns (q: ExpectedPacket)
    requires Ready(c, ag, ch, number, times)
    ensures q.streamWith in ag.neighbors && q == PacketOn((q.streamWith, ch.1), number)
    ensures var got := GotFrom(c, ag.neighbors[q.streamWith].streams.streams, q, ag.upcoming, 0);
            var o := Step(c, ag, Delivery(c, ag.identity, ch, number, payload));
            got.Some? && o.Outcome? && o.error != Some(InternalError) && o.accepted == Some((q, payload)) &&
            o.agent == AgentState(
              ag.identity,
              ag.neighbors[q.streamWith := ag.neighbors[q.streamWith].(
                streams := ag.neighbors[q.streamWith].streams.(streams := got.value.0))],
              Removed(got.value.1, q, IdentifierOn(c, ag.identity, ch, number)))
  {
    FoundNumber(c, ag, ch, number, times, payload);
    hide Count, IdentifierOn, NonceOn, Removed, GotFrom, Find, Ready, Newest, EntriesKnown, OpenFrom;
    q := Find(ag.neighbors, Listed(ag.upcoming, IdentifierOn(c, ag.identity, ch, number)),
              Sealed(ch.1, NonceOn(ag.identity, ch, number), payload)).packet;
    FirstWindowNeverPanics(c, ag.neighbors[q.streamWith].streams.streams, q, ag.upcoming, 0);
  }

  /** A ready number's packet is accepted, by someone, and the channel stays ready unless it was by itself. */
  lemma DeliverReady(c: Cipher, ag: AgentState, ch: Channel, number: nat, times: nat, payload: Bytes)
    requires Ready(c, ag, ch, number, times)
    ensures var o := Step(c, ag, Delivery(c, ag.identity, ch, number, payload));
            o.Outcome? && o.error != Some(InternalError) && o.accepted.Some? &&
            o.agent.identity == ag.identity && o.agent.neighbors.Keys == ag.neighbors.Keys &&
            var q := o.accepted.value.0;
            q.streamWith in ag.neighbors && q == PacketOn((q.streamWith, ch.1), number) &&
            (q.streamWith != ch.0 ==> Ready(c, o.agent, ch, number, times)) &&
            (q.streamWith == ch.0 && times == 2 ==> Ready(c, o.agent, ch, number, 1))
  {
    var q := DeliverReadyMeans(c, ag, ch, number, times, payload);
    hide Count, IdentifierOn, Removed, GotFrom, Step, Delivery;
    var id := IdentifierOn(c, ag.identity, ch, number);
    var p := PacketOn(ch, number);
    var streams := ag.neighbors[q.streamWith].streams.streams;
    var (streams', t) := GotFrom(c, streams, q, ag.upcoming, 0).value;
    GotFromKeys(c, streams, q, ag.upcoming, 0);
    var ag' := Step(c, ag, Delivery(c, ag.identity, ch, number, payload)).agent;
    DeliveryEntries(c, ag, ag', q, id, t);
    RemovedCount(t, q, id, p, id);
    if q.streamWith != ch.0 {
      GotFromOthers(c, streams, q, ag.upcoming, 0, p, id);
    } else if times == 2 {
      FirstNumberHeard(c, streams, q, ag.upcoming, 0);
    }
  }

  lemma DeliveryEntries(c: Cipher, ag: AgentState, ag': AgentState, q: ExpectedPacket, id: nat, t: Table)
    requires EntriesKnown(ag) && q.streamWith in ag.neighbors && ag'.neighbors.Keys == ag.neighbors.Keys
    requires GotFrom(c, ag.neighbors[q.streamWith].streams.streams, q, ag.upcoming, 0).Some?
    requires t == GotFrom(c, ag.neighbors[q.streamWith].streams.streams, q, ag.upcoming, 0).value.1
    requires ag'.upcoming == Removed(t, q, id)
    ensures EntriesKnown(ag')
  {
    hide Count, Removed, GotFrom;
    forall r: ExpectedPacket, j: nat | Count(ag'.upcoming, r, j) > 0
      ensures r.streamWith in ag'.neighbors
    {
      RemovedCount(t, q, id, r, j);
      if r.streamWith != q.streamWith {
        GotFromOthers(c, ag.neighbors[q.streamWith].streams.streams, q, ag.upcoming, 0, r, j);
      }
    }
  }
}
