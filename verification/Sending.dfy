/**
 * What an agent puts on the network and what it expects from it, field by field, and the errors of every step.
 */
module Sending {
  import opened Basics
  import opened ExpectedPackets
  import opened Streams
  import opened Clusters
  import opened Agents
  import opened Exactness
  import opened Runs
  import opened Acceptance
  import opened Network
  import opened Addressing
  import ContentPackets

  /**
   * A cluster sends under the neighbour's current key: with our own current seed if it is acknowledged or there is no
   * previous one, else with the previous one.
   */
  lemma SendsUnder(c: Cipher, cl: ClusterState)
    requires Grid(c, cl)
    ensures Chosen(cl).Some? <==> cl.theirCurrent.Some? && (cl.ownCurrent.Some? || cl.ownPrevious.Some?)
    ensures Chosen(cl).Some? ==>
              cl.streams[Chosen(cl).value].value.key ==
              c.exchange(cl.theirCurrent.value,
                         if cl.ownPrevious.None? || (cl.ownCurrentAcknowledged && cl.ownCurrent.Some?)
                         then cl.ownCurrent.value else cl.ownPrevious.value)
  {
  }

  lemma {:induction false} RunKnown(c: Cipher, ag: AgentState, events: seq<Event>)
    requires NeighborsKnown(c, ag) && NeverPanics(c, ag, events)
    ensures NeighborsKnown(c, AgentAfter(c, ag, events)) && AgentAfter(c, ag, events).identity == ag.identity
    decreases |events|
  {
    hide Step, NeighborsKnown;
    if events != [] {
      StepKnown(c, ag, events[0]);
      RunKnown(c, Step(c, ag, events[0]).agent, events[1..]);
    }
  }

  /** How many packets a neighbour's newest stream has sent. */
  function SentCount(ag: AgentState, n: Identity): nat
    requires Live(ag, n, CC)
  {
    LiveStream(ag, n, CC).outgoingIndex
  }

  /** The packet that carries a payload to a known neighbour, and its number's successor. */
  lemma PacketIs(c: Cipher, ag: AgentState, n: Identity, payload: Bytes)
    requires NeighborsKnown(c, ag) && n in ag.neighbors && ag.neighbors[n].streams.theirCurrent.Some?
    requires |payload| % 4 == 0 && |payload| + 200 < 0x1_0000_0000
    ensures var cl := ag.neighbors[n].streams;
            var key := c.exchange(cl.theirCurrent.value, cl.ownCurrent.value);
            Live(ag, n, CC) &&
            var i := SentCount(ag, n);
            var o := Step(c, ag, Transmit(n, payload));
            o.Outcome? && o.error == None &&
            o.effects == [Send(ag.neighbors[n].address,
                               Content(c.identifier(key, n < ag.identity, i),
                                       Sealed(key, 2 * i + if n > ag.identity then 1 else 0, payload),
                                       |payload| + 228))] &&
            Live(o.agent, n, CC) && SentCount(o.agent, n) == i + 1
  {
    var cl := ag.neighbors[n].streams;
    SendsUnder(c, cl);
    ContentPackets.PreparedWhen(|payload| + 228, |payload|);
    var st := LiveStream(ag, n, CC);
    ProducedIdentifier(c, st);
    hide Produced, Cached, ContentPackets.Unprepared;
  }

  /**
   * So after any run from the start, whatever it brought: the packet is number `i` of the stream made from our seed
   * and the neighbour's newest key material, in the direction and under the nonce that the order of the two identities
   * gives.
   */
  lemma SentPacketIs(c: Cipher, identity: Identity, events: seq<Event>, n: Identity, payload: Bytes)
    requires NeverPanics(c, NewAgent(identity), events)
    requires var ag := AgentAfter(c, NewAgent(identity), events);
             n in ag.neighbors && ag.neighbors[n].streams.theirCurrent.Some?
    requires |payload| % 4 == 0 && |payload| + 200 < 0x1_0000_0000
    ensures var ag := AgentAfter(c, NewAgent(identity), events);
            var cl := ag.neighbors[n].streams;
            Live(ag, n, CC) && cl.ownCurrent.Some? &&
            var key, i := c.exchange(cl.theirCurrent.value, cl.ownCurrent.value), SentCount(ag, n);
            Step(c, ag, Transmit(n, payload)).Outcome? &&
            Step(c, ag, Transmit(n, payload)).effects ==
              [Send(ag.neighbors[n].address,
                    Content(c.identifier(key, n < identity, i),
                            Sealed(key, 2 * i + if n > identity then 1 else 0, payload), |payload| + 228))]
  {
    RunKnown(c, NewAgent(identity), events);
    var ag := AgentAfter(c, NewAgent(identity), events);
    hide AgentAfter, NeverPanics, Step;
    PacketIs(c, ag, n, payload);
  }

  /** What the streams of a known neighbour expect as number `i`, and open it with. */
  lemma ExpectedIs(c: Cipher, ag: AgentState, n: Identity, k: nat, i: nat, sealed: Sealed)
    requires NeighborsKnown(c, ag) && Live(ag, n, k)
    ensures var st := LiveStream(ag, n, k);
            Identifier(c, st, Incoming, i) == c.identifier(st.key, n > ag.identity, i) &&
            OpenIncoming(st, i, sealed) ==
              if sealed.key == st.key && sealed.nonce == 2 * i + (if n > ag.identity then 0 else 1)
              then Some(sealed.payload) else None
  {
    StreamLater(c, ag, n, k);
  }

  /** What the streams of a known neighbour open: what is sealed under the key, and the nonce of the number. */
  lemma OpensIs(c: Cipher, self: Identity, n: Identity, cl: ClusterState, key: Bytes, number: nat, sealed: Sealed)
    requires KnownNeighbor(c, self, n, cl)
    ensures OpenFrom(cl.streams, key, number, sealed, 0) ==
            if (exists k: nat :: k < SLOTS && cl.streams[k].Some? && cl.streams[k].value.key == key) &&
               sealed.key == key && sealed.nonce == 2 * number + (if n > self then 0 else 1)
            then Some(sealed.payload) else None
  {
    hide Cached;
    forall k: nat | k < SLOTS && cl.streams[k].Some?
      ensures cl.streams[k].value.neighborIsLater == (n > self)
    {
      assert k == CC || k == CP || k == PC || k == PP;
    }
    OpenFromIs(cl.streams, key, number, sealed, 0, n > self);
  }

  lemma {:induction false} OpenFromIs(streams: seq<Option<StreamState>>, key: Bytes, number: nat, sealed: Sealed,
                                      i: nat, later: bool)
    requires i <= |streams|
    requires forall k: nat :: k < |streams| && streams[k].Some? ==> streams[k].value.neighborIsLater == later
    ensures OpenFrom(streams, key, number, sealed, i) ==
            if (exists k: nat :: i <= k < |streams| && streams[k].Some? && streams[k].value.key == key) &&
               sealed.key == key && sealed.nonce == 2 * number + (if later then 0 else 1)
            then Some(sealed.payload) else None
    decreases |streams| - i
  {
    if i < |streams| {
      OpenFromIs(streams, key, number, sealed, i + 1, later);
    }
  }

  /** What the search finds: the first listed packet that opens, unless one from a stranger is listed before it. */
  lemma {:induction false} FindIs(neighbors: map<Identity, NeighborState>, list: seq<ExpectedPacket>, sealed: Sealed,
                                  i: nat)
    ensures Find(neighbors, list, sealed) == Nothing <==> forall p :: p in list ==> Passed(neighbors, p, sealed)
    ensures i < |list| && (forall p :: p in list[..i] ==> Passed(neighbors, p, sealed)) &&
            !Passed(neighbors, list[i], sealed) ==>
              Find(neighbors, list, sealed) ==
              if list[i].streamWith !in neighbors then Stranger
              else Opened(list[i], OpenedWith(neighbors, list[i], sealed).value)
  {
    if list != [] {
      if Passed(neighbors, list[0], sealed) {
        FindIs(neighbors, list[1..], sealed, if i == 0 then 0 else i - 1);
        if 0 < i < |list| {
          assert list[..i] == [list[0]] + list[1..][..i - 1];
        }
      } else {
        assert list[0] in list;
        if 0 < i < |list| {
          assert list[0] in list[..i];
        }
      }
    }
  }

  /** What a listed packet opens with the streams of its neighbour. */
  function OpenedWith(neighbors: map<Identity, NeighborState>, p: ExpectedPacket, sealed: Sealed): Option<Bytes>
    requires p.streamWith in neighbors
  {
    OpenFrom(neighbors[p.streamWith].streams.streams, p.streamKey, p.packetNumber, sealed, 0)
  }

  /** A listed packet of a neighbour that does not open. */
  predicate Passed(neighbors: map<Identity, NeighborState>, p: ExpectedPacket, sealed: Sealed) {
    p.streamWith in neighbors && OpenedWith(neighbors, p, sealed).None?
  }

  lemma StreamLater(c: Cipher, ag: AgentState, n: Identity, k: nat)
    requires NeighborsKnown(c, ag) && Live(ag, n, k)
    ensures LiveStream(ag, n, k).neighborIsLater == (n > ag.identity)
  {
    assert KnownNeighbor(c, ag.identity, n, ag.neighbors[n].streams);
    hide Cached;
    assert k == CC || k == CP || k == PC || k == PP;
  }

  /** How a step ends that hears an initiation packet, starts a stream, or sends a payload. */
  lemma Errors(c: Cipher, ag: AgentState, e: Event)
    requires Step(c, ag, e).Outcome?
    ensures e.Receive? && e.packet.Initiation? ==>
              Step(c, ag, e).error ==
              if e.packet.recipient != ag.identity then Some(BadChecksum)
              else if !e.packet.signed then Some(BadSignature)
              else if e.packet.sender !in ag.neighbors && e.packet.sender == ag.identity then Some(CannotStreamWithSelf)
              else None
    ensures e.Initiate? ==>
              Step(c, ag, e).error == if e.neighbor == ag.identity then Some(CannotStreamWithSelf) else None
    ensures e.Transmit? ==>
              Step(c, ag, e).error ==
              if e.neighbor !in ag.neighbors then Some(NotANeighbor)
              else if Chosen(ag.neighbors[e.neighbor].streams).None? then Some(StreamNotReady)
              else if 28 + |e.payload| >= 0x1_0000_0000_0000_0000 then Some(InternalLimitExceeded)
              else if |e.payload| % 4 != 0 then Some(InternalError)
              else if |e.payload| + 200 >= 0x1_0000_0000 then Some(InternalLimitExceeded)
              else None
    ensures e.Receive? && e.packet.Content? && e.packet.length < 228 ==>
              Step(c, ag, e) == Refused(ag, if e.packet.length < 152 then InternalError else BadChecksum)
    ensures e.Receive? && e.packet.Content? && e.packet.length >= 0x1_0000_0000 ==>
              Step(c, ag, e) == Refused(ag, InternalLimitExceeded)
  {
    hide Find, Got, MaterialPushed, OwnSeedPushed, Produced, Chosen;
    if e.Transmit? {
      ContentPackets.PreparedWhen(|e.payload| + 228, |e.payload|);
    }
    hide ContentPackets.Unprepared;
  }

  /**
   * How hearing a content packet ends: with what the search finds, and a task if it is not too large for a machine.
   */
  lemma ContentEnds(c: Cipher, ag: AgentState, packet: Packet, source: Address)
    requires packet.Content? && 228 <= packet.length < 0x1_0000_0000
    requires Step(c, ag, Receive(packet, source, [])).Outcome?
    ensures var o := Step(c, ag, Receive(packet, source, []));
            match Find(ag.neighbors, Listed(ag.upcoming, packet.identifier), packet.sealed)
            case Nothing => o == Refused(ag, UnrecognizedPacket)
            case Stranger => o == Refused(ag, InternalError)
            case Opened(p, payload) =>
              o.accepted == Some((p, payload)) &&
              (if |payload| < 4_194_308 then o.error == None && o.effects == [Execute(Task(p.streamWith, payload))]
               else o.error == Some(VmCreationFailed) && o.effects == [])
  {
    hide Find, Got;
  }

  /** An error leaves the agent as it was and sends nothing, but for a number used up and a task too large. */
  lemma ErrorsChangeNothing(c: Cipher, ag: AgentState, e: Event)
    requires Step(c, ag, e).Outcome? && Step(c, ag, e).error.Some?
    ensures Step(c, ag, e).effects == []
    ensures !e.Transmit? && Step(c, ag, e).error != Some(VmCreationFailed) ==> Step(c, ag, e).agent == ag
    ensures e.Transmit? && Step(c, ag, e).error in {Some(NotANeighbor), Some(StreamNotReady)} ==>
              Step(c, ag, e).agent == ag
  {
    hide Find, Got, MaterialPushed, OwnSeedPushed, Produced, Chosen;
  }
}
