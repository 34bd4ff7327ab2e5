/**
 * Which packets an agent accepts: of the packets a live stream's peer may send, exactly those the stream's window
 * awaits. And that pushing key material reopens a window, whatever it had received.
 */
module Acceptance {
  import opened Basics
  import opened Windows
  import opened ExpectedPackets
  import opened Streams
  import opened Clusters
  import opened Agents
  import opened Exactness
  import opened Runs

  /** What opening a listed packet gives. */
  function Opening(neighbors: map<Identity, NeighborState>, p: ExpectedPacket, sealed: Sealed): Option<Bytes>
    requires p.streamWith in neighbors
  {
    OpenFrom(neighbors[p.streamWith].streams.streams, p.streamKey, p.packetNumber, sealed, 0)
  }

  /** If some listed packet opens, the search finds one that does. */
  lemma {:induction false} FindOpens(neighbors: map<Identity, NeighborState>, list: seq<ExpectedPacket>,
                                     sealed: Sealed, p: ExpectedPacket)
    requires forall q :: q in list ==> q.streamWith in neighbors
    requires p in list && Opening(neighbors, p, sealed).Some?
    ensures var f := Find(neighbors, list, sealed);
            f.Opened? && Opening(neighbors, f.packet, sealed) == Some(f.payload)
  {
    hide OpenFrom;
    if Opening(neighbors, list[0], sealed).None? {
      FindOpens(neighbors, list[1..], sealed, p);
    }
  }

  lemma ListBacked(t: Table, id: nat, whos: set<Identity>, used: set<Channel>)
    requires Backed(t, whos, used)
    ensures forall q :: q in Listed(t, id) ==> q.streamWith in whos
  {
    forall q | q in Listed(t, id)
      ensures q.streamWith in whos
    {
      ListedCounts(t, q, id);
    }
  }

  /** No other neighbour's stream has the key. */
  ghost predicate OnlyWith(ag: AgentState, n: Identity, key: Bytes) {
    forall m: Identity, i: nat {:trigger Live(ag, m, i)} :: Live(ag, m, i) && LiveStream(ag, m, i).key == key ==> m == n
  }

  /** What a live stream awaits is found. */
  lemma AwaitedIsFound(c: Cipher, ag: AgentState, n: Identity, k: nat, number: nat, payload: Bytes, used: set<Channel>)
    requires Invariant(c, ag, used) && Live(ag, n, k) && Awaits(LiveStream(ag, n, k).window, number)
    ensures var st := LiveStream(ag, n, k);
            Find(ag.neighbors, Listed(ag.upcoming, Identifier(c, st, Incoming, number)),
                 Sealed(st.key, IncomingNonce(st, number), payload)).Opened?
  {
    hide Awaits, Exact, Grid, Cached, Identifier;
    var st := LiveStream(ag, n, k);
    var id := Identifier(c, st, Incoming, number);
    var sealed := Sealed(st.key, IncomingNonce(st, number), payload);
    LiveExact(c, ag, n, k, used);
    var p := ExpectedPacket(n, st.key, number);
    AwaitedIsListed(c, st, n, ag.upcoming, p, id);
    ClusterKeysDistinct(c, ag, n, used);
    OpenFromOne(ag.neighbors[n].streams.streams, st.key, number, sealed, 0, k);
    ListBacked(ag.upcoming, id, ag.neighbors.Keys, used);
    FindOpens(ag.neighbors, Listed(ag.upcoming, id), sealed, p);
  }

  /** What is found for a live stream's number is that number, and its stream awaits it. */
  lemma FoundIsAwaited(c: Cipher, ag: AgentState, n: Identity, k: nat, number: nat, payload: Bytes, used: set<Channel>)
    requires Invariant(c, ag, used) && Live(ag, n, k) && OnlyWith(ag, n, LiveStream(ag, n, k).key)
    ensures var st := LiveStream(ag, n, k);
            var f := Find(ag.neighbors, Listed(ag.upcoming, Identifier(c, st, Incoming, number)),
                          Sealed(st.key, IncomingNonce(st, number), payload));
            f.Opened? ==>
              f == Opened(ExpectedPacket(n, st.key, number), payload) && Awaits(st.window, number)
  {
    hide Awaits, Exact, Grid, Cached, Identifier;
    var st := LiveStream(ag, n, k);
    var id := Identifier(c, st, Incoming, number);
    var list := Listed(ag.upcoming, id);
    var i := FindMeans(c, ag, list, Sealed(st.key, IncomingNonce(st, number), payload), id, used);
    ClusterKeysDistinct(c, ag, n, used);
  }

  /**
   * A packet sealed for a live stream's number is accepted, as that number, if and only if the window awaits it,
   * provided no other neighbour shares the key.
   */
  lemma AcceptedIffAwaited(c: Cipher, ag: AgentState, n: Identity, k: nat, number: nat, payload: Bytes,
                           used: set<Channel>)
    requires Invariant(c, ag, used) && Live(ag, n, k) && OnlyWith(ag, n, LiveStream(ag, n, k).key)
    ensures var st := LiveStream(ag, n, k);
            var o := HandleContent(c, ag, Identifier(c, st, Incoming, number),
                                   Sealed(st.key, IncomingNonce(st, number), payload));
            o.Outcome? &&
            o.accepted == if Awaits(st.window, number) then Some((ExpectedPacket(n, st.key, number), payload)) else None
  {
    hide Awaits, Invariant, OnlyWith, Identifier, Find, Got;
    var st := LiveStream(ag, n, k);
    var id := Identifier(c, st, Incoming, number);
    var j := HandleContentStep(c, ag, id, Sealed(st.key, IncomingNonce(st, number), payload), used);
    FoundIsAwaited(c, ag, n, k, number, payload, used);
    if Awaits(st.window, number) {
      AwaitedIsFound(c, ag, n, k, number, payload, used);
    }
  }

  lemma AwaitedIsListed(c: Cipher, st: StreamState, who: Identity, t: Table, p: ExpectedPacket, id: nat)
    requires Exact(c, st, who, t) && ChannelOf(p) == (who, st.key) && Awaited(c, st, who, p, id)
    ensures p in Listed(t, id)
  {
    ListedCounts(t, p, id);
  }

  /** A stream never panics at a number of the first window. */
  lemma {:induction false} FirstWindowNeverPanics(c: Cipher, streams: seq<Option<StreamState>>, p: ExpectedPacket,
                                                  t: Table, i: nat)
    requires i <= |streams| && p.packetNumber < WINDOW
    ensures GotFrom(c, streams, p, t, i).Some?
    decreases |streams| - i
  {
    if i < |streams| {
      if streams[i].Some? && streams[i].value.key == p.streamKey {
        var (st, t') := GotIncoming(c, streams[i].value, p, t).value;
        FirstWindowNeverPanics(c, streams[i := Some(st)], p, t', i + 1);
      } else {
        FirstWindowNeverPanics(c, streams, p, t, i + 1);
      }
    }
  }

  /**
   * Key material pushed to a known neighbour, whether seen before or not, makes the first 64 numbers of its key
   * acceptable, whatever was accepted under that key before. Initiation packets carry a timestamp, but no
   * timestamp is refused, so a repeated one does this.
   */
  lemma PushedMaterialReopens(c: Cipher, ag: AgentState, n: Identity, address: Address, material: Bytes, number: nat,
                              payload: Bytes,
                              used: set<Channel>)
    requires Invariant(c, ag, used) && n in ag.neighbors && number < WINDOW
    ensures var ag' := HandleInitiation(c, ag, Initiation(n, ag.identity, material, true), address, []).agent;
            var st := NewStream(c, ag.neighbors[n].streams.ownCurrent.value, material, n > ag.identity);
            var o := HandleContent(c, ag', Identifier(c, st, Incoming, number),
                                   Sealed(st.key, IncomingNonce(st, number), payload));
            o.Outcome? && o.accepted.Some? &&
            o.accepted.value.0.streamKey == st.key && o.accepted.value.0.packetNumber == number &&
            o.accepted.value.1 == payload
  {
    hide Exact, Grid, GotFrom, Cached, Identifier, ExpectFirst;
    var ag' := HandleInitiation(c, ag, Initiation(n, ag.identity, material, true), address, []).agent;
    var st := NewStream(c, ag.neighbors[n].streams.ownCurrent.value, material, n > ag.identity);
    var id := Identifier(c, st, Incoming, number);
    var sealed := Sealed(st.key, IncomingNonce(st, number), payload);
    var p := ExpectedPacket(n, st.key, number);
    var list := Listed(ag'.upcoming, id);
    PushedList(c, ag, n, address, material, number, used);
    assert Opening(ag'.neighbors, p, sealed) == Some(payload) by {
      assert ag'.neighbors[n].streams.streams[CC] == Some(st);
    }
    FindOpens(ag'.neighbors, list, sealed, p);
    var q := Find(ag'.neighbors, list, sealed).packet;
    var k := OpenFromSome(ag'.neighbors[q.streamWith].streams.streams, q.streamKey, q.packetNumber, sealed, 0);
    FirstWindowNeverPanics(c, ag'.neighbors[q.streamWith].streams.streams, q, ag'.upcoming, 0);
  }

  /** After a push, the new stream's packets are listed, and everything listed is from a neighbour. */
  lemma PushedList(c: Cipher, ag: AgentState, n: Identity, address: Address, material: Bytes, number: nat,
                   used: set<Channel>)
    requires Invariant(c, ag, used) && n in ag.neighbors && number < WINDOW
    ensures var ag' := HandleInitiation(c, ag, Initiation(n, ag.identity, material, true), address, []).agent;
            var st := NewStream(c, ag.neighbors[n].streams.ownCurrent.value, material, n > ag.identity);
            var list := Listed(ag'.upcoming, Identifier(c, st, Incoming, number));
            ExpectedPacket(n, st.key, number) in list && forall q :: q in list ==> q.streamWith in ag'.neighbors
  {
    hide Exact, Grid, Cached, Identifier, ExpectFrom, Count, StreamsExact, LiveKeysDistinct;
    var ag' := HandleInitiation(c, ag, Initiation(n, ag.identity, material, true), address, []).agent;
    var st := NewStream(c, ag.neighbors[n].streams.ownCurrent.value, material, n > ag.identity);
    var id := Identifier(c, st, Incoming, number);
    var t1 := ExpectFrom(c, st, n, ag.upcoming, 0, WINDOW);
    assert ag'.neighbors[n].streams.streams[PC].None? && ag'.upcoming == t1;
    forall q: ExpectedPacket
      ensures Count(ag'.upcoming, q, id) > 0 ==> q.streamWith in ag'.neighbors
      ensures q == ExpectedPacket(n, st.key, number) ==> Count(ag'.upcoming, q, id) > 0
    {
      ExpectFromCount(c, st, n, ag.upcoming, 0, WINDOW, q, id);
    }
    forall q: ExpectedPacket
      ensures q in Listed(ag'.upcoming, id) <==> Count(ag'.upcoming, q, id) > 0
    {
      ListedCounts(ag'.upcoming, q, id);
    }
  }

  /** The packet that carries a payload as a stream's incoming number. */
  function Carrying(c: Cipher, st: StreamState, number: nat, payload: Bytes): Packet {
    Content(Identifier(c, st, Incoming, number), Sealed(st.key, IncomingNonce(st, number), payload), SEND_THRESHOLD)
  }

  lemma AcceptedStep(c: Cipher, ag: AgentState, e: Event, rest: seq<Event>)
    requires Step(c, ag, e).Outcome?
    ensures AcceptedIn(c, ag, [e] + rest) ==
            Logged(Step(c, ag, e).accepted) + AcceptedIn(c, Step(c, ag, e).agent, rest)
  {
    hide Step;
    assert ([e] + rest)[1..] == rest;
  }

  /** The log of a run that repeats an initiation packet and a content packet, when only the latter is accepted. */
  lemma LogOfRepeat(c: Cipher, a0: AgentState, start: Event, initiation: Event, content: Event)
    requires Step(c, a0, start).Outcome? && Step(c, a0, start).accepted.None?
    requires var a1 := Step(c, a0, start).agent;
             Step(c, a1, initiation).Outcome? && Step(c, a1, initiation).accepted.None? &&
             var a2 := Step(c, a1, initiation).agent;
             Step(c, a2, content).Outcome? && Step(c, a2, content).accepted.Some? &&
             var a3 := Step(c, a2, content).agent;
             Step(c, a3, initiation).Outcome? && Step(c, a3, initiation).accepted.None? &&
             var a4 := Step(c, a3, initiation).agent;
             Step(c, a4, content).Outcome? && Step(c, a4, content).accepted.Some?
    ensures var a2 := Step(c, Step(c, a0, start).agent, initiation).agent;
            var a4 := Step(c, Step(c, a2, content).agent, initiation).agent;
            AcceptedIn(c, a0, [start, initiation, content, initiation, content]) ==
              [Step(c, a2, content).accepted.value, Step(c, a4, content).accepted.value]
  {
    hide Step;
    var a1 := Step(c, a0, start).agent;
    var a2 := Step(c, a1, initiation).agent;
    var a3 := Step(c, a2, content).agent;
    var a4 := Step(c, a3, initiation).agent;
    assert AcceptedIn(c, Step(c, a4, content).agent, []) == [];
    hide AcceptedIn;
    AcceptedStep(c, a4, content, []);
    AcceptedStep(c, a3, initiation, [content] + []);
    AcceptedStep(c, a2, content, [initiation] + ([content] + []));
    AcceptedStep(c, a1, initiation, [content] + ([initiation] + ([content] + [])));
    AcceptedStep(c, a0, start, [initiation] + ([content] + ([initiation] + ([content] + []))));
    assert [start] + ([initiation] + ([content] + ([initiation] + ([content] + [])))) ==
           [start, initiation, content, initiation, content];
  }

  /** Not at most once, then: with an initiation packet delivered twice, one content packet is accepted twice. */
  lemma RepeatedInitiationRunsTwice(c: Cipher, seed: Bytes, material: Bytes, number: nat, payload: Bytes)
    requires number < WINDOW
    ensures var st := NewStream(c, seed, material, true);
            var start := Initiate(2, 0, seed);
            var initiation := Receive(Initiation(2, 1, material, true), 0, []);
            var content := Receive(Carrying(c, st, number, payload), 0, []);
            var log := AcceptedIn(c, NewAgent(1), [start, initiation, content, initiation, content]);
            |log| == 2 && log[0] == log[1] && log[0].1 == payload
  {
    hide HandleContent, HandleInitiation, InitiateStream, Invariant, Identifier, OwnSeedPushed, MaterialPushed;
    var st := NewStream(c, seed, material, true);
    var start := Initiate(2, 0, seed);
    var initiation := Receive(Initiation(2, 1, material, true), 0, []);
    var content := Receive(Carrying(c, st, number, payload), 0, []);
    var a0 := NewAgent(1);
    NewAgentInvariant(c, 1);
    StepInvariant(c, a0, start, {});
    var a1 := Step(c, a0, start).agent;
    OwnSeedAfterInitiate(c, seed);
    assert {} + Elements<Channel>([]) == {};
    PushedMaterialReopens(c, a1, 2, 0, material, number, payload, {});
    MaterialChannelsOfOne(c, 2, a1.neighbors[2].streams, seed, material);
    StepInvariant(c, a1, initiation, {});
    var a2 := Step(c, a1, initiation).agent;
    var used := {} + Elements(NewChannels(c, a1, initiation));
    KnownInitiation(c, a1, 2, material);
    var k := HandleContentStep(c, a2, content.packet.identifier, content.packet.sealed, used);
    var a3 := Step(c, a2, content).agent;
    PushedMaterialReopens(c, a3, 2, 0, material, number, payload, used);
    KnownInitiation(c, a3, 2, material);
    var a4 := Step(c, a3, initiation).agent;
    AcceptedFromKnown(c, a2, content.packet.identifier, content.packet.sealed);
    AcceptedFromKnown(c, a4, content.packet.identifier, content.packet.sealed);
    hide *;
    LogOfRepeat(c, a0, start, initiation, content);
  }

  /** Packets are only accepted from neighbours. */
  lemma AcceptedFromKnown(c: Cipher, ag: AgentState, id: nat, sealed: Sealed)
    ensures var o := HandleContent(c, ag, id, sealed);
            o.Outcome? && o.accepted.Some? ==> o.accepted.value.0.streamWith in ag.neighbors
  {
  }

  lemma OwnSeedAfterInitiate(c: Cipher, seed: Bytes)
    ensures var o := InitiateStream(c, NewAgent(1), 2, 0, seed);
            o.Outcome? && o.accepted.None? && o.agent.identity == 1 && o.agent.neighbors.Keys == {2} &&
            var cl := o.agent.neighbors[2].streams;
            cl.ownCurrent == Some(seed) && cl.ownPrevious.None? && cl.theirCurrent.None?
  {
  }

  lemma MaterialChannelsOfOne(c: Cipher, n: Identity, cl: ClusterState, seed: Bytes, material: Bytes)
    requires cl.ownCurrent == Some(seed) && cl.ownPrevious.None?
    ensures MaterialChannels(c, n, cl, material) == [(n, c.exchange(material, seed))]
  {
  }

  /** Key material from a known neighbour changes its cluster alone, and neither its seeds nor anyone's identity. */
  lemma KnownInitiation(c: Cipher, ag: AgentState, n: Identity, material: Bytes)
    requires n in ag.neighbors
    ensures var o := HandleInitiation(c, ag, Initiation(n, ag.identity, material, true), 0, []);
            o.Outcome? && o.accepted.None? && o.agent.identity == ag.identity &&
            o.agent.neighbors.Keys == ag.neighbors.Keys &&
            o.agent.neighbors[n].streams.ownCurrent == ag.neighbors[n].streams.ownCurrent
  {
  }
}
