/**
 * Two agents over a network that loses, reorders, duplicates and misdelivers packets. Encryption is ideal: what
 * was not sealed under an agent's key does not open, and nobody else signs.
 *
 * Whatever is accepted was sent, in every run. That it is accepted once, and that a number stands for one payload,
 * holds in runs that give no stream a key it had before.
 */
module Network {
  import opened Basics
  import opened ExpectedPackets
  import opened Streams
  import opened Clusters
  import opened Agents
  import opened Exactness
  import opened Runs
  import opened Acceptance
  import opened Repeating

  /** One agent, the channels of all streams it ever had, and the packets it accepted. */
  datatype Party = Party(agent: AgentState, used: set<Channel>, log: Log)

  /** A packet number of a key, as counted by one of its ends. */
  datatype Numbered = Numbered(sender: Identity, key: Bytes, number: nat)

  type Sent = set<(Numbered, Bytes)>

  /** The two agents, every packet sent so far, and every payload sent as a number. */
  datatype World = World(parties: map<Identity, Party>, packets: set<Packet>, sent: Sent)

  predicate TwoParties(w: World, x: Identity, y: Identity) {
    x != y && w.parties.Keys == {x, y}
  }

  function Start(x: Identity, y: Identity): World {
    World(map[x := Party(NewAgent(x), {}, []), y := Party(NewAgent(y), {}, [])], {}, {})
  }

  predicate UsesKey(w: World, key: Bytes) {
    exists z, ch :: z in w.parties && ch in w.parties[z].used && ch.1 == key
  }

  /** What the network may hand over: a packet that was sent, or one made by somebody who has none of the secrets. */
  predicate Deliverable(w: World, packet: Packet) {
    packet in w.packets ||
    match packet
    case Content(_, sealed, _) => !UsesKey(w, sealed.key)
    case Initiation(_, _, _, signed) => !signed
  }

  predicate Allowed(w: World, who: Identity, e: Event) {
    who in w.parties && (e.Receive? ==> Deliverable(w, e.packet))
  }

  function PacketsOf(effects: seq<Effect>): set<Packet> {
    set e | e in effects && e.Send? :: e.packet
  }

  /** The stream a payload is about to go out on. */
  function Outbound(ag: AgentState, e: Event): Option<StreamState> {
    if e.Transmit? && e.neighbor in ag.neighbors && Chosen(ag.neighbors[e.neighbor].streams).Some? &&
      Unsendable(e.payload).None?
    then ag.neighbors[e.neighbor].streams.streams[Chosen(ag.neighbors[e.neighbor].streams).value]
    else None
  }

  function SentNow(who: Identity, ag: AgentState, e: Event): Sent {
    var st := Outbound(ag, e);
    if st.Some? then {(Numbered(who, st.value.key, st.value.outgoingIndex), e.payload)} else {}
  }

  function Act(c: Cipher, w: World, who: Identity, e: Event): World
    requires who in w.parties
  {
    var party := w.parties[who];
    match Step(c, party.agent, e)
    case Panicked => w
    case Outcome(agent, effects, _, accepted) =>
      World(w.parties[who := Party(agent, party.used + Elements(NewChannels(c, party.agent, e)),
                                   party.log + Logged(accepted))],
            w.packets + PacketsOf(effects),
            w.sent + SentNow(who, party.agent, e))
  }

  type Action = (Identity, Event)

  /** All actions of a run, in order. */
  function RunWorld(c: Cipher, w: World, actions: seq<Action>): World
    decreases |actions|
  {
    if actions == [] || actions[0].0 !in w.parties then w
    else RunWorld(c, Act(c, w, actions[0].0, actions[0].1), actions[1..])
  }

  /** Each action is allowed when its turn comes. */
  predicate AllowedRun(c: Cipher, w: World, actions: seq<Action>)
    decreases |actions|
  {
    actions == [] ||
    (Allowed(w, actions[0].0, actions[0].1) && AllowedRun(c, Act(c, w, actions[0].0, actions[0].1), actions[1..]))
  }

  /** And gives no stream a key that one with the same neighbour had before. */
  predicate FreshActions(c: Cipher, w: World, actions: seq<Action>)
    decreases |actions|
  {
    actions == [] ||
    (actions[0].0 in w.parties &&
     FreshKeys(c, w.parties[actions[0].0].agent, actions[0].1, w.parties[actions[0].0].used) &&
     FreshActions(c, Act(c, w, actions[0].0, actions[0].1), actions[1..]))
  }

  ghost predicate NeighborsKnown(c: Cipher, ag: AgentState) {
    forall n :: n in ag.neighbors ==> KnownNeighbor(c, ag.identity, n, ag.neighbors[n].streams)
  }

  ghost predicate LiveUsed(ag: AgentState, used: set<Channel>) {
    forall n: Identity, i: nat {:trigger Live(ag, n, i)} :: Live(ag, n, i) ==> (n, LiveStream(ag, n, i).key) in used
  }

  /** All streams of an agent are with the other agent. */
  ghost predicate StreamsWith(ag: AgentState, partner: Identity) {
    forall n: Identity, i: nat {:trigger Live(ag, n, i)} :: Live(ag, n, i) ==> n == partner
  }

  /** A content packet carries a number one of the two sent, sealed with that number's nonce. */
  ghost predicate Genuine(sent: Sent, x: Identity, y: Identity, sealed: Sealed) {
    exists m {:trigger (m, sealed.payload) in sent} :: (m, sealed.payload) in sent && m.key == sealed.key &&
      ((m.sender == x && sealed.nonce == 2 * m.number + if y > x then 1 else 0) ||
       (m.sender == y && sealed.nonce == 2 * m.number + if x > y then 1 else 0))
  }

  /** Whatever was accepted came from the other agent, and was sent by it as that number. */
  ghost predicate AcceptedAsSent(log: Log, sent: Sent, partner: Identity) {
    forall e :: e in log ==>
      e.0.streamWith == partner && (Numbered(partner, e.0.streamKey, e.0.packetNumber), e.1) in sent
  }

  ghost predicate PartyInvariant(c: Cipher, w: World, who: Identity, partner: Identity) {
    who in w.parties &&
    var party := w.parties[who];
    party.agent.identity == who && NeighborsKnown(c, party.agent) && LiveUsed(party.agent, party.used) &&
    StreamsWith(party.agent, partner) && AcceptedAsSent(party.log, w.sent, partner)
  }

  ghost predicate PacketsSound(w: World, x: Identity, y: Identity) {
    forall packet :: packet in w.packets ==>
      match packet
      case Content(_, sealed, _) => Genuine(w.sent, x, y, sealed)
      case Initiation(sender, recipient, _, _) => (sender == x || sender == y) && sender != recipient
  }

  /** What every allowed step of either agent keeps. */
  ghost predicate WorldInvariant(c: Cipher, w: World, x: Identity, y: Identity) {
    TwoParties(w, x, y) && PartyInvariant(c, w, x, y) && PartyInvariant(c, w, y, x) && PacketsSound(w, x, y)
  }

  lemma StartInvariant(c: Cipher, x: Identity, y: Identity)
    requires x != y
    ensures WorldInvariant(c, Start(x, y), x, y)
  {
  }

  /** What an accepted packet was opened by. */
  lemma AcceptedOpened(c: Cipher, ag: AgentState, id: nat, sealed: Sealed) returns (k: nat)
    ensures var o := HandleContent(c, ag, id, sealed);
            o.Outcome? && o.accepted.Some? ==>
              var (p, payload) := o.accepted.value;
              Live(ag, p.streamWith, k) && LiveStream(ag, p.streamWith, k).key == p.streamKey &&
              OpenIncoming(LiveStream(ag, p.streamWith, k), p.packetNumber, sealed) == Some(payload)
  {
    k := 0;
    var f := Find(ag.neighbors, Listed(ag.upcoming, id), sealed);
    if f.Opened? {
      FoundOpens(ag.neighbors, Listed(ag.upcoming, id), sealed);
      k := OpenFromSome(ag.neighbors[f.packet.streamWith].streams.streams, f.packet.streamKey, f.packet.packetNumber,
                        sealed, 0);
    }
  }

  lemma {:induction false} FoundOpens(neighbors: map<Identity, NeighborState>, list: seq<ExpectedPacket>,
                                      sealed: Sealed)
    ensures var f := Find(neighbors, list, sealed);
            f.Opened? ==> Opening(neighbors, f.packet, sealed) == Some(f.payload)
  {
    hide OpenFrom;
    if list != [] && list[0].streamWith in neighbors && Opening(neighbors, list[0], sealed).None? {
      FoundOpens(neighbors, list[1..], sealed);
    }
  }

  /** Streams that only heard or sent are in the same slots. */
  lemma ContentSlots(c: Cipher, ag: AgentState, id: nat, sealed: Sealed, n: Identity)
    requires HandleContent(c, ag, id, sealed).Outcome? && n in HandleContent(c, ag, id, sealed).agent.neighbors
    ensures n in ag.neighbors
    ensures var (cl, cl') := (ag.neighbors[n].streams, HandleContent(c, ag, id, sealed).agent.neighbors[n].streams);
            cl' == cl.(streams := cl'.streams) && SameKeys(cl.streams, cl'.streams) &&
            (forall i: nat :: i < SLOTS && cl.streams[i].Some? && Cached(c, cl.streams[i].value) ==>
              Cached(c, cl'.streams[i].value))
  {
    hide Cached;
    var f := Find(ag.neighbors, Listed(ag.upcoming, id), sealed);
    if f.Opened? && n == f.packet.streamWith {
      GotFromKeys(c, ag.neighbors[n].streams.streams, f.packet, ag.upcoming, 0);
      GotFromCached(c, ag.neighbors[n].streams.streams, f.packet, ag.upcoming, 0);
    }
  }

  lemma {:induction false} GotFromCached(c: Cipher, streams: seq<Option<StreamState>>, p: ExpectedPacket, t: Table,
                                         i: nat)
    requires i <= |streams| && GotFrom(c, streams, p, t, i).Some?
    ensures var streams' := GotFrom(c, streams, p, t, i).value.0;
            SameKeys(streams, streams') &&
            forall k: nat :: k < |streams| && streams[k].Some? && Cached(c, streams[k].value) ==>
              Cached(c, streams'[k].value)
    decreases |streams| - i
  {
    GotFromKeys(c, streams, p, t, i);
    if i < |streams| {
      if streams[i].Some? && streams[i].value.key == p.streamKey {
        var (st, t') := GotIncoming(c, streams[i].value, p, t).value;
        GotKeepsKey(c, streams[i].value, p, t);
        CachedIgnoresWindow(c, streams[i].value, st);
        hide GotIncoming, Cached;
        GotFromCached(c, streams[i := Some(st)], p, t', i + 1);
      } else {
        hide GotIncoming, Cached;
        GotFromCached(c, streams, p, t, i + 1);
      }
    }
  }

  lemma CachedIgnoresWindow(c: Cipher, st: StreamState, st': StreamState)
    requires st' == st.(window := st'.window)
    ensures Cached(c, st) ==> Cached(c, st')
  {
  }

  /** Whatever the step, neighbours stay known: their keys in their slots, their directions right. */
  lemma StepKnown(c: Cipher, ag: AgentState, e: Event)
    requires NeighborsKnown(c, ag)
    ensures var o := Step(c, ag, e);
            o.Outcome? ==> o.agent.identity == ag.identity && NeighborsKnown(c, o.agent)
  {
    hide Grid, HandleContent, MaterialPushed, OwnSeedPushed, Produced;
    var o := Step(c, ag, e);
    if o.Outcome? {
      forall n | n in o.agent.neighbors
        ensures KnownNeighbor(c, ag.identity, n, o.agent.neighbors[n].streams)
      {
        if Delivers(e) {
          ContentKnown(c, ag, e.packet.identifier, e.packet.sealed, n);
        } else if e.Receive? && e.packet.Initiation? && n == e.packet.sender && n in ag.neighbors {
          PushedKnown(c, ag.identity, n, ag.neighbors[n].streams, e.packet.material, ag.upcoming);
        } else if e.Receive? && e.packet.Initiation? && n == e.packet.sender {
          AnsweredKnown(c, ag.identity, n, e.packet.material, e.seed, ag.upcoming);
        } else if e.Initiate? && n == e.neighbor {
          InitiatedKnown(c, ag.identity, n, e.seed, ag.upcoming);
        } else if e.Transmit? && n == e.neighbor {
          SentKnown(c, ag, n, e.payload);
        }
      }
    }
    StepIdentityKept(c, ag, e);
  }

  lemma StepIdentityKept(c: Cipher, ag: AgentState, e: Event)
    ensures var o := Step(c, ag, e); o.Outcome? ==> o.agent.identity == ag.identity
  {
  }

  lemma ContentKnown(c: Cipher, ag: AgentState, id: nat, sealed: Sealed, n: Identity)
    requires NeighborsKnown(c, ag) && HandleContent(c, ag, id, sealed).Outcome?
    requires n in HandleContent(c, ag, id, sealed).agent.neighbors
    ensures KnownNeighbor(c, ag.identity, n, HandleContent(c, ag, id, sealed).agent.neighbors[n].streams)
  {
    hide HandleContent, Cached;
    ContentSlots(c, ag, id, sealed, n);
  }

  lemma PushedKnown(c: Cipher, self: Identity, n: Identity, cl: ClusterState, material: Bytes, t: Table)
    requires KnownNeighbor(c, self, n, cl)
    ensures KnownNeighbor(c, self, n, MaterialPushed(c, cl, material, t).0)
  {
    hide Grid, ExpectFirst;
    PushesKeepGrid(c, cl, material, t);
  }

  lemma AnsweredKnown(c: Cipher, self: Identity, n: Identity, material: Bytes, seed: Bytes, t: Table)
    requires n != self
    ensures KnownNeighbor(c, self, n, Answered(c, n, n > self, material, seed, t).0)
  {
    hide ExpectFirst;
    var (cl, t') := MaterialPushed(c, NewCluster(n, n > self), material, t);
    PushesKeepGrid(c, NewCluster(n, n > self), material, t);
    PushesKeepGrid(c, cl, seed, t');
  }

  lemma InitiatedKnown(c: Cipher, self: Identity, n: Identity, seed: Bytes, t: Table)
    requires n != self
    ensures KnownNeighbor(c, self, n, OwnSeedPushed(c, NewCluster(n, n > self), seed, t).0)
  {
    hide ExpectFirst;
    PushesKeepGrid(c, NewCluster(n, n > self), seed, t);
  }

  lemma SentKnown(c: Cipher, ag: AgentState, n: Identity, payload: Bytes)
    requires NeighborsKnown(c, ag) && n in ag.neighbors
    ensures KnownNeighbor(c, ag.identity, n, SendTo(c, ag, n, payload).agent.neighbors[n].streams)
  {
    hide Cached, Produced;
    if Chosen(ag.neighbors[n].streams).Some? {
      ProducedIdentifier(c, ag.neighbors[n].streams.streams[Chosen(ag.neighbors[n].streams).value].value);
    }
  }

  /** An event brings nobody's key material but the partner's. */
  predicate MaterialFrom(ag: AgentState, e: Event, partner: Identity) {
    e.Receive? && e.packet.Initiation? && e.packet.recipient == ag.identity && e.packet.signed ==>
      e.packet.sender == partner
  }

  /** Where the streams of a slot after a step came from: a slot of the same neighbour, or the step's new channels. */
  lemma StepSlots(c: Cipher, ag: AgentState, e: Event, n: Identity, i: nat)
    requires NeighborsKnown(c, ag) && Step(c, ag, e).Outcome? && Live(Step(c, ag, e).agent, n, i)
    ensures var key := LiveStream(Step(c, ag, e).agent, n, i).key;
            (n, key) in NewChannels(c, ag, e) || exists j: nat :: Live(ag, n, j) && LiveStream(ag, n, j).key == key
  {
    hide Grid, Produced, ExpectFirst, HandleContent;
    var ag' := Step(c, ag, e).agent;
    if Delivers(e) {
      ContentSlots(c, ag, e.packet.identifier, e.packet.sealed, n);
      assert Live(ag, n, i);
    } else if e.Receive? && e.packet.Initiation? && n == e.packet.sender && n in ag.neighbors {
      PushedSlots(c, ag, e, i);
    } else if e.Transmit? {
      SentSlots(c, ag, e.neighbor, e.payload, n, i);
      assert Live(ag, n, i);
    } else {
      if Live(ag, n, i) {
      }
    }
  }

  lemma SentSlots(c: Cipher, ag: AgentState, to: Identity, payload: Bytes, n: Identity, i: nat)
    requires Live(SendTo(c, ag, to, payload).agent, n, i)
    ensures Live(ag, n, i) && LiveStream(ag, n, i).key == LiveStream(SendTo(c, ag, to, payload).agent, n, i).key
  {
  }

  lemma PushedSlots(c: Cipher, ag: AgentState, e: Event, i: nat)
    requires e.Receive? && e.packet.Initiation? && e.packet.sender in ag.neighbors
    requires Step(c, ag, e).Outcome? && Live(Step(c, ag, e).agent, e.packet.sender, i)
    ensures var (n, key) := (e.packet.sender, LiveStream(Step(c, ag, e).agent, e.packet.sender, i).key);
            (n, key) in NewChannels(c, ag, e) || exists j: nat :: Live(ag, n, j) && LiveStream(ag, n, j).key == key
  {
    hide ExpectFirst;
    var n := e.packet.sender;
    var streams := ag.neighbors[n].streams.streams;
    var key := LiveStream(Step(c, ag, e).agent, n, i).key;
    var channels := NewChannels(c, ag, e);
    if e.packet.recipient != ag.identity || !e.packet.signed {
      assert Live(ag, n, i);
    } else if i == CC {
      assert channels[0] == (n, key);
    } else if i == PC {
      assert channels[|channels| - 1] == (n, key);
    } else {
      assert Live(ag, n, if i == CP then CC else PC);
    }
  }

  /** So streams' channels are those used, and all with the partner. */
  lemma StepStreams(c: Cipher, ag: AgentState, e: Event, used: set<Channel>, partner: Identity)
    requires NeighborsKnown(c, ag) && LiveUsed(ag, used) && StreamsWith(ag, partner) && MaterialFrom(ag, e, partner)
    requires Step(c, ag, e).Outcome?
    ensures LiveUsed(Step(c, ag, e).agent, used + Elements(NewChannels(c, ag, e)))
    ensures StreamsWith(Step(c, ag, e).agent, partner)
  {
    NewChannelsFrom(c, ag, e, partner);
    hide Step, NewChannels, MaterialFrom, NeighborsKnown;
    var ag' := Step(c, ag, e).agent;
    forall n: Identity, i: nat | Live(ag', n, i)
      ensures (n, LiveStream(ag', n, i).key) in used + Elements(NewChannels(c, ag, e)) && n == partner
    {
      StepSlots(c, ag, e, n, i);
    }
  }

  lemma NewChannelsFrom(c: Cipher, ag: AgentState, e: Event, partner: Identity)
    requires MaterialFrom(ag, e, partner)
    ensures forall ch :: ch in NewChannels(c, ag, e) ==> ch.0 == partner
  {
  }

  lemma GenuineEitherWay(sent: Sent, x: Identity, y: Identity, sealed: Sealed)
    requires Genuine(sent, x, y, sealed)
    ensures Genuine(sent, y, x, sealed)
  {
    var m :| (m, sealed.payload) in sent && m.key == sealed.key &&
      ((m.sender == x && sealed.nonce == 2 * m.number + if y > x then 1 else 0) ||
       (m.sender == y && sealed.nonce == 2 * m.number + if x > y then 1 else 0));
    assert (m, sealed.payload) in sent;
  }

  lemma GenuineStays(sent: Sent, sent': Sent, x: Identity, y: Identity, sealed: Sealed)
    requires Genuine(sent, x, y, sealed) && sent <= sent'
    ensures Genuine(sent', x, y, sealed)
  {
    var m :| (m, sealed.payload) in sent && m.key == sealed.key &&
      ((m.sender == x && sealed.nonce == 2 * m.number + if y > x then 1 else 0) ||
       (m.sender == y && sealed.nonce == 2 * m.number + if x > y then 1 else 0));
    assert (m, sealed.payload) in sent';
  }

  lemma PacketsSoundEitherWay(w: World, x: Identity, y: Identity)
    requires PacketsSound(w, x, y)
    ensures PacketsSound(w, y, x)
  {
    hide Genuine;
    forall packet | packet in w.packets && packet.Content?
      ensures Genuine(w.sent, y, x, packet.sealed)
    {
      GenuineEitherWay(w.sent, x, y, packet.sealed);
    }
  }

  /** What a genuine packet opens as was sent by the partner under that number: one's own have the other parity. */
  lemma OpensAsSent(sent: Sent, who: Identity, partner: Identity, st: StreamState, number: nat, sealed: Sealed,
                    payload: Bytes)
    requires who != partner && Genuine(sent, who, partner, sealed) && st.neighborIsLater == (partner > who)
    requires OpenIncoming(st, number, sealed) == Some(payload)
    ensures (Numbered(partner, st.key, number), payload) in sent
  {
    var m :| (m, sealed.payload) in sent && m.key == sealed.key &&
      ((m.sender == who && sealed.nonce == 2 * m.number + if partner > who then 1 else 0) ||
       (m.sender == partner && sealed.nonce == 2 * m.number + if who > partner then 1 else 0));
    assert m.sender == partner && m.number == number;
    assert m == Numbered(partner, st.key, number);
  }

  lemma LiveDirection(c: Cipher, ag: AgentState, n: Identity, k: nat)
    requires NeighborsKnown(c, ag) && Live(ag, n, k)
    ensures LiveStream(ag, n, k).neighborIsLater == (n > ag.identity)
  {
    hide Cached;
  }

  /** What a step accepts was sent by the partner. */
  lemma NewlyAcceptedAsSent(c: Cipher, w: World, who: Identity, partner: Identity, e: Event)
    requires who != partner && PartyInvariant(c, w, who, partner) && Allowed(w, who, e) && PacketsSound(w, who, partner)
    ensures var o := Step(c, w.parties[who].agent, e);
            o.Outcome? ==> AcceptedAsSent(Logged(o.accepted), w.sent, partner)
  {
    hide HandleContent, NeighborsKnown, Genuine, AcceptedAsSent;
    var ag := w.parties[who].agent;
    var o := Step(c, ag, e);
    if o.Outcome? && o.accepted.Some? {
      StepAccepts(c, ag, e);
      var sealed := e.packet.sealed;
      var k := AcceptedOpened(c, ag, e.packet.identifier, sealed);
      var (p, payload) := o.accepted.value;
      var st := LiveStream(ag, p.streamWith, k);
      LiveDirection(c, ag, p.streamWith, k);
      assert UsesKey(w, sealed.key) by {
        assert (p.streamWith, st.key) in w.parties[who].used;
      }
      OpensAsSent(w.sent, who, partner, st, p.packetNumber, sealed, payload);
      OneAccepted(o.accepted.value, w.sent, partner);
    } else {
      NoneAccepted(w.sent, partner);
    }
  }

  lemma StepAccepts(c: Cipher, ag: AgentState, e: Event)
    requires Step(c, ag, e).Outcome? && Step(c, ag, e).accepted.Some?
    ensures Delivers(e) && Step(c, ag, e) == HandleContent(c, ag, e.packet.identifier, e.packet.sealed)
  {
    hide HandleContent;
  }

  lemma OneAccepted(entry: (ExpectedPacket, Bytes), sent: Sent, partner: Identity)
    requires entry.0.streamWith == partner &&
      (Numbered(partner, entry.0.streamKey, entry.0.packetNumber), entry.1) in sent
    ensures AcceptedAsSent([entry], sent, partner)
  {
  }

  lemma NoneAccepted(sent: Sent, partner: Identity)
    ensures AcceptedAsSent([], sent, partner)
  {
  }

  lemma AcceptedStays(log: Log, more: Log, sent: Sent, sent': Sent, partner: Identity)
    requires AcceptedAsSent(log, sent, partner) && AcceptedAsSent(more, sent, partner) && sent <= sent'
    ensures AcceptedAsSent(log + more, sent', partner)
  {
  }

  /** What a step sends: a genuine content packet, or an initiation packet of its own. */
  lemma SentPacketsSound(c: Cipher, w: World, who: Identity, partner: Identity, e: Event, packet: Packet)
    requires PartyInvariant(c, w, who, partner)
    requires Step(c, w.parties[who].agent, e).Outcome? && packet in PacketsOf(Step(c, w.parties[who].agent, e).effects)
    ensures match packet
            case Content(_, sealed, _) => Genuine(SentNow(who, w.parties[who].agent, e), who, partner, sealed)
            case Initiation(sender, recipient, _, _) => sender == who && recipient != who
  {
    hide NeighborsKnown, AcceptedAsSent, OwnSeedPushed, MaterialPushed, Answered, Got, Find;
    var ag := w.parties[who].agent;
    if packet.Content? {
      var k := Chosen(ag.neighbors[e.neighbor].streams).value;
      var st := Outbound(ag, e).value;
      assert Live(ag, e.neighbor, k);
      LiveDirection(c, ag, e.neighbor, k);
      assert (Numbered(who, st.key, st.outgoingIndex), e.payload) in SentNow(who, ag, e);
    }
  }

  lemma ActKeepsPackets(c: Cipher, w: World, who: Identity, partner: Identity, e: Event)
    requires PartyInvariant(c, w, who, partner) && PacketsSound(w, who, partner)
    ensures PacketsSound(Act(c, w, who, e), who, partner)
  {
    var w' := Act(c, w, who, e);
    var ag := w.parties[who].agent;
    hide PartyInvariant, Step, Genuine, PacketsOf, SentNow, NewChannels;
    forall packet | packet in w'.packets
      ensures match packet
              case Content(_, sealed, _) => Genuine(w'.sent, who, partner, sealed)
              case Initiation(sender, recipient, _, _) => (sender == who || sender == partner) && sender != recipient
    {
      if packet in w.packets {
        if packet.Content? {
          GenuineStays(w.sent, w'.sent, who, partner, packet.sealed);
        }
      } else {
        SentPacketsSound(c, w, who, partner, e, packet);
        if packet.Content? {
          GenuineStays(SentNow(who, ag, e), w'.sent, who, partner, packet.sealed);
        }
      }
    }
  }

  lemma ActKeepsParty(c: Cipher, w: World, who: Identity, partner: Identity, e: Event)
    requires who != partner && PartyInvariant(c, w, who, partner) && Allowed(w, who, e) && PacketsSound(w, who, partner)
    ensures PartyInvariant(c, Act(c, w, who, e), who, partner)
  {
    var party := w.parties[who];
    AllowedMaterial(w, who, partner, e);
    StepKnown(c, party.agent, e);
    if Step(c, party.agent, e).Outcome? {
      NewlyAcceptedAsSent(c, w, who, partner, e);
      StepStreams(c, party.agent, e, party.used, partner);
      hide Step, NewChannels, NeighborsKnown, LiveUsed, StreamsWith, AcceptedAsSent, SentNow;
      var o := Step(c, party.agent, e);
      AcceptedStays(party.log, Logged(o.accepted), w.sent, Act(c, w, who, e).sent, partner);
    }
  }

  lemma AllowedMaterial(w: World, who: Identity, partner: Identity, e: Event)
    requires who in w.parties && w.parties[who].agent.identity == who && Allowed(w, who, e) &&
      PacketsSound(w, who, partner)
    ensures MaterialFrom(w.parties[who].agent, e, partner)
  {
    hide Genuine;
  }

  /** The agent that does nothing meanwhile. */
  lemma OtherUnaffected(c: Cipher, w: World, who: Identity, partner: Identity, e: Event)
    requires who != partner && who in w.parties && PartyInvariant(c, w, partner, who)
    ensures PartyInvariant(c, Act(c, w, who, e), partner, who)
  {
    hide Step, NewChannels, NeighborsKnown, LiveUsed, StreamsWith, AcceptedAsSent, SentNow;
    var w' := Act(c, w, who, e);
    assert w'.parties[partner] == w.parties[partner];
    NoneAccepted(w.sent, who);
    AcceptedStays(w.parties[partner].log, [], w.sent, w'.sent, who);
    assert w.parties[partner].log + [] == w.parties[partner].log;
  }

  lemma ActParties(c: Cipher, w: World, x: Identity, y: Identity, who: Identity, e: Event)
    requires TwoParties(w, x, y) && who in w.parties
    ensures TwoParties(Act(c, w, who, e), x, y)
  {
    hide Step;
    var w' := Act(c, w, who, e);
    assert w'.parties.Keys == w.parties.Keys + {who} || w' == w;
  }

  /** Every allowed step of either agent, whatever is delivered how often, keeps the invariant of the two. */
  lemma ActInvariant(c: Cipher, w: World, x: Identity, y: Identity, who: Identity, e: Event)
    requires WorldInvariant(c, w, x, y) && Allowed(w, who, e)
    ensures WorldInvariant(c, Act(c, w, who, e), x, y)
  {
    assert who == x || who == y;
    hide PartyInvariant, Allowed, PacketsSound, Act;
    PacketsSoundEitherWay(w, x, y);
    var partner := if who == x then y else x;
    ActKeepsParty(c, w, who, partner, e);
    OtherUnaffected(c, w, who, partner, e);
    ActKeepsPackets(c, w, who, partner, e);
    PacketsSoundEitherWay(Act(c, w, who, e), who, partner);
    ActParties(c, w, x, y, who, e);
  }

  lemma {:induction false} RunInvariant(c: Cipher, w: World, x: Identity, y: Identity, actions: seq<Action>)
    requires WorldInvariant(c, w, x, y) && AllowedRun(c, w, actions)
    ensures WorldInvariant(c, RunWorld(c, w, actions), x, y)
    decreases |actions|
  {
    hide Act, WorldInvariant, Allowed;
    if actions != [] {
      var (who, e) := actions[0];
      ActInvariant(c, w, x, y, who, e);
      AllowedParty(w, who, e);
      RunInvariant(c, Act(c, w, who, e), x, y, actions[1..]);
    }
  }

  lemma AllowedParty(w: World, who: Identity, e: Event)
    requires Allowed(w, who, e)
    ensures who in w.parties
  {
  }

  /**
   * Two agents, whatever the network does, duplicated initiation packets included: what one accepts under a number is
   * what the other sent as that number, credited to it.
   */
  lemma TwoAgentSafety(c: Cipher, x: Identity, y: Identity, actions: seq<Action>, who: Identity, partner: Identity)
    requires x != y && AllowedRun(c, Start(x, y), actions)
    requires (who == x && partner == y) || (who == y && partner == x)
    ensures var w := RunWorld(c, Start(x, y), actions);
            who in w.parties && AcceptedAsSent(w.parties[who].log, w.sent, partner)
  {
    hide RunWorld, AllowedRun, AcceptedAsSent, NeighborsKnown, LiveUsed;
    StartInvariant(c, x, y);
    RunInvariant(c, Start(x, y), x, y, actions);
  }
}
