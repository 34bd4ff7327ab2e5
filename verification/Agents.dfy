/**
 * An agent (`src/agent.rs`): what it does with a packet that comes in, with a request to start a stream, and
 * with a payload to send.
 *
 * Packets are taken apart: a content packet is its identifier, its sealed payload and its length in bytes, an
 * initiation packet names who signed it, for whom it was sealed, and the key material it carries. Timestamps are never
 * refused.
 */
module Agents {
  import opened Basics
  import opened ExpectedPackets
  import opened Streams
  import opened Clusters
  import ContentPackets

  type Address = nat

  datatype Packet =
    | Content(identifier: nat, sealed: Sealed, length: nat)
    | Initiation(sender: Identity, recipient: Identity, material: Bytes, signed: bool)

  datatype Task = Task(requestor: Identity, program: Bytes)

  datatype Effect = Send(to: Address, packet: Packet) | Execute(task: Task)

  datatype NeighborState = NeighborState(address: Address, streams: ClusterState)

  datatype AgentState = AgentState(
    identity: Identity,
    neighbors: map<Identity, NeighborState>,
    upcoming: Table)

  datatype HandleError =
    | UnrecognizedPacket | StreamNotReady | InternalLimitExceeded | BadChecksum | BadSignature | InternalError
    | CannotStreamWithSelf | NotANeighbor | VmCreationFailed

  /** What a step leaves: the agent, what it did to its environment, how it ended, and the packet it accepted. */
  datatype Outcome =
    | Outcome(agent: AgentState, effects: seq<Effect>, error: Option<HandleError>,
              accepted: Option<(ExpectedPacket, Bytes)>)
    | Panicked

  const MEMORY_MAX: nat := 1024 * 1024
  const SEND_THRESHOLD: nat := 8 + 4 + 16 + 200
  const INITIATION_LEN: nat := 32 + 104 + 16

  function NewAgent(identity: Identity): AgentState {
    AgentState(identity, map[], map[])
  }

  datatype Finding = Nothing | Stranger | Opened(packet: ExpectedPacket, payload: Bytes)

  /** The first listed packet whose stream opens the payload; a packet expected from a stranger ends the search. */
  function Find(neighbors: map<Identity, NeighborState>, list: seq<ExpectedPacket>, sealed: Sealed): (r: Finding)
    ensures r.Opened? ==> r.packet in list && r.packet.streamWith in neighbors
  {
    if list == [] then Nothing
    else if list[0].streamWith !in neighbors then Stranger
    else
      match OpenFrom(neighbors[list[0].streamWith].streams.streams, list[0].streamKey, list[0].packetNumber, sealed, 0)
      case Some(payload) => Opened(list[0], payload)
      case None => Find(neighbors, list[1..], sealed)
  }

  function Refused(ag: AgentState, error: HandleError): Outcome {
    Outcome(ag, [], Some(error), None)
  }

  /** What `handle_contentful_packet` does with a packet that decodes. */
  function HandleContent(c: Cipher, ag: AgentState, identifier: nat, sealed: Sealed): Outcome {
    match Find(ag.neighbors, Listed(ag.upcoming, identifier), sealed)
    case Nothing => Refused(ag, UnrecognizedPacket)
    case Stranger => Refused(ag, InternalError)
    case Opened(p, payload) =>
      var n := ag.neighbors[p.streamWith];
      match Got(c, n.streams, p, identifier, ag.upcoming)
      case None => Panicked
      case Some((cl, t)) =>
        var ag' := ag.(neighbors := ag.neighbors[p.streamWith := n.(streams := cl)], upcoming := t);
        if |payload| / 4 > MEMORY_MAX then Outcome(ag', [], Some(VmCreationFailed), Some((p, payload)))
        else Outcome(ag', [Execute(Task(p.streamWith, payload))], None, Some((p, payload)))
  }

  function Translated(error: ContentPackets.PacketError): HandleError {
    if error == ContentPackets.InternalError then InternalError else InternalLimitExceeded
  }

  /** `handle_contentful_packet`. */
  function HandleContentful(c: Cipher, ag: AgentState, packet: Packet): Outcome
    requires packet.Content?
  {
    match ContentPackets.Undecodable(packet.length)
    case Some(error) => Refused(ag, Translated(error))
    case None => HandleContent(c, ag, packet.identifier, packet.sealed)
  }

  /** A cluster for someone unknown who sent us key material, answered with a seed of ours. */
  function Answered(c: Cipher, sender: Identity, later: bool, material: Bytes, seed: Bytes, t: Table)
    : (ClusterState, Table)
  {
    var (cl, t') := MaterialPushed(c, NewCluster(sender, later), material, t);
    OwnSeedPushed(c, cl, seed, t')
  }

  /** `handle_initiation_packet`. The seed is only drawn for a sender not yet known. */
  function HandleInitiation(c: Cipher, ag: AgentState, packet: Packet, source: Address, seed: Bytes): Outcome
    requires packet.Initiation?
  {
    if packet.recipient != ag.identity then Refused(ag, BadChecksum)
    else if !packet.signed then Refused(ag, BadSignature)
    else if packet.sender in ag.neighbors then
      var (cl, t) := MaterialPushed(c, ag.neighbors[packet.sender].streams, packet.material, ag.upcoming);
      Outcome(ag.(neighbors := ag.neighbors[packet.sender := NeighborState(source, cl)], upcoming := t), [], None, None)
    else if packet.sender == ag.identity then Refused(ag, CannotStreamWithSelf)
    else
      var (cl, t) := Answered(c, packet.sender, packet.sender > ag.identity, packet.material, seed, ag.upcoming);
      Outcome(ag.(neighbors := ag.neighbors[packet.sender := NeighborState(source, cl)], upcoming := t),
              [Send(source, Initiation(ag.identity, packet.sender, c.publicOf(seed), true))], None, None)
  }

  /** `initiate_stream_with`: any streams already shared with the neighbour are dropped. */
  function InitiateStream(c: Cipher, ag: AgentState, neighbor: Identity, address: Address, seed: Bytes): Outcome {
    if neighbor == ag.identity then Refused(ag, CannotStreamWithSelf)
    else
      var (cl, t) := OwnSeedPushed(c, NewCluster(neighbor, neighbor > ag.identity), seed, ag.upcoming);
      Outcome(ag.(neighbors := ag.neighbors[neighbor := NeighborState(address, cl)], upcoming := t),
              [Send(address, Initiation(ag.identity, neighbor, c.publicOf(seed), true))], None, None)
  }

  /** Why a payload cannot be made into a packet, found out after its identifier is used up. */
  function Unsendable(payload: Bytes): Option<HandleError> {
    match ContentPackets.Unprepared(|payload| + SEND_THRESHOLD, |payload|)
    case Some(error) => Some(Translated(error))
    case None => None
  }

  /** `send_to`. */
  function SendTo(c: Cipher, ag: AgentState, neighbor: Identity, payload: Bytes): Outcome {
    if neighbor !in ag.neighbors then Refused(ag, NotANeighbor)
    else
      var n := ag.neighbors[neighbor];
      match Chosen(n.streams)
      case None => Refused(ag, StreamNotReady)
      case Some(i) =>
        var st := n.streams.streams[i].value;
        var (identifier, nonce, st') := Produced(c, st);
        var cl := n.streams.(streams := n.streams.streams[i := Some(st')]);
        var ag' := ag.(neighbors := ag.neighbors[neighbor := n.(streams := cl)]);
        if Unsendable(payload).Some? then Outcome(ag', [], Unsendable(payload), None)
        else
          var packet := Content(identifier, Sealed(st.key, nonce, payload), |payload| + SEND_THRESHOLD);
          Outcome(ag', [Send(n.address, packet)], None, None)
  }

  datatype Event =
    | Receive(packet: Packet, source: Address, seed: Bytes)
    | Initiate(neighbor: Identity, address: Address, seed: Bytes)
    | Transmit(neighbor: Identity, payload: Bytes)

  /** `handle_packet`: what is too short for a content packet is taken for an initiation packet, which it is not. */
  function HandlePacket(c: Cipher, ag: AgentState, packet: Packet, source: Address, seed: Bytes): Outcome {
    if packet.Initiation? then HandleInitiation(c, ag, packet, source, seed)
    else if packet.length >= SEND_THRESHOLD then HandleContentful(c, ag, packet)
    else Refused(ag, if packet.length < INITIATION_LEN then InternalError else BadChecksum)
  }

  function Step(c: Cipher, ag: AgentState, e: Event): Outcome {
    match e
    case Receive(packet, source, seed) => HandlePacket(c, ag, packet, source, seed)
    case Initiate(neighbor, address, seed) => InitiateStream(c, ag, neighbor, address, seed)
    case Transmit(neighbor, payload) => SendTo(c, ag, neighbor, payload)
  }

  /** An event that hands over a content packet of a length that decodes. */
  predicate Delivers(e: Event) {
    e.Receive? && e.packet.Content? && SEND_THRESHOLD <= e.packet.length < U32_LIMIT
  }

  function ChannelsOf(n: Identity, st: Option<StreamState>): seq<Channel> {
    if st.Some? then [(n, st.value.key)] else []
  }

  /** The channels of the streams that key material makes a cluster create, in the order it creates them. */
  function MaterialChannels(c: Cipher, n: Identity, cl: ClusterState, material: Bytes): seq<Channel> {
    ChannelsOf(n, MaybeStream(c, cl.ownCurrent, Some(material), cl.neighborIsLater)) +
    ChannelsOf(n, MaybeStream(c, cl.ownPrevious, Some(material), cl.neighborIsLater))
  }

  /** The channels of the streams that a step creates. */
  function NewChannels(c: Cipher, ag: AgentState, e: Event): seq<Channel> {
    match e
    case Receive(Initiation(sender, recipient, material, signed), _, seed) =>
      if recipient != ag.identity || !signed then []
      else if sender in ag.neighbors then MaterialChannels(c, sender, ag.neighbors[sender].streams, material)
      else if sender == ag.identity then []
      else [(sender, c.exchange(material, seed))]
    case _ => []
  }

  predicate NoRepeats<T(==)>(s: seq<T>) {
    forall i: nat, j: nat :: i < j < |s| ==> s[i] != s[j]
  }

  /** The channels of a step are new: different from each other and from every one the agent had before. */
  predicate FreshKeys(c: Cipher, ag: AgentState, e: Event, used: set<Channel>) {
    NoRepeats(NewChannels(c, ag, e)) && forall ch :: ch in NewChannels(c, ag, e) ==> ch !in used
  }

  function Elements<T(==)>(s: seq<T>): set<T> {
    set x | x in s
  }
}
