/**
 * The agent as it runs (`src/agent.rs`): the clusters of its neighbours are objects of their own, and all of them
 * change the one table of expected packets.
 */
module AgentObject {
  import opened Basics
  import opened ExpectedPackets
  import opened Streams
  import opened Clusters
  import opened Agents
  import ContentPackets

  datatype Neighbor = Neighbor(address: Address, streams: StreamCluster)

  ghost predicate NoneShared(footprints: map<Identity, set<object>>) {
    forall m, n :: m in footprints && n in footprints && m != n ==> footprints[m] !! footprints[n]
  }

  ghost function Objects(footprints: map<Identity, set<object>>): set<object> {
    set n, o | n in footprints && o in footprints[n] :: o
  }

  lemma FootprintIs(streams: StreamCluster)
    ensures forall o :: o in streams.Footprint() ==> allocated(o) && (o is StreamCluster || o is Stream)
  {
  }

  twostate lemma WasAllocated(streams: StreamCluster)
    ensures forall o :: o in old(streams.Footprint()) ==> old(allocated(o))
  {
  }

  /** A cluster none of whose objects changed. */
  twostate lemma ClusterKept(streams: StreamCluster)
    requires old(streams.Valid()) && unchanged(old(streams.Footprint()))
    ensures streams.Valid() && streams.Footprint() == old(streams.Footprint())
    ensures streams.Value() == old(streams.Value())
  {
  }

  /** What the agent asked of its surroundings, in order. */
  class Environment {
    var effects: seq<Effect>

    constructor ()
      ensures effects == []
    {
      effects := [];
    }

    method Send(to: Address, packet: Packet)
      modifies this
      ensures effects == old(effects) + [Agents.Send(to, packet)]
    {
      effects := effects + [Agents.Send(to, packet)];
    }

    method Execute(task: Task)
      modifies this
      ensures effects == old(effects) + [Agents.Execute(task)]
    {
      effects := effects + [Agents.Execute(task)];
    }
  }

  class Agent {
    const identity: Identity
    var neighbors: map<Identity, Neighbor>
    const upcomingPackets: ExpectedPacketSet
    const environment: Environment

    ghost function NeighborClusters(): set<StreamCluster>
      reads this
    {
      set n | n in neighbors :: neighbors[n].streams
    }

    /** The objects each neighbour is made of. */
    ghost function Footprints(): map<Identity, set<object>>
      reads this, NeighborClusters()
    {
      map n | n in neighbors :: neighbors[n].streams.Footprint()
    }

    ghost function Parts(): set<object>
      reads this, NeighborClusters()
    {
      Objects(Footprints())
    }

    /** No two neighbours share an object. */
    ghost predicate Valid()
      reads this, NeighborClusters()
    {
      NoneShared(Footprints()) && forall n :: n in neighbors ==> neighbors[n].streams.Valid()
    }

    ghost function State(n: Identity): NeighborState
      requires n in neighbors
      reads this, neighbors[n].streams.Footprint()
    {
      NeighborState(neighbors[n].address, neighbors[n].streams.Value())
    }

    ghost function States(): map<Identity, NeighborState>
      reads this, NeighborClusters(), Parts()
    {
      assert forall n :: n in neighbors ==> Footprints()[n] <= Parts();
      map n | n in neighbors :: State(n)
    }

    ghost function Value(): AgentState
      reads this, upcomingPackets, NeighborClusters(), Parts()
    {
      AgentState(identity, States(), upcomingPackets.inner)
    }

    constructor (self: Identity)
      ensures Valid() && Value() == NewAgent(self) && environment.effects == []
      ensures fresh(upcomingPackets) && fresh(environment) && Parts() == {}
    {
      identity := self;
      neighbors := map[];
      upcomingPackets := new ExpectedPacketSet();
      environment := new Environment();
    }
    /** A neighbour not touched: its objects are the same, and say the same. */
    twostate lemma NeighborKept(n: Identity)
      requires old(Valid()) && n in neighbors && n in old(neighbors) && neighbors[n] == old(neighbors[n])
      requires unchanged(old(neighbors[n].streams.Footprint()))
      ensures neighbors[n].streams.Valid()
      ensures Footprints()[n] == old(Footprints()[n]) && State(n) == old(State(n))
    {
      hide StreamCluster.Footprint, StreamCluster.Value, StreamCluster.Valid;
      ClusterKept(neighbors[n].streams);
    }

    /** Every neighbour but one has the objects and the state it had. */
    twostate predicate OthersKept(n: Identity)
      reads this, NeighborClusters(), Parts()
    {
      n in neighbors && neighbors.Keys == old(neighbors.Keys) + {n} &&
      forall m :: m in neighbors && m != n ==>
        neighbors[m].streams.Valid() && Footprints()[m] == old(Footprints()[m]) && State(m) == old(State(m))
    }

    twostate lemma OnlyItsState(n: Identity)
      requires OthersKept(n)
      ensures States() == old(States())[n := State(n)]
    {
      hide State, Footprints, Parts;
    }

    twostate lemma OnlyItsObjects(n: Identity)
      requires OthersKept(n)
      ensures Footprints() == old(Footprints())[n := Footprints()[n]]
    {
      hide State, StreamCluster.Footprint, StreamCluster.Valid;
    }

    /** When one neighbour alone changed, and its objects are its own or new, no object came to be shared. */
    twostate lemma OnlyOneChanged(n: Identity)
      requires old(Valid()) && OthersKept(n) && neighbors[n].streams.Valid()
      requires forall o :: o in Footprints()[n] ==> fresh(o) || (n in old(neighbors) && o in old(Footprints()[n]))
      ensures Valid() && fresh(Parts() - old(Parts()))
    {
      hide State, StreamCluster.Footprint, StreamCluster.Value, StreamCluster.Valid;
      OnlyItsObjects(n);
      forall m | m in old(neighbors) && m != n
        ensures old(Footprints()[m]) !! Footprints()[n]
      {
        WasAllocated(old(neighbors[m].streams));
      }
    }

    /** The objects of every neighbour but one. */
    ghost function Others(n: Identity): set<object>
      reads this, NeighborClusters()
    {
      set m, o | m in neighbors && m != n && o in neighbors[m].streams.Footprint() :: o
    }

    /** One neighbour's objects are none of the others', nor the table. */
    lemma OthersApart(n: Identity)
      requires Valid() && n in neighbors
      ensures neighbors[n].streams.Valid() && neighbors[n].streams.Footprint() <= Parts()
      ensures neighbors[n].streams.Footprint() !! Others(n)
      ensures forall s :: s in neighbors[n].streams.Slots() && s != null ==> s in neighbors[n].streams.Footprint()
    {
      hide StreamCluster.Footprint, StreamCluster.Valid;
      assert Footprints()[n] == neighbors[n].streams.Footprint();
      forall m | m in neighbors && m != n
        ensures neighbors[m].streams.Footprint() !! neighbors[n].streams.Footprint()
      {
        assert Footprints()[m] == neighbors[m].streams.Footprint();
      }
    }

    /** What the neighbours are made of. */
    lemma PartsAre()
      ensures forall o :: o in Parts() ==> allocated(o) && (o is StreamCluster || o is Stream)
      ensures forall o: object :: o in NeighborClusters() ==> allocated(o) && o is StreamCluster
    {
      hide StreamCluster.Footprint;
      forall n | n in neighbors
        ensures forall o :: o in neighbors[n].streams.Footprint() ==>
          allocated(o) && (o is StreamCluster || o is Stream)
      {
        FootprintIs(neighbors[n].streams);
      }
    }

    /** What the others are made of. */
    lemma OthersAre(n: Identity)
      ensures forall o :: o in Others(n) ==> allocated(o) && (o is StreamCluster || o is Stream)
    {
      PartsAre();
    }

    /** When the others' objects are untouched, and one neighbour's are its own or new, it alone changed. */
    twostate lemma OneChanged(n: Identity)
      requires old(Valid()) && n in neighbors && neighbors.Keys == old(neighbors.Keys) + {n}
      requires forall m :: m in neighbors && m != n ==> neighbors[m] == old(neighbors[m])
      requires unchanged(old(Others(n))) && neighbors[n].streams.Valid()
      requires forall o :: o in neighbors[n].streams.Footprint() ==>
        fresh(o) || (n in old(neighbors) && o in old(neighbors[n].streams.Footprint()))
      ensures Valid() && fresh(Parts() - old(Parts()))
      ensures States() == old(States())[n := State(n)]
    {
      hide StreamCluster.Footprint, StreamCluster.Value, StreamCluster.Valid;
      forall m | m in neighbors && m != n
        ensures neighbors[m].streams.Valid()
        ensures Footprints()[m] == old(Footprints()[m]) && State(m) == old(State(m))
      {
        assert old(neighbors[m].streams.Footprint()) <= old(Others(n));
        NeighborKept(m);
      }
      OnlyItsState(n);
      OnlyOneChanged(n);
    }

    /** The neighbour's cluster produces the identifier of a packet to it. */
    method ProduceFor(c: Cipher, neighbor: Identity) returns (r: Option<(nat, Bytes, nat)>)
      requires Valid() && neighbor in neighbors
      modifies Parts()
      ensures Valid() && fresh(Parts() - old(Parts())) && neighbors == old(neighbors)
      ensures
        var n := old(Value()).neighbors[neighbor];
        match Chosen(n.streams)
        case None => r == None && Value() == old(Value())
        case Some(i) =>
          var st := n.streams.streams[i].value;
          var (identifier, nonce, st') := Produced(c, st);
          var n' := n.(streams := n.streams.(streams := n.streams.streams[i := Some(st')]));
          r == Some((identifier, st.key, nonce)) &&
          Value() == old(Value()).(neighbors := old(Value()).neighbors[neighbor := n'])
    {
      hide StreamCluster.Footprint, StreamCluster.Value, StreamCluster.Valid;
      hide Produced, Chosen, Footprints, Parts, Others, Valid;
      OthersApart(neighbor);
      OthersAre(neighbor);
      var n := neighbors[neighbor];
      r := n.streams.ProduceOutgoingIdentifier(c);
      n.streams.OldOrNew();
      OneChanged(neighbor);
    }

    function AddressOf(neighbor: Identity): (r: Address)
      requires neighbor in neighbors
      reads this, NeighborClusters(), Parts()
      ensures r == Value().neighbors[neighbor].address
    {
      neighbors[neighbor].address
    }

    method SendTo(c: Cipher, neighbor: Identity, payload: Bytes) returns (error: Option<HandleError>)
      requires Valid()
      modifies environment, Parts()
      ensures Valid() && fresh(Parts() - old(Parts()))
      ensures old(environment.effects) <= environment.effects
      ensures Outcome(Value(), environment.effects[|old(environment.effects)|..], error, None) ==
              old(Agents.SendTo(c, Value(), neighbor, payload))
    {
      hide Produced, Unsendable, Chosen, Valid, Parts, Footprints, State;
      if neighbor !in neighbors {
        return Some(NotANeighbor);
      }
      PartsAre();
      var address := AddressOf(neighbor);
      var produced := ProduceFor(c, neighbor);
      if produced.None? {
        return Some(StreamNotReady);
      }
      var (identifier, key, nonce) := produced.value;
      error := Unsendable(payload);
      if error.None? {
        PartsAre();
        environment.Send(address,
                         Content(identifier, Sealed(key, nonce, payload), |payload| + SEND_THRESHOLD));
      }
    }

    method InitiateStreamWith(c: Cipher, neighbor: Identity, address: Address,
                              seed: Bytes) returns (error: Option<HandleError>)
      requires Valid()
      modifies this, upcomingPackets, environment
      ensures Valid() && fresh(Parts() - old(Parts()))
      ensures old(environment.effects) <= environment.effects
      ensures Outcome(Value(), environment.effects[|old(environment.effects)|..], error, None) ==
              old(InitiateStream(c, Value(), neighbor, address, seed))
    {
      hide StreamCluster.Footprint, StreamCluster.Value, StreamCluster.Valid;
      hide OwnSeedPushed, Footprints, Parts, Others, Valid;
      if neighbor == identity {
        return Some(CannotStreamWithSelf);
      }
      OthersAre(neighbor);
      var cluster := new StreamCluster(neighbor, neighbor > identity);
      label made:
      cluster.PushOwnSeed(c, seed, upcomingPackets);
      cluster.OldOrNew@made();
      FootprintIs(cluster);
      environment.Send(address, Initiation(identity, neighbor, c.publicOf(seed), true));
      neighbors := neighbors[neighbor := Neighbor(address, cluster)];
      OneChanged(neighbor);
      error := None;
    }

    /** A known neighbour's cluster takes new key material. */
    method PushMaterialOf(c: Cipher, neighbor: Identity, source: Address, material: Bytes)
      requires Valid() && neighbor in neighbors
      modifies this, upcomingPackets, Parts()
      ensures Valid() && fresh(Parts() - old(Parts()))
      ensures
        var n := old(Value()).neighbors[neighbor];
        var (cl, t) := MaterialPushed(c, n.streams, material, old(Value()).upcoming);
        Value() == old(Value()).(neighbors := old(Value()).neighbors[neighbor := NeighborState(source, cl)],
                                 upcoming := t)
    {
      hide StreamCluster.Footprint, StreamCluster.Value, StreamCluster.Valid;
      hide MaterialPushed, Footprints, Parts, Others, Valid;
      OthersApart(neighbor);
      OthersAre(neighbor);
      var streams := neighbors[neighbor].streams;
      neighbors := neighbors[neighbor := Neighbor(source, streams)];
      FootprintIs(streams);
      label before:
      streams.PushNeighborKeyMaterial(c, material, upcomingPackets);
      streams.OldOrNew@before();
      OneChanged(neighbor);
    }

    /** The cluster of a neighbour, and the table, hear of a packet that came in. */
    method GotIncomingPacket(c: Cipher, packet: ExpectedPacket, identifier: nat)
      requires Valid() && packet.streamWith in neighbors
      requires Got(c, Value().neighbors[packet.streamWith].streams, packet, identifier, upcomingPackets.inner).Some?
      modifies upcomingPackets, Parts()
      ensures Valid() && fresh(Parts() - old(Parts()))
      ensures
        var n := old(Value()).neighbors[packet.streamWith];
        var (cl, t) := Got(c, n.streams, packet, identifier, old(Value()).upcoming).value;
        Value() == old(Value()).(neighbors := old(Value()).neighbors[packet.streamWith := n.(streams := cl)],
                                 upcoming := t)
    {
      hide StreamCluster.Footprint, StreamCluster.Value, StreamCluster.Valid;
      hide Got, Footprints, Parts, Others, Valid;
      OthersApart(packet.streamWith);
      OthersAre(packet.streamWith);
      var streams := neighbors[packet.streamWith].streams;
      streams.GotIncomingPacket(c, packet, identifier, upcomingPackets);
      streams.OldOrNew();
      OneChanged(packet.streamWith);
    }

    method HandleInitiationPacket(c: Cipher, packet: Packet, source: Address,
                                  seed: Bytes) returns (error: Option<HandleError>)
      requires Valid() && packet.Initiation?
      modifies this, upcomingPackets, environment, Parts()
      ensures Valid() && fresh(Parts() - old(Parts()))
      ensures old(environment.effects) <= environment.effects
      ensures Outcome(Value(), environment.effects[|old(environment.effects)|..], error, None) ==
              old(HandleInitiation(c, Value(), packet, source, seed))
    {
      hide StreamCluster.Footprint, StreamCluster.Value, StreamCluster.Valid;
      hide MaterialPushed, OwnSeedPushed, Footprints, Parts, Others, Valid;
      if packet.recipient != identity {
        return Some(BadChecksum);
      }
      if !packet.signed {
        return Some(BadSignature);
      }
      if packet.sender in neighbors {
        PartsAre();
        PushMaterialOf(c, packet.sender, source, packet.material);
      } else {
        if packet.sender == identity {
          return Some(CannotStreamWithSelf);
        }
        OthersAre(packet.sender);
        environment.Send(source, Initiation(identity, packet.sender, c.publicOf(seed), true));
        var cluster := new StreamCluster(packet.sender, packet.sender > identity);
        label made:
        cluster.PushNeighborKeyMaterial(c, packet.material, upcomingPackets);
        cluster.PushOwnSeed(c, seed, upcomingPackets);
        cluster.OldOrNew@made();
        FootprintIs(cluster);
        neighbors := neighbors[packet.sender := Neighbor(source, cluster)];
        OneChanged(packet.sender);
      }
      error := None;
    }

    /** The search for a listed packet whose stream opens the payload. */
    method FindOpener(list: seq<ExpectedPacket>, sealed: Sealed) returns (r: Finding)
      requires Valid()
      ensures r == Find(Value().neighbors, list, sealed)
      ensures r.Opened? ==> r.packet.streamWith in neighbors
    {
      hide StreamCluster.Footprint, StreamCluster.Value, StreamCluster.Valid;
      hide Footprints, Parts, Valid, OpenFrom;
      ghost var known := Value().neighbors;
      PartsAre();
      var i := 0;
      while i < |list|
        invariant i <= |list| && known == Value().neighbors
        invariant Find(known, list, sealed) == Find(known, list[i..], sealed)
      {
        var expected := list[i];
        assert list[i..][0] == expected && list[i..][1..] == list[i + 1..];
        if expected.streamWith !in neighbors {
          return Stranger;
        }
        var streams := neighbors[expected.streamWith].streams;
        FootprintIs(streams);
        assert known[expected.streamWith].streams == streams.Value();
        var payload := streams.DecryptIncomingPayload(expected.streamKey, expected.packetNumber, sealed);
        if payload.Some? {
          return Opened(expected, payload.value);
        }
        i := i + 1;
      }
      r := Nothing;
    }

    /**
     * The source panics where the packet it found is beyond the stream's window, so it is only called where none is.
     */
    method HandleContentfulPacket(c: Cipher, packet: Packet)
      returns (error: Option<HandleError>, ghost accepted: Option<(ExpectedPacket, Bytes)>)
      requires Valid() && packet.Content? && HandleContentful(c, Value(), packet).Outcome?
      modifies upcomingPackets, environment, Parts()
      ensures Valid() && fresh(Parts() - old(Parts()))
      ensures old(environment.effects) <= environment.effects
      ensures Outcome(Value(), environment.effects[|old(environment.effects)|..], error, accepted) ==
              old(HandleContentful(c, Value(), packet))
    {
      hide StreamCluster.Footprint, StreamCluster.Value, StreamCluster.Valid;
      hide Footprints, Parts, Valid, Got, Find, State, Listed, Translated, ContentPackets.Undecodable;
      accepted := None;
      PartsAre();
      var undecodable := ContentPackets.Undecodable(packet.length);
      if undecodable.Some? {
        return Some(Translated(undecodable.value)), None;
      }
      var found := FindOpener(Listed(upcomingPackets.inner, packet.identifier), packet.sealed);
      match found {
        case Nothing =>
          error := Some(UnrecognizedPacket);
        case Stranger =>
          error := Some(InternalError);
        case Opened(expected, payload) =>
          accepted := Some((expected, payload));
          GotIncomingPacket(c, expected, packet.identifier);
          PartsAre();
          if |payload| / 4 > MEMORY_MAX {
            return Some(VmCreationFailed), accepted;
          }
          environment.Execute(Task(expected.streamWith, payload));
          error := None;
      }
    }

    method HandlePacket(c: Cipher, packet: Packet, source: Address, seed: Bytes)
      returns (error: Option<HandleError>, ghost accepted: Option<(ExpectedPacket, Bytes)>)
      requires Valid() && Agents.HandlePacket(c, Value(), packet, source, seed).Outcome?
      modifies this, upcomingPackets, environment, Parts()
      ensures Valid() && fresh(Parts() - old(Parts()))
      ensures old(environment.effects) <= environment.effects
      ensures Outcome(Value(), environment.effects[|old(environment.effects)|..], error, accepted) ==
              old(Agents.HandlePacket(c, Value(), packet, source, seed))
    {
      hide Footprints, Parts, Valid, HandleContentful, HandleInitiation, Value;
      accepted := None;
      if packet.Initiation? {
        error := HandleInitiationPacket(c, packet, source, seed);
      } else if packet.length >= SEND_THRESHOLD {
        error, accepted := HandleContentfulPacket(c, packet);
      } else {
        error := Some(if packet.length < INITIATION_LEN then InternalError else BadChecksum);
      }
    }
  }
}
