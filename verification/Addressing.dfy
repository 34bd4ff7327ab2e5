/**
 * Where an agent sends: to each neighbour at the address its latest signed initiation packet came from, or that streams
 * were last initiated at, whichever was later.
 */
module Addressing {
  import opened Basics
  import opened ExpectedPackets
  import opened Streams
  import opened Clusters
  import opened Agents
  import opened Runs

  /** The address of `n` that an event tells an agent, if it tells one. */
  function Tells(self: Identity, n: Identity, e: Event): Option<Address> {
    match e
    case Initiate(neighbor, address, _) => if neighbor == n && n != self then Some(address) else None
    case Receive(Initiation(sender, recipient, _, signed), source, _) =>
      if sender == n && n != self && recipient == self && signed then Some(source) else None
    case _ => None
  }

  /** The run goes on to its end. */
  predicate NeverPanics(c: Cipher, ag: AgentState, events: seq<Event>)
    decreases |events|
  {
    events == [] ||
    (Step(c, ag, events[0]).Outcome? && NeverPanics(c, Step(c, ag, events[0]).agent, events[1..]))
  }

  /** What one step does to an agent's addresses. */
  lemma StepAddress(c: Cipher, ag: AgentState, e: Event, n: Identity)
    requires Step(c, ag, e).Outcome?
    requires forall m :: m in ag.neighbors ==> m != ag.identity
    ensures var ag' := Step(c, ag, e).agent;
            ag'.identity == ag.identity && (forall m :: m in ag'.neighbors ==> m != ag.identity) &&
            (n in ag'.neighbors <==> n in ag.neighbors || Tells(ag.identity, n, e).Some?) &&
            (n in ag'.neighbors ==>
              ag'.neighbors[n].address ==
                match Tells(ag.identity, n, e)
                case Some(a) => a
                case None => ag.neighbors[n].address)
  {
    hide Find, Got, MaterialPushed, OwnSeedPushed, Produced, Chosen, Unsendable;
  }

  /** The last event of a run that tells an address of `n`. */
  predicate LastTold(self: Identity, n: Identity, events: seq<Event>, i: nat) {
    i < |events| && Tells(self, n, events[i]).Some? &&
    forall j :: i < j < |events| ==> Tells(self, n, events[j]).None?
  }

  lemma {:induction false} RunAddress(c: Cipher, ag: AgentState, events: seq<Event>, n: Identity)
    requires NeverPanics(c, ag, events)
    requires forall m :: m in ag.neighbors ==> m != ag.identity
    ensures var ag' := AgentAfter(c, ag, events);
            ag'.identity == ag.identity &&
            (forall i: nat :: LastTold(ag.identity, n, events, i) ==>
              n in ag'.neighbors && Some(ag'.neighbors[n].address) == Tells(ag.identity, n, events[i])) &&
            ((forall i: nat :: i < |events| ==> Tells(ag.identity, n, events[i]).None?) ==>
              (n in ag'.neighbors <==> n in ag.neighbors) &&
              (n in ag'.neighbors ==> ag'.neighbors[n].address == ag.neighbors[n].address))
    decreases |events|
  {
    hide Step, Tells;
    if events != [] {
      var rest, self := events[1..], ag.identity;
      StepAddress(c, ag, events[0], n);
      RunAddress(c, Step(c, ag, events[0]).agent, rest, n);
      forall i: nat | LastTold(self, n, events, i)
        ensures i == 0 ==> forall j: nat :: j < |rest| ==> Tells(self, n, rest[j]).None?
        ensures i > 0 ==> LastTold(self, n, rest, i - 1) && rest[i - 1] == events[i]
      {
        forall j: nat | j < |rest| && j >= i
          ensures Tells(self, n, rest[j]).None?
        {
          assert rest[j] == events[j + 1];
        }
      }
      if forall i: nat :: i < |events| ==> Tells(self, n, events[i]).None? {
        assert Tells(self, n, events[0]).None?;
      }
    }
  }

  /** If any event tells an address, one is the last to. */
  lemma {:induction false} SomeLastTold(self: Identity, n: Identity, events: seq<Event>, i: nat) returns (k: nat)
    requires i < |events| && Tells(self, n, events[i]).Some?
    ensures LastTold(self, n, events, k)
    decreases |events| - i
  {
    if j: nat :| i < j < |events| && Tells(self, n, events[j]).Some? {
      k := SomeLastTold(self, n, events, j);
    } else {
      k := i;
    }
  }

  /** What a step sends goes to the address that the event tells, or, of a payload, to the address known. */
  lemma SendsTo(c: Cipher, ag: AgentState, e: Event, effect: Effect)
    requires Step(c, ag, e).Outcome? && effect in Step(c, ag, e).effects && effect.Send?
    ensures if e.Transmit? then e.neighbor in ag.neighbors && effect.to == ag.neighbors[e.neighbor].address
            else exists n :: Tells(ag.identity, n, e) == Some(effect.to)
  {
    hide Find, Got, MaterialPushed, OwnSeedPushed, Produced, Chosen, Unsendable;
    if e.Initiate? {
      assert Tells(ag.identity, e.neighbor, e) == Some(effect.to);
    } else if e.Receive? && e.packet.Initiation? {
      assert Tells(ag.identity, e.packet.sender, e) == Some(effect.to);
    }
  }

  lemma TransmitSends(c: Cipher, ag: AgentState, n: Identity, payload: Bytes)
    ensures var sent := Step(c, ag, Transmit(n, payload));
            sent.Outcome? && |sent.effects| <= 1 && forall effect :: effect in sent.effects ==> effect.Send?
  {
    hide Produced, Chosen, Unsendable;
  }

  /**
   * After any run, whatever packets it brought and whatever keys they reused, an agent knows exactly the neighbours
   * whose address it was told, and sends to each at the address told last.
   */
  lemma AddressesFollow(c: Cipher, identity: Identity, events: seq<Event>, n: Identity, payload: Bytes)
    requires NeverPanics(c, NewAgent(identity), events)
    ensures var ag := AgentAfter(c, NewAgent(identity), events);
            (n in ag.neighbors <==> exists i: nat :: LastTold(identity, n, events, i)) &&
            forall i: nat :: LastTold(identity, n, events, i) ==>
              var sent := Step(c, ag, Transmit(n, payload));
              sent.Outcome? && |sent.effects| <= 1 &&
              forall effect :: effect in sent.effects ==>
                effect.Send? && Some(effect.to) == Tells(identity, n, events[i])
  {
    hide Step, Tells;
    var ag := AgentAfter(c, NewAgent(identity), events);
    RunAddress(c, NewAgent(identity), events, n);
    if n in ag.neighbors {
      var i: nat :| i < |events| && Tells(identity, n, events[i]).Some?;
      var k := SomeLastTold(identity, n, events, i);
    }
    TransmitSends(c, ag, n, payload);
    forall effect | effect in Step(c, ag, Transmit(n, payload)).effects
      ensures n in ag.neighbors && effect.to == ag.neighbors[n].address
    {
      SendsTo(c, ag, Transmit(n, payload), effect);
    }
  }
}
