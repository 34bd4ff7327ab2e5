/**
 * Runs of two agents that give no stream a key it had before: nothing is accepted twice, a number of a key stands for
 * one payload, and what one sends the other accepts exactly when its window awaits the number.
 */
module FreshNetwork {
  import opened Basics
  import opened Windows
  import opened ExpectedPackets
  import opened Streams
  import opened Clusters
  import opened Agents
  import opened Exactness
  import opened Runs
  import opened Acceptance
  import opened Network

  /** Every number sent went out on a channel of its sender, below what that stream has reached. */
  ghost predicate Numbering(sent: Sent, who: Identity, partner: Identity, ag: AgentState, used: set<Channel>) {
    forall s {:trigger s in sent} :: s in sent && s.0.sender == who ==>
      (partner, s.0.key) in used &&
      forall n: Identity, i: nat {:trigger Live(ag, n, i)} ::
        Live(ag, n, i) && LiveStream(ag, n, i).key == s.0.key ==> s.0.number < LiveStream(ag, n, i).outgoingIndex
  }

  /** A number stands for one payload. */
  ghost predicate SentOnce(sent: Sent) {
    forall s, s' {:trigger s in sent, s' in sent} :: s in sent && s' in sent && s.0 == s'.0 ==> s == s'
  }

  ghost predicate FreshParty(c: Cipher, w: World, who: Identity, partner: Identity) {
    who in w.parties &&
    var party := w.parties[who];
    Invariant(c, party.agent, party.used) && Spent(party.agent, party.used, party.log) && NothingTwice(party.log) &&
    Numbering(w.sent, who, partner, party.agent, party.used)
  }

  /** What steps that also give no stream an old key keep besides. */
  ghost predicate FreshInvariant(c: Cipher, w: World, x: Identity, y: Identity) {
    WorldInvariant(c, w, x, y) && FreshParty(c, w, x, y) && FreshParty(c, w, y, x) && SentOnce(w.sent)
  }

  lemma StartFresh(c: Cipher, x: Identity, y: Identity)
    requires x != y
    ensures FreshInvariant(c, Start(x, y), x, y)
  {
    StartInvariant(c, x, y);
    NewAgentInvariant(c, x);
    NewAgentInvariant(c, y);
  }

  /** A step leaves outgoing counters alone or moves them up. */
  ghost predicate CountersKept(ag: AgentState, ag': AgentState, used: set<Channel>) {
    forall n: Identity, i: nat {:trigger Live(ag', n, i)} :: Live(ag', n, i) ==>
      (n, LiveStream(ag', n, i).key) !in used ||
      exists j: nat {:trigger Live(ag, n, j)} :: Live(ag, n, j) &&
        LiveStream(ag, n, j).key == LiveStream(ag', n, i).key &&
        LiveStream(ag, n, j).outgoingIndex <= LiveStream(ag', n, i).outgoingIndex
  }

  lemma StepCounters(c: Cipher, ag: AgentState, e: Event, used: set<Channel>)
    requires Invariant(c, ag, used) && FreshKeys(c, ag, e, used)
    ensures Step(c, ag, e).Outcome? && CountersKept(ag, Step(c, ag, e).agent, used)
  {
    hide Invariant, HandleContent, Step, FreshKeys, Received, Awaited, OpenIncoming;
    StepInvariant(c, ag, e, used);
    if Delivers(e) {
      var k := HandleContentStep(c, ag, e.packet.identifier, e.packet.sealed, used);
      var ag' := Step(c, ag, e).agent;
      forall n: Identity, i: nat | Live(ag', n, i)
        ensures Live(ag, n, i) && LiveStream(ag, n, i).key == LiveStream(ag', n, i).key
        ensures LiveStream(ag, n, i).outgoingIndex == LiveStream(ag', n, i).outgoingIndex
      {
      }
    }
  }

  /** A sent number is below its stream's counter afterwards. */
  lemma SendingCounts(c: Cipher, ag: AgentState, e: Event, used: set<Channel>, partner: Identity)
    requires Invariant(c, ag, used) && StreamsWith(ag, partner) && Outbound(ag, e).Some?
    ensures var st := Outbound(ag, e).value;
            var o := Step(c, ag, e);
            o.Outcome? && (partner, st.key) in used &&
            (forall n: Identity, i: nat {:trigger Live(o.agent, n, i)} ::
              Live(o.agent, n, i) && LiveStream(o.agent, n, i).key == st.key ==>
                st.outgoingIndex < LiveStream(o.agent, n, i).outgoingIndex)
  {
    hide Grid, Exact, Backed;
    var st := Outbound(ag, e).value;
    var k := Chosen(ag.neighbors[e.neighbor].streams).value;
    var ag' := Step(c, ag, e).agent;
    assert Live(ag, e.neighbor, k);
    forall n: Identity, i: nat | Live(ag', n, i) && LiveStream(ag', n, i).key == st.key
      ensures st.outgoingIndex < LiveStream(ag', n, i).outgoingIndex
    {
      assert Live(ag, n, i);
    }
  }

  /** What is sent now was not sent before. */
  lemma SentIsNew(sent: Sent, who: Identity, partner: Identity, ag: AgentState, used: set<Channel>, e: Event)
    requires Numbering(sent, who, partner, ag, used) && SentOnce(sent)
    ensures SentOnce(sent + SentNow(who, ag, e))
  {
    if Outbound(ag, e).Some? {
      assert Live(ag, e.neighbor, Chosen(ag.neighbors[e.neighbor].streams).value);
    }
  }

  lemma NumberingKept(c: Cipher, sent: Sent, who: Identity, partner: Identity, ag: AgentState, e: Event,
                      used: set<Channel>)
    requires Invariant(c, ag, used) && StreamsWith(ag, partner) && FreshKeys(c, ag, e, used)
    requires Numbering(sent, who, partner, ag, used)
    requires Step(c, ag, e).Outcome? && StreamsWith(Step(c, ag, e).agent, partner)
    ensures Numbering(sent + SentNow(who, ag, e), who, partner, Step(c, ag, e).agent,
                      used + Elements(NewChannels(c, ag, e)))
  {
    StepCounters(c, ag, e, used);
    var ag' := Step(c, ag, e).agent;
    if Outbound(ag, e).Some? {
      SendingCounts(c, ag, e, used, partner);
    }
    hide Invariant, Step, FreshKeys, NewChannels, Outbound;
    forall s | s in sent + SentNow(who, ag, e) && s.0.sender == who
      ensures (partner, s.0.key) in used
      ensures forall n: Identity, i: nat {:trigger Live(ag', n, i)} ::
        Live(ag', n, i) && LiveStream(ag', n, i).key == s.0.key ==> s.0.number < LiveStream(ag', n, i).outgoingIndex
    {
      if s in sent {
        forall n: Identity, i: nat | Live(ag', n, i) && LiveStream(ag', n, i).key == s.0.key
          ensures s.0.number < LiveStream(ag', n, i).outgoingIndex
        {
          assert (n, LiveStream(ag', n, i).key) in used;
        }
      }
    }
  }

  /** An agent's numbers are its own: what the other sends does not bear on them. */
  lemma NumberingOfOthers(sent: Sent, who: Identity, partner: Identity, ag: AgentState, used: set<Channel>,
                          other: AgentState, e: Event)
    requires who != partner && Numbering(sent, who, partner, ag, used)
    ensures Numbering(sent + SentNow(partner, other, e), who, partner, ag, used)
  {
  }

  lemma ActFreshParty(c: Cipher, w: World, who: Identity, partner: Identity, e: Event)
    requires who != partner && PartyInvariant(c, w, who, partner) && FreshParty(c, w, who, partner)
    requires FreshKeys(c, w.parties[who].agent, e, w.parties[who].used)
    requires PartyInvariant(c, Act(c, w, who, e), who, partner)
    ensures FreshParty(c, Act(c, w, who, e), who, partner)
  {
    var party := w.parties[who];
    StepInvariant(c, party.agent, e, party.used);
    StepSpent(c, party.agent, e, party.used, party.log);
    hide Invariant, Step, FreshKeys, NewChannels, Spent, NothingTwice, StreamsKept, SameFor, SentNow;
    NumberingKept(c, w.sent, who, partner, party.agent, e, party.used);
  }

  lemma ActFreshOther(c: Cipher, w: World, who: Identity, partner: Identity, e: Event)
    requires who != partner && who in w.parties && FreshParty(c, w, partner, who)
    ensures FreshParty(c, Act(c, w, who, e), partner, who)
  {
    hide Invariant, Step, NewChannels, Spent, NothingTwice, SentNow;
    NumberingOfOthers(w.sent, partner, who, w.parties[partner].agent, w.parties[partner].used, w.parties[who].agent, e);
    assert Act(c, w, who, e).parties[partner] == w.parties[partner];
  }

  lemma ActSentOnce(c: Cipher, w: World, who: Identity, partner: Identity, e: Event)
    requires FreshParty(c, w, who, partner) && SentOnce(w.sent)
    ensures SentOnce(Act(c, w, who, e).sent)
  {
    hide Invariant, Step, NewChannels, Spent, NothingTwice, SentNow;
    SentIsNew(w.sent, who, partner, w.parties[who].agent, w.parties[who].used, e);
  }

  lemma ActFresh(c: Cipher, w: World, x: Identity, y: Identity, who: Identity, e: Event)
    requires FreshInvariant(c, w, x, y) && Allowed(w, who, e)
    requires FreshKeys(c, w.parties[who].agent, e, w.parties[who].used)
    ensures FreshInvariant(c, Act(c, w, who, e), x, y)
  {
    assert who == x || who == y;
    var partner := if who == x then y else x;
    ActInvariant(c, w, x, y, who, e);
    hide FreshParty, Act, Allowed, FreshKeys, PacketsSound, PartyInvariant;
    ActFreshParty(c, w, who, partner, e);
    ActFreshOther(c, w, who, partner, e);
    ActSentOnce(c, w, who, partner, e);
  }

  lemma {:induction false} RunFresh(c: Cipher, w: World, x: Identity, y: Identity, actions: seq<Action>)
    requires FreshInvariant(c, w, x, y) && AllowedRun(c, w, actions) && FreshActions(c, w, actions)
    ensures FreshInvariant(c, RunWorld(c, w, actions), x, y)
    decreases |actions|
  {
    hide Act, FreshInvariant, Allowed, FreshKeys;
    if actions != [] {
      var (who, e) := actions[0];
      ActFresh(c, w, x, y, who, e);
      RunFresh(c, Act(c, w, who, e), x, y, actions[1..]);
    }
  }

  /**
   * In runs that give no stream a key it had before, each agent accepts no number of a key twice, and what it accepts
   * under a number is the one payload that the other sent as that number.
   */
  lemma TwoAgentsOnce(c: Cipher, x: Identity, y: Identity, actions: seq<Action>, who: Identity, partner: Identity)
    requires x != y && AllowedRun(c, Start(x, y), actions) && FreshActions(c, Start(x, y), actions)
    requires (who == x && partner == y) || (who == y && partner == x)
    ensures var w := RunWorld(c, Start(x, y), actions);
            who in w.parties && NumbersOnce(w.parties[who].log) && SentOnce(w.sent) &&
            AcceptedAsSent(w.parties[who].log, w.sent, partner)
  {
    StartFresh(c, x, y);
    RunFresh(c, Start(x, y), x, y, actions);
    var w := RunWorld(c, Start(x, y), actions);
    hide RunWorld, AllowedRun, FreshActions, Invariant, Spent, SentOnce, NeighborsKnown, LiveUsed;
    OnceByNumber(w.parties[who].log, w.sent, partner);
  }

  lemma OnceByNumber(log: Log, sent: Sent, partner: Identity)
    requires NothingTwice(log) && AcceptedAsSent(log, sent, partner)
    ensures NumbersOnce(log)
  {
    forall i: nat, j: nat | i < j < |log|
      ensures log[i].0.streamKey != log[j].0.streamKey || log[i].0.packetNumber != log[j].0.packetNumber
    {
      assert log[i] in log && log[j] in log;
    }
  }

  /**
   * In such a run, the packet that sending a payload puts on the network is accepted by the partner, as the number
   * and payload sent, if and only if the partner's window awaits that number and the packet is not too long to decode,
   * provided the partner holds the key of the stream that was chosen.
   */
  lemma SentIsAcceptedIffAwaited(c: Cipher, w: World, x: Identity, y: Identity, j: nat, payload: Bytes, source: Address)
    requires FreshInvariant(c, w, x, y) && Outbound(w.parties[x].agent, Transmit(y, payload)).Some?
    requires Live(w.parties[y].agent, x, j)
    requires Outbound(w.parties[x].agent, Transmit(y, payload)).value.key == LiveStream(w.parties[y].agent, x, j).key
    ensures var out := Outbound(w.parties[x].agent, Transmit(y, payload)).value;
            var back := LiveStream(w.parties[y].agent, x, j);
            var sent := SendTo(c, w.parties[x].agent, y, payload);
            sent.Outcome? && |sent.effects| == 1 && sent.effects[0].Send? &&
            var o := Step(c, w.parties[y].agent, Receive(sent.effects[0].packet, source, []));
            Ends(out, back) && o.Outcome? &&
            o.accepted ==
              if |payload| + SEND_THRESHOLD < U32_LIMIT && Awaits(back.window, out.outgoingIndex)
              then Some((ExpectedPacket(x, out.key, out.outgoingIndex), payload)) else None
  {
    hide Spent, NothingTwice, AcceptedAsSent, Numbering, PacketsSound, HandleContent, Awaits, Produced, SentOnce;
    var (px, py) := (w.parties[x], w.parties[y]);
    var out := Outbound(px.agent, Transmit(y, payload)).value;
    var back := LiveStream(py.agent, x, j);
    var i := Chosen(px.agent.neighbors[y].streams).value;
    assert Live(px.agent, y, i);
    LiveExact(c, px.agent, y, i, px.used);
    LiveExact(c, py.agent, x, j, py.used);
    assert OnlyWith(py.agent, x, back.key);
    hide Invariant, Live, NeighborsKnown, LiveUsed;
    ProducedIdentifier(c, out);
    EndsAgree(c, out, back, out.outgoingIndex);
    AcceptedIffAwaited(c, py.agent, x, j, out.outgoingIndex, payload, py.used);
  }

  /** Two seeds give both ends the same key, whichever end computes it. */
  predicate Agree(c: Cipher, seed1: Bytes, seed2: Bytes) {
    c.exchange(c.publicOf(seed1), seed2) == c.exchange(c.publicOf(seed2), seed1)
  }

  /** The handshake: one agent initiates, the other answers, and the two newest streams are the ends of one. */
  lemma HandshakeAgrees(c: Cipher, x: Identity, y: Identity, atX: Address, atY: Address, seedX: Bytes, seedY: Bytes)
    requires x != y && Agree(c, seedX, seedY)
    ensures var o1 := InitiateStream(c, NewAgent(x), y, atY, seedX);
            o1.effects == [Send(atY, Initiation(x, y, c.publicOf(seedX), true))] &&
            var o2 := HandleInitiation(c, NewAgent(y), o1.effects[0].packet, atX, seedY);
            o2.effects == [Send(atX, Initiation(y, x, c.publicOf(seedY), true))] &&
            var o3 := HandleInitiation(c, o1.agent, o2.effects[0].packet, atY, []);
            Live(o3.agent, y, CC) && Live(o2.agent, x, CC) &&
              Ends(LiveStream(o3.agent, y, CC), LiveStream(o2.agent, x, CC))
  {
    hide ExpectFrom;
  }

  /** How the handshake leaves both ends: nothing sent, nothing received, and one stream to send on. */
  lemma HandshakeLeaves(c: Cipher, x: Identity, y: Identity, atX: Address, atY: Address, seedX: Bytes, seedY: Bytes)
    requires x != y
    ensures var o1 := InitiateStream(c, NewAgent(x), y, atY, seedX);
            var o2 := HandleInitiation(c, NewAgent(y), o1.effects[0].packet, atX, seedY);
            var o3 := HandleInitiation(c, o1.agent, o2.effects[0].packet, atY, []);
            Live(o3.agent, y, CC) && Live(o2.agent, x, CC) && o2.agent.neighbors.Keys == {x} &&
            Chosen(o3.agent.neighbors[y].streams) == Some(CC) && o3.agent.neighbors[y].address == atY &&
            LiveStream(o3.agent, y, CC).outgoingIndex == 0 && Cached(c, LiveStream(o3.agent, y, CC)) &&
            LiveStream(o2.agent, x, CC).window == FIRST_WINDOW
  {
    hide ExpectFrom;
  }

  lemma FirstIsAwaited()
    ensures Awaits(FIRST_WINDOW, 0)
  {
    FirstAhead();
  }

  lemma SendToSends(c: Cipher, ag: AgentState, n: Identity, payload: Bytes)
    requires n in ag.neighbors && Chosen(ag.neighbors[n].streams) == Some(CC) && |payload| % 4 == 0 &&
      |payload| / 4 <= MEMORY_MAX
    ensures var st := LiveStream(ag, n, CC);
            var (id, nonce, _) := Produced(c, st);
            SendTo(c, ag, n, payload).Outcome? && SEND_THRESHOLD <= |payload| + SEND_THRESHOLD < U32_LIMIT &&
            SendTo(c, ag, n, payload).effects ==
              [Send(ag.neighbors[n].address, Content(id, Sealed(st.key, nonce, payload), |payload| + SEND_THRESHOLD))]
  {
    hide Produced;
  }

  lemma OneNeighborOnly(ag: AgentState, n: Identity, key: Bytes)
    requires ag.neighbors.Keys == {n}
    ensures OnlyWith(ag, n, key)
  {
  }

  /** And then the first payload sent arrives and runs. */
  lemma FirstPacketRuns(c: Cipher, x: Identity, y: Identity, atX: Address, atY: Address, seedX: Bytes, seedY: Bytes,
                        payload: Bytes)
    requires x != y && Agree(c, seedX, seedY) && |payload| % 4 == 0 && |payload| / 4 <= MEMORY_MAX
    ensures var o1 := InitiateStream(c, NewAgent(x), y, atY, seedX);
            var o2 := HandleInitiation(c, NewAgent(y), o1.effects[0].packet, atX, seedY);
            var o3 := HandleInitiation(c, o1.agent, o2.effects[0].packet, atY, []);
            var sent := SendTo(c, o3.agent, y, payload);
            sent.Outcome? && |sent.effects| == 1 && sent.effects[0].Send? && sent.effects[0].to == atY &&
            var o := Step(c, o2.agent, Receive(sent.effects[0].packet, atX, []));
            o.Outcome? && o.effects == [Execute(Task(x, payload))]
  {
    HandshakeAgrees(c, x, y, atX, atY, seedX, seedY);
    var o1 := InitiateStream(c, NewAgent(x), y, atY, seedX);
    var o2 := HandleInitiation(c, NewAgent(y), o1.effects[0].packet, atX, seedY);
    var o3 := HandleInitiation(c, o1.agent, o2.effects[0].packet, atY, []);
    HandshakeLeaves(c, x, y, atX, atY, seedX, seedY);
    NewAgentInvariant(c, y);
    var answer := Receive(o1.effects[0].packet, atX, seedY);
    StepInvariant(c, NewAgent(y), answer, {});
    var used := {} + Elements(NewChannels(c, NewAgent(y), answer));
    var out := LiveStream(o3.agent, y, CC);
    var back := LiveStream(o2.agent, x, CC);
    OneNeighborOnly(o2.agent, x, back.key);
    SendToSends(c, o3.agent, y, payload);
    var delivery := Receive(SendTo(c, o3.agent, y, payload).effects[0].packet, atX, []);
    assert Delivers(delivery);
    assert NewChannels(c, o2.agent, delivery) == [];
    NothingNew(c, o2.agent, delivery, used);
    StepInvariant(c, o2.agent, delivery, used);
    hide *;
    ProducedIdentifier(c, out);
    EndsAgree(c, out, back, 0);
    AcceptedIffAwaited(c, o2.agent, x, CC, 0, payload, used);
    FirstIsAwaited();
    var k := HandleContentStep(c, o2.agent, Identifier(c, back, Incoming, 0),
                               Sealed(back.key, IncomingNonce(back, 0), payload), used);
  }

  lemma NothingNew(c: Cipher, ag: AgentState, e: Event, used: set<Channel>)
    requires NewChannels(c, ag, e) == []
    ensures FreshKeys(c, ag, e, used)
  {
    hide NewChannels;
  }
}
