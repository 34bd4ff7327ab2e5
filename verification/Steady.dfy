/**
 * What the window's bound means for an agent: in any run, whatever else happens, while a stream lives and the numbers
 * delivered to it rise by at most eight each time, every one of its packets is accepted and runs.
 */
module Steady {
  import opened Basics
  import opened Windows
  import opened ExpectedPackets
  import opened Streams
  import opened Clusters
  import opened Agents
  import opened Exactness
  import opened Runs
  import opened Acceptance
  import opened Reopening

  /** An event that delivers a packet sealed with a channel's key. */
  predicate On(e: Event, ch: Channel) {
    Delivers(e) && e.packet.sealed.key == ch.1
  }

  function NumberOf(e: Event): nat
    requires Delivers(e)
  {
    e.packet.sealed.nonce / 2
  }

  /** It is the packet of its number coming in on the channel. */
  predicate Proper(c: Cipher, self: Identity, e: Event, ch: Channel) {
    On(e, ch) && e.packet.identifier == IdentifierOn(c, self, ch, NumberOf(e)) &&
    e.packet.sealed.nonce == NonceOn(self, ch, NumberOf(e))
  }

  predicate LiveOn(ag: AgentState, ch: Channel) {
    exists i: nat :: i < SLOTS && Live(ag, ch.0, i) && LiveStream(ag, ch.0, i).key == ch.1
  }

  /**
   * A run in which streams' channels are new, no other neighbour shares the channel's key, and the channel's packets
   * come in with numbers that rise by at most eight each time, among any other events.
   */
  ghost predicate Rising(c: Cipher, ag: AgentState, events: seq<Event>, used: set<Channel>, ch: Channel, last: int)
    decreases |events|
  {
    events == [] ||
    var e := events[0];
    FreshKeys(c, ag, e, used) && OnlyWith(ag, ch.0, ch.1) &&
    (On(e, ch) ==> Proper(c, ag.identity, e, ch) && last < NumberOf(e) <= last + 8) &&
    (Step(c, ag, e).Outcome? ==>
      Rising(c, Step(c, ag, e).agent, events[1..], used + Elements(NewChannels(c, ag, e)), ch,
             if On(e, ch) then NumberOf(e) else last))
  }

  /** Every packet of the channel is accepted while its stream lives, and runs if it fits the machine's memory. */
  ghost predicate AllRun(c: Cipher, ag: AgentState, events: seq<Event>, ch: Channel)
    decreases |events|
  {
    events == [] ||
    var (e, o) := (events[0], Step(c, ag, events[0]));
    o.Outcome? && AllRun(c, o.agent, events[1..], ch) &&
    (On(e, ch) && LiveOn(ag, ch) ==>
      var payload := e.packet.sealed.payload;
      o.accepted == Some((PacketOn(ch, NumberOf(e)), payload)) &&
      o.effects == (if |payload| / 4 > MEMORY_MAX then [] else [Execute(Task(ch.0, payload))]))
  }

  ghost predicate StreamAhead(ag: AgentState, ch: Channel, last: int) {
    forall i: nat {:trigger Live(ag, ch.0, i)} :: Live(ag, ch.0, i) && LiveStream(ag, ch.0, i).key == ch.1 ==>
      Ahead(LiveStream(ag, ch.0, i).window, last)
  }

  /** The channel's own packet: accepted if the stream lives, and the window stays ahead. */
  lemma ProperDelivery(c: Cipher, ag: AgentState, e: Event, used: set<Channel>, ch: Channel, last: int)
    requires Invariant(c, ag, used) && OnlyWith(ag, ch.0, ch.1) && StreamAhead(ag, ch, last)
    requires Proper(c, ag.identity, e, ch) && last < NumberOf(e) <= last + 8
    ensures var o := HandleContent(c, ag, e.packet.identifier, e.packet.sealed);
            var payload := e.packet.sealed.payload;
            o.Outcome? && StreamAhead(o.agent, ch, NumberOf(e)) &&
            (LiveOn(ag, ch) ==>
              o.accepted == Some((PacketOn(ch, NumberOf(e)), payload)) &&
              o.effects == (if |payload| / 4 > MEMORY_MAX then [] else [Execute(Task(ch.0, payload))]))
  {
    hide Invariant, HandleContent, Ahead, Awaits, Received, IdentifierOn;
    var number := NumberOf(e);
    var k := HandleContentStep(c, ag, e.packet.identifier, e.packet.sealed, used);
    if LiveOn(ag, ch) {
      var i: nat :| i < SLOTS && Live(ag, ch.0, i) && LiveStream(ag, ch.0, i).key == ch.1;
      var st := LiveStream(ag, ch.0, i);
      LiveExact(c, ag, ch.0, i, used);
      StaysAhead(st.window, last, number);
      ChannelIdentifier(c, ag.identity, st, ch, number);
      AcceptedIffAwaited(c, ag, ch.0, i, number, e.packet.sealed.payload, used);
      SameSlot(c, ag, ch.0, i, k, used);
    }
    var ag' := HandleContent(c, ag, e.packet.identifier, e.packet.sealed).agent;
    forall i: nat | Live(ag', ch.0, i) && LiveStream(ag', ch.0, i).key == ch.1
      ensures Ahead(LiveStream(ag', ch.0, i).window, number)
    {
      assert Live(ag, ch.0, i);
      SameSlot(c, ag, ch.0, i, k, used);
    }
  }

  /** Two slots of a neighbour with one key are one slot. */
  lemma SameSlot(c: Cipher, ag: AgentState, n: Identity, i: nat, k: nat, used: set<Channel>)
    requires Invariant(c, ag, used) && Live(ag, n, i)
    ensures Live(ag, n, k) && LiveStream(ag, n, k).key == LiveStream(ag, n, i).key ==> i == k
  {
    hide Grid, Exact, Backed;
  }

  lemma ChannelIdentifier(c: Cipher, self: Identity, st: StreamState, ch: Channel, number: nat)
    requires st.key == ch.1 && st.neighborIsLater == (ch.0 > self)
    ensures Identifier(c, st, Incoming, number) == IdentifierOn(c, self, ch, number)
    ensures IncomingNonce(st, number) == NonceOn(self, ch, number)
  {
  }

  /** Any other event leaves the stream's window as it is. */
  lemma OtherEvent(c: Cipher, ag: AgentState, e: Event, used: set<Channel>, ch: Channel, last: int)
    requires Invariant(c, ag, used) && FreshKeys(c, ag, e, used) && ch in used && StreamAhead(ag, ch, last) &&
      !On(e, ch)
    ensures Step(c, ag, e).Outcome? && StreamAhead(Step(c, ag, e).agent, ch, last)
  {
    hide Invariant, HandleContent, Step, FreshKeys, Received, Awaited, Ahead;
    StepInvariant(c, ag, e, used);
    var ag' := Step(c, ag, e).agent;
    if Delivers(e) {
      var k := HandleContentStep(c, ag, e.packet.identifier, e.packet.sealed, used);
      forall i: nat | Live(ag', ch.0, i) && LiveStream(ag', ch.0, i).key == ch.1
        ensures Live(ag, ch.0, i) && LiveStream(ag, ch.0, i) == LiveStream(ag', ch.0, i)
      {
      }
    } else {
      forall i: nat | Live(ag', ch.0, i) && LiveStream(ag', ch.0, i).key == ch.1
        ensures Ahead(LiveStream(ag', ch.0, i).window, last)
      {
        assert (ch.0, LiveStream(ag', ch.0, i).key) in used;
      }
    }
  }

  /** The theorem, from any state in which everything above the last number is awaited. */
  lemma {:induction false} RisingAllRun(c: Cipher, ag: AgentState, events: seq<Event>, used: set<Channel>, ch: Channel,
                                        last: int)
    requires Invariant(c, ag, used) && ch in used && StreamAhead(ag, ch, last) && Rising(c, ag, events, used, ch, last)
    ensures AllRun(c, ag, events, ch)
    decreases |events|
  {
    if events != [] {
      hide Invariant, Step, FreshKeys, NewChannels, StreamAhead, OnlyWith, StreamsKept, SameFor, HandleContent,
        Proper, LiveOn;
      var e := events[0];
      StepInvariant(c, ag, e, used);
      if On(e, ch) {
        ProperDelivery(c, ag, e, used, ch, last);
      } else {
        OtherEvent(c, ag, e, used, ch, last);
      }
      var o := Step(c, ag, e);
      RisingAllRun(c, o.agent, events[1..], used + Elements(NewChannels(c, ag, e)), ch,
                   if On(e, ch) then NumberOf(e) else last);
    }
  }

  /** So from the start of a stream nothing has come in on. */
  lemma NewStreamAllRun(c: Cipher, ag: AgentState, events: seq<Event>, used: set<Channel>, n: Identity, k: nat)
    requires Invariant(c, ag, used) && Live(ag, n, k) && LiveStream(ag, n, k).window == FIRST_WINDOW
    requires Rising(c, ag, events, used, (n, LiveStream(ag, n, k).key), -1)
    ensures AllRun(c, ag, events, (n, LiveStream(ag, n, k).key))
  {
    hide Rising, AllRun, Ahead;
    var ch := (n, LiveStream(ag, n, k).key);
    FirstAhead();
    LiveExact(c, ag, n, k, used);
    forall i: nat | Live(ag, n, i) && LiveStream(ag, n, i).key == ch.1
      ensures Ahead(LiveStream(ag, n, i).window, -1)
    {
      SameSlot(c, ag, n, i, k, used);
    }
    RisingAllRun(c, ag, events, used, ch, -1);
  }
}
