/**
 * The receive window of a stream (`src/stream.rs`): which packet numbers are still awaited, how receiving one
 * moves the window, and what that means over whole runs of loss and reordering.
 */
module Windows {
  import opened Masks

  datatype Window = Window(start: nat, mask: nat)

  const WINDOW: nat := 64
  const STRIDE: nat := 8

  const FIRST_WINDOW := Window(0, FULL_MASK)

  predicate Valid(w: Window) {
    w.mask <= FULL_MASK
  }

  /** The window still awaits this number. */
  predicate Awaits(w: Window, n: nat) {
    w.start <= n < w.start + WINDOW && Bit(w.mask, n - w.start)
  }

  /** The mask once a number has come in. */
  function Marked(w: Window, n: nat): nat
    requires w.start <= n
  {
    ClearBit(w.mask, n - w.start)
  }

  /** Whether the window moves on: its low end is all received, or something near its high end is. */
  predicate Moves(mask: nat) {
    mask % LOW_BYTE == 0 || mask / HIGH_SHIFT != HIGH_ONES
  }

  function Received(w: Window, n: nat): Window
    requires w.start <= n
  {
    var mask := Marked(w, n);
    if Moves(mask) then Window(w.start + STRIDE, Slide(mask)) else Window(w.start, mask)
  }

  /** A delivered packet is accepted when its number is awaited, and otherwise changes nothing. */
  function Delivered(w: Window, n: nat): Window {
    if Awaits(w, n) then Received(w, n) else w
  }

  /** When a window moves. */
  lemma MovesWhen(mask: nat)
    requires mask <= FULL_MASK
    ensures Moves(mask) <==>
            (forall i: nat :: i < 8 ==> !Bit(mask, i)) || (exists i: nat :: 48 <= i < 64 && !Bit(mask, i))
  {
    LowByteClear(mask);
    HighBitsSet(mask);
  }

  /** What a window awaits after an accepted packet. */
  lemma ReceivedAwaits(w: Window, n: nat, m: nat)
    requires Valid(w) && Awaits(w, n)
    ensures Valid(Received(w, n))
    ensures Awaits(Received(w, n), m) <==>
            if Moves(Marked(w, n)) then
              (w.start + STRIDE <= m && m != n && Awaits(w, m)) || w.start + WINDOW <= m < w.start + WINDOW + STRIDE
            else m != n && Awaits(w, m)
  {
    var mask := Marked(w, n);
    SlideBits(mask, 0);
    if w.start <= m < w.start + WINDOW {
      ClearBitBits(w.mask, n - w.start, m - w.start);
    }
    if w.start + STRIDE <= m < w.start + STRIDE + WINDOW {
      SlideBits(mask, m - w.start - STRIDE);
    }
  }

  /** All packets of a run, in the order they are delivered. */
  function Run(w: Window, ns: seq<nat>): Window
    decreases |ns|
  {
    if ns == [] then w else Run(Delivered(w, ns[0]), ns[1..])
  }

  /** Every packet of a run is accepted when it is delivered. */
  predicate AllAccepted(w: Window, ns: seq<nat>)
    decreases |ns|
  {
    ns == [] || (Awaits(w, ns[0]) && AllAccepted(Delivered(w, ns[0]), ns[1..]))
  }

  /** Numbers that rise by at most eight from each to the next. */
  predicate RisesByAtMostEight(last: nat, ns: seq<nat>)
    decreases |ns|
  {
    ns == [] || (last < ns[0] <= last + 8 && RisesByAtMostEight(ns[0], ns[1..]))
  }

  /** Everything above the last delivered number is awaited, and that number is at most 55 into the window. */
  predicate Ahead(w: Window, last: int) {
    Valid(w) && w.start - 1 <= last < w.start + 56 &&
    forall m: nat :: last < m < w.start + WINDOW ==> Awaits(w, m)
  }

  lemma FirstAhead()
    ensures Ahead(FIRST_WINDOW, -1)
  {
    forall m: nat | m < WINDOW
      ensures Awaits(FIRST_WINDOW, m)
    {
      FullMaskBits(m);
    }
  }

  /** The window moves under the new number only if that number is at its low end's end or beyond. */
  lemma AheadMoves(w: Window, last: int, n: nat)
    requires Ahead(w, last) && last < n <= last + 8
    ensures Moves(Marked(w, n)) ==> n >= w.start + 7
    ensures !Moves(Marked(w, n)) ==> n < w.start + 48
  {
    var mask := Marked(w, n);
    var at := n - w.start;
    assert Awaits(w, n);
    MovesWhen(mask);
    ClearBitBits(w.mask, at, at);
    if at < 7 {
      // The next number is still awaited at the low end, and so is everything at the high end.
      assert Awaits(w, n + 1);
      ClearBitBits(w.mask, at, at + 1);
      forall i: nat | 48 <= i < 64
        ensures Bit(mask, i)
      {
        assert Awaits(w, w.start + i);
        ClearBitBits(w.mask, at, i);
      }
    }
  }

  lemma StaysAhead(w: Window, last: int, n: nat)
    requires Ahead(w, last) && last < n <= last + 8
    ensures Awaits(w, n) && Ahead(Received(w, n), n)
  {
    assert Awaits(w, n);
    AheadMoves(w, last, n);
    hide Moves, Marked, Bit;
    var w' := Received(w, n);
    ReceivedAwaits(w, n, n);
    forall m: nat | n < m < w'.start + WINDOW
      ensures Awaits(w', m)
    {
      ReceivedAwaits(w, n, m);
    }
  }

  /** If delivered numbers rise by at most eight each time, every packet is accepted, forever. */
  lemma {:induction false} SmallGapsAccepted(w: Window, last: nat, ns: seq<nat>)
    requires Ahead(w, last) && RisesByAtMostEight(last, ns)
    ensures AllAccepted(w, ns)
    decreases |ns|
  {
    if ns != [] {
      StaysAhead(w, last, ns[0]);
      SmallGapsAccepted(Delivered(w, ns[0]), ns[0], ns[1..]);
    }
  }

  lemma SmallGapsFromTheStart(ns: seq<nat>)
    requires ns != [] && ns[0] < 8 && RisesByAtMostEight(ns[0], ns[1..])
    ensures AllAccepted(FIRST_WINDOW, ns)
  {
    FirstAhead();
    StaysAhead(FIRST_WINDOW, -1, ns[0]);
    SmallGapsAccepted(Delivered(FIRST_WINDOW, ns[0]), ns[0], ns[1..]);
  }

  /** The packets 0, 9, 18, ... delivered so far. */
  function Nines(count: nat): (r: seq<nat>)
    ensures |r| == count
  {
    if count == 0 then [] else Nines(count - 1) + [9 * (count - 1)]
  }

  lemma {:induction false} RunSnoc(w: Window, ns: seq<nat>, n: nat)
    ensures Run(w, ns + [n]) == Delivered(Run(w, ns), n)
    decreases |ns|
  {
    if ns == [] {
      assert [] + [n] == [n];
      assert [n][1..] == [];
    } else {
      RunSnoc(Delivered(w, ns[0]), ns[1..], n);
      assert (ns + [n])[1..] == ns[1..] + [n];
    }
  }

  /** Where rises of nine leave a window: it falls one number further behind with every packet. */
  ghost predicate Behind(w: Window, count: nat) {
    Valid(w) && w.start == (if count <= 6 then 0 else 8 * (count - 6)) &&
    forall m: nat :: w.start <= m < w.start + WINDOW && (m % 9 != 0 || 9 * count <= m) ==> Awaits(w, m)
  }

  lemma {:induction false} NinesWindow(count: nat)
    requires count <= 16
    ensures Behind(Run(FIRST_WINDOW, Nines(count)), count)
  {
    if count == 0 {
      FirstAhead();
      assert Nines(0) == [];
    } else {
      NinesWindow(count - 1);
      RunSnoc(FIRST_WINDOW, Nines(count - 1), 9 * (count - 1));
      hide Behind, Awaits, Received, Run;
      FallsBehind(Run(FIRST_WINDOW, Nines(count - 1)), count);
    }
  }

  lemma FallsBehind(w: Window, count: nat)
    requires 1 <= count <= 16 && Behind(w, count - 1)
    ensures Awaits(w, 9 * (count - 1)) && Behind(Received(w, 9 * (count - 1)), count)
  {
    var n := 9 * (count - 1);
    assert Awaits(w, n);
    NineMoves(w, count);
    hide Awaits, Moves, Marked, Bit;
    ReceivedAwaits(w, n, n);
    var w' := Received(w, n);
    forall m: nat | w'.start <= m < w'.start + WINDOW && (m % 9 != 0 || 9 * count <= m)
      ensures Awaits(w', m)
    {
      ReceivedAwaits(w, n, m);
    }
  }

  lemma NineMoves(w: Window, count: nat)
    requires 1 <= count <= 16 && Behind(w, count - 1)
    ensures Moves(Marked(w, 9 * (count - 1))) <==> count >= 7
  {
    var n := 9 * (count - 1);
    var mask := Marked(w, n);
    MovesWhen(mask);
    ClearBitBits(w.mask, n - w.start, n - w.start);
    if count < 7 {
      assert Awaits(w, 1);
      ClearBitBits(w.mask, n - w.start, 1);
      forall i: nat | 48 <= i < 64
        ensures Bit(mask, i)
      {
        assert Awaits(w, i);
        ClearBitBits(w.mask, n - w.start, i);
      }
    }
  }

  /** Rises of nine eventually fall outside: the seventeenth such packet is refused, and the ones before are not. */
  lemma NinesFallOutside()
    ensures !Awaits(Run(FIRST_WINDOW, Nines(16)), 9 * 16)
    ensures forall k: nat :: 1 <= k < 16 ==> Awaits(Run(FIRST_WINDOW, Nines(k)), 9 * k)
  {
    NinesWindow(16);
    forall k: nat | 1 <= k < 16
      ensures Awaits(Run(FIRST_WINDOW, Nines(k)), 9 * k)
    {
      NinesWindow(k);
    }
  }

  /** The numbers a run accepts. */
  function Accepted(w: Window, ns: seq<nat>): set<nat>
    decreases |ns|
  {
    if ns == [] then {}
    else (if Awaits(w, ns[0]) then {ns[0]} else {}) + Accepted(Delivered(w, ns[0]), ns[1..])
  }

  /** What a window stands for, given the numbers accepted so far. */
  ghost predicate Tracks(w: Window, accepted: set<nat>) {
    Valid(w) &&
    (forall m: nat :: w.start <= m < w.start + WINDOW ==> (Awaits(w, m) <==> m !in accepted)) &&
    (forall m :: m in accepted ==> m < w.start + WINDOW) &&
    forall m: nat :: m < w.start && m !in accepted ==> exists later :: later in accepted && later >= m + 41
  }

  lemma FirstTracks()
    ensures Tracks(FIRST_WINDOW, {})
  {
    forall m: nat | m < WINDOW
      ensures Awaits(FIRST_WINDOW, m)
    {
      FullMaskBits(m);
    }
  }

  lemma DeliveredTracks(w: Window, accepted: set<nat>, n: nat)
    requires Tracks(w, accepted) && Awaits(w, n)
    ensures Tracks(Received(w, n), accepted + {n})
  {
    var w' := Received(w, n);
    var accepted' := accepted + {n};
    ReceivedAwaits(w, n, n);
    forall m: nat | w'.start <= m < w'.start + WINDOW
      ensures Awaits(w', m) <==> m !in accepted'
    {
      ReceivedAwaits(w, n, m);
    }
    forall m: nat | m < w'.start && m !in accepted'
      ensures exists later :: later in accepted' && later >= m + 41
    {
      if w.start <= m {
        AbandonedFor(w, accepted, n, m);
      } else {
        var later :| later in accepted && later >= m + 41;
        assert later in accepted';
      }
    }
  }

  /** A number left behind unreceived was left for one at least 41 higher. */
  lemma AbandonedFor(w: Window, accepted: set<nat>, n: nat, m: nat)
    requires Tracks(w, accepted) && Awaits(w, n) && Moves(Marked(w, n))
    requires w.start <= m < w.start + STRIDE && m !in accepted + {n}
    ensures exists later :: later in accepted + {n} && later >= m + 41
  {
    var mask := Marked(w, n);
    MovesWhen(mask);
    ClearBitBits(w.mask, n - w.start, m - w.start);
    assert Bit(mask, m - w.start);
    var i: nat :| 48 <= i < 64 && !Bit(mask, i);
    ClearBitBits(w.mask, n - w.start, i);
    var later := w.start + i;
    assert later == n || !Awaits(w, later);
    assert later in accepted + {n};
  }

  lemma {:induction false} RunTracks(w: Window, accepted: set<nat>, ns: seq<nat>)
    requires Tracks(w, accepted)
    ensures Tracks(Run(w, ns), accepted + Accepted(w, ns))
    decreases |ns|
  {
    if ns == [] {
      assert accepted + {} == accepted;
    } else {
      var first := if Awaits(w, ns[0]) then {ns[0]} else {};
      if Awaits(w, ns[0]) {
        DeliveredTracks(w, accepted, ns[0]);
      } else {
        assert accepted + {} == accepted;
      }
      RunTracks(Delivered(w, ns[0]), accepted + first, ns[1..]);
      assert accepted + first + Accepted(Delivered(w, ns[0]), ns[1..]) == accepted + Accepted(w, ns);
    }
  }

  /**
   * In any order, with any losses and duplicates: a number is given up only after one at least 41 higher was
   * received, and no number is accepted twice.
   */
  lemma AbandonedOnlyForLater(ns: seq<nat>, m: nat)
    requires m < Run(FIRST_WINDOW, ns).start && m !in Accepted(FIRST_WINDOW, ns)
    ensures exists later :: later in Accepted(FIRST_WINDOW, ns) && later >= m + 41
  {
    FirstTracks();
    RunTracks(FIRST_WINDOW, {}, ns);
    assert {} + Accepted(FIRST_WINDOW, ns) == Accepted(FIRST_WINDOW, ns);
  }

  lemma AcceptedOnce(ns: seq<nat>, n: nat)
    requires n in Accepted(FIRST_WINDOW, ns)
    ensures !Awaits(Run(FIRST_WINDOW, ns), n)
  {
    FirstTracks();
    RunTracks(FIRST_WINDOW, {}, ns);
    assert {} + Accepted(FIRST_WINDOW, ns) == Accepted(FIRST_WINDOW, ns);
  }
}
