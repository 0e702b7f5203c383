/**
 What every run of a stream keeps, for peers that follow the protocol: permission is conserved,
 items arrive exactly once and in order, the limits of the consumer are never hit, and a producer
 that waits for permission is never waiting for nothing.

 All of it is stated by positions in the sequence of produced items: the permission under way, the
 debt of the consumer, the batch it holds, its queue, the wire and the write buffer are consecutive
 stretches of that one sequence.
 */
module StreamSafety {
  import opened Prelude
  import opened Streams

  // ---------------------------------------------------------------- stretches of the produced items

  function Range(p: seq<Item>, from: nat, until: nat): (n: int)
    requires from <= |p| && until <= |p|
  {
    CostTo(p, until) - CostTo(p, from)
  }

  lemma {:induction false} RangeGrows(p: seq<Item>, from: nat, until: nat)
    requires from <= until <= |p|
    ensures Range(p, from, until) >= HEADER * (until - from)
    decreases until
  {
    if from < until {
      RangeGrows(p, from, until - 1);
    }
  }

  lemma {:induction false} CostAppend(p: seq<Item>, x: Item, k: nat)
    requires k <= |p|
    ensures CostTo(p + [x], k) == CostTo(p, k)
    decreases k
  {
    if k > 0 {
      CostAppend(p, x, k - 1);
    }
  }

  lemma {:induction false} CostOfRange(p: seq<Item>, from: nat, until: nat)
    requires from <= until <= |p|
    ensures Cost(p[from..until]) == Range(p, from, until)
    decreases until - from
  {
    if from < until {
      CostOfRange(p, from, until - 1);
      var a, b := p[from..until - 1], p[from..until];
      assert b == a + [p[until - 1]];
      CostAppend(a, p[until - 1], |a|);
    }
  }

  /** The permissions under way cover `p[from..until]`; a farewell comes last. */
  ghost predicate Covers(back: seq<Permission>, p: seq<Item>, from: nat, until: nat)
    decreases |back|
  {
    if back == [] then from == until
    else if back[0].Gone? then |back| == 1 && from == until
    else
      && from + back[0].items <= until <= |p|
      && back[0].bytes == Range(p, from, from + back[0].items)
      && Covers(back[1..], p, from + back[0].items, until)
  }

  /** The packets of a channel carry `p[from..until]`, none of them empty; an ending comes last. */
  ghost predicate Carries(ms: seq<Message>, p: seq<Item>, from: nat, until: nat)
    decreases |ms|
  {
    if ms == [] then from == until
    else if !ms[0].Packet? then |ms| == 1 && from == until
    else
      && 0 < |ms[0].items| && from + |ms[0].items| <= until <= |p|
      && ms[0].items == p[from..from + |ms[0].items|]
      && ms[0].size == Range(p, from, from + |ms[0].items|)
      && Carries(ms[1..], p, from + |ms[0].items|, until)
  }

  predicate HasEnd(ms: seq<Message>) { ms != [] && !ms[|ms| - 1].Packet? }

  lemma {:induction false} CoversGrow(back: seq<Permission>, p: seq<Item>, x: Item, from: nat, until: nat)
    requires Covers(back, p, from, until)
    ensures Covers(back, p + [x], from, until)
    decreases |back|
  {
    if back != [] && back[0].Permit? {
      var k := from + back[0].items;
      CostAppend(p, x, k);
      CostAppend(p, x, from);
      CoversGrow(back[1..], p, x, k, until);
    }
  }

  lemma {:induction false} CarriesGrow(ms: seq<Message>, p: seq<Item>, x: Item, from: nat, until: nat)
    requires Carries(ms, p, from, until)
    ensures Carries(ms, p + [x], from, until)
    decreases |ms|
  {
    if ms != [] && ms[0].Packet? {
      var k := from + |ms[0].items|;
      CostAppend(p, x, k);
      CostAppend(p, x, from);
      assert (p + [x])[from..k] == p[from..k];
      CarriesGrow(ms[1..], p, x, k, until);
    }
  }

  lemma {:induction false} CoversAppend(back: seq<Permission>, p: seq<Item>, from: nat, until: nat, last: Permission)
    requires Covers(back, p, from, until) && Gone !in back && until <= |p|
    ensures last.Gone? ==> Covers(back + [last], p, from, until)
    ensures last.Permit? && until + last.items <= |p| && last.bytes == Range(p, until, until + last.items)
            ==> Covers(back + [last], p, from, until + last.items)
    decreases |back|
  {
    if back == [] {
      assert back + [last] == [last] && [last][1..] == [];
    } else {
      assert (back + [last])[1..] == back[1..] + [last];
      CoversAppend(back[1..], p, from + back[0].items, until, last);
    }
  }

  lemma {:induction false} CarriesAppend(ms: seq<Message>, p: seq<Item>, from: nat, until: nat, next: nat, m: Message)
    requires Carries(ms, p, from, until) && !HasEnd(ms)
    requires Carries([m], p, until, next)
    ensures Carries(ms + [m], p, from, next)
    decreases |ms|
  {
    if ms == [] {
      assert ms + [m] == [m];
    } else {
      assert (ms + [m])[1..] == ms[1..] + [m];
      assert ms[0].Packet?;
      CarriesOrder([m], p, until, next);
      CarriesAppend(ms[1..], p, from + |ms[0].items|, until, next, m);
    }
  }

  lemma {:induction false} CoversOrder(back: seq<Permission>, p: seq<Item>, from: nat, until: nat)
    requires Covers(back, p, from, until)
    ensures from <= until
    decreases |back|
  {
    if back != [] && back[0].Permit? {
      CoversOrder(back[1..], p, from + back[0].items, until);
    }
  }

  /** Every packet has at least one item. */
  lemma {:induction false} CarriesOrder(ms: seq<Message>, p: seq<Item>, from: nat, until: nat)
    requires Carries(ms, p, from, until)
    ensures from <= until && (until <= |p| || from == until)
    ensures !HasEnd(ms) ==> |ms| <= until - from
    ensures HasEnd(ms) ==> |ms| - 1 <= until - from
    decreases |ms|
  {
    if ms != [] && ms[0].Packet? {
      CarriesOrder(ms[1..], p, from + |ms[0].items|, until);
    }
  }

  // ---------------------------------------------------------------- the invariant

  /** Credit conservation: what is in flight is what was paid and has not come back. */
  ghost predicate Conserved(l: Limits, p: seq<Item>, credit: Credit, back: seq<Permission>, permitted: nat) {
    && !credit.released
    && credit.items <= |p|
    && credit.bytes == Range(p, |p| - credit.items, |p|)
    && Covers(back, p, |p| - credit.items, permitted)
    && Bounded(l, credit.items, credit.bytes)
  }

  /** Both budgets hold, except that one item may be larger than the whole window. */
  predicate Bounded(l: Limits, items: int, bytes: int) {
    items <= l.backlog && (bytes <= l.window || items <= 1)
  }

  /** The consumer owes `p[permitted..settled]`, less than half of either budget. */
  ghost predicate Owes(l: Limits, p: seq<Item>, permitted: nat, settled: nat, bytes: nat, items: nat) {
    && permitted + items == settled <= |p|
    && bytes == Range(p, permitted, settled)
    && bytes * 2 < l.window && items * 2 < l.backlog
  }

  /** The batch in hand is `p[settled..held]` and the first `taken` items of it were yielded. */
  ghost predicate Holds(p: seq<Item>, current: Option<Message>, taken: nat, settled: nat, held: nat) {
    match current
    case None => taken == 0 && settled == held
    case Some(m) =>
      && m.Packet? && settled <= held <= |p| && taken <= held - settled
      && m.items == p[settled..held] && m.size == Range(p, settled, held)
  }

  function SettledAt(s: State): (n: int) { |s.yielded| - s.taken }

  function HeldAt(s: State): (n: int) { SettledAt(s) + |ItemsOf(s.current)| }

  /** Queue, wire and write buffer continue where the batch in hand ends; `queued` and `sent` are the borders. */
  ghost predicate Flows(p: seq<Item>, held: int, queue: seq<Message>, wire: seq<Message>, frames: seq<Item>,
                        buffered: nat, queued: nat, sent: nat)
  {
    && 0 <= held <= |p| && queued <= |p|
    && Carries(queue, p, held, queued)
    && Carries(wire, p, queued, sent)
    && sent <= |p| && frames == p[sent..]
    && buffered == Range(p, held, queued)
  }

  /** An ending is the last thing in the channel and means that the producer is done. */
  ghost predicate Endings(queue: seq<Message>, wire: seq<Message>, phase: Phase, exhausted: bool) {
    && (HasEnd(queue) ==> wire == [])
    && (HasEnd(queue) || HasEnd(wire) ==> phase == Ended)
    && (End in queue || End in wire ==> exhausted)
  }

  ghost predicate Reads(l: Limits, s: State) {
    && !s.overBudget && Gone !in s.back
    && 0 <= SettledAt(s) <= HeldAt(s) <= |s.produced|
    && Holds(s.produced, s.current, s.taken, SettledAt(s), HeldAt(s))
    && Owes(l, s.produced, s.permitted, SettledAt(s), s.owedBytes, s.owedItems)
    && Bounded(l, |s.produced| - SettledAt(s), Range(s.produced, SettledAt(s), |s.produced|))
    && Flows(s.produced, HeldAt(s), s.queue, s.wire, s.frames, s.buffered, s.arrived, s.flushed)
    && Endings(s.queue, s.wire, s.phase, s.exhausted)
  }

  ghost predicate Produces(l: Limits, s: State) {
    && (s.phase != Running ==> s.offered.None?)
    && (s.offered.Some? ==> |s.offered.value| + HEADER <= l.maxItem)
    && (forall i :: 0 <= i < |s.produced| ==> |s.produced[i]| + HEADER <= l.maxItem)
    && (s.phase == Draining(Normal) ==> s.exhausted)
    && (s.phase == Ended ==> s.frames == [])
  }

  ghost predicate Inv(l: Limits, s: State) {
    && s.yielded <= s.produced
    && s.permitted <= |s.produced|
    && Produces(l, s)
    && (s.phase == Running ==> Conserved(l, s.produced, s.credit, s.back, s.permitted))
    && (s.mode == Reading ==> Reads(l, s))
    && (s.mode == Completed ==> s.exhausted && s.phase == Ended && s.yielded == s.produced)
  }

  // ---------------------------------------------------------------- every event keeps it

  lemma OfferKeeps(l: Limits, s: State, item: Item)
    requires l.Valid() && Inv(l, s) && Conforming(l, Offer(item))
    ensures var r := Offered(l, s, item); r.Some? ==> Inv(l, r.value)
  {
    hide Holds, Owes, Conserved, Carries, Flows;
  }

  lemma PayConserves(l: Limits, s: State)
    requires l.Valid() && Inv(l, s) && PayFor(l, s).Some?
    ensures var s' := PayFor(l, s).value; Conserved(l, s'.produced, s'.credit, s'.back, s'.permitted)
  {
    var p, x := s.produced, s.offered.value;
    var from := |p| - s.credit.items;
    CostAppend(p, x, from);
    CostAppend(p, x, |p|);
    CoversGrow(s.back, p, x, from, s.permitted);
    RangeGrows(p, from, |p|);
  }

  lemma PayFlows(p: seq<Item>, x: Item, held: int, queue: seq<Message>, wire: seq<Message>, frames: seq<Item>, buffered: nat,
                 queued: nat, sent: nat)
    requires Flows(p, held, queue, wire, frames, buffered, queued, sent)
    ensures Flows(p + [x], held, queue, wire, frames + [x], buffered, queued, sent)
  {
    CarriesGrow(queue, p, x, held, queued);
    CarriesGrow(wire, p, x, queued, sent);
    CostAppend(p, x, held);
    CostAppend(p, x, queued);
    assert (p + [x])[sent..] == p[sent..] + [x];
  }

  lemma PayHolds(p: seq<Item>, x: Item, current: Option<Message>, taken: nat, settled: nat, held: nat)
    requires Holds(p, current, taken, settled, held) && held <= |p|
    ensures Holds(p + [x], current, taken, settled, held)
  {
    CostAppend(p, x, settled);
    CostAppend(p, x, held);
    assert (p + [x])[settled..held] == p[settled..held];
  }

  /** What is in flight is a part of what the credit counts. */
  lemma FlightBounded(l: Limits, p: seq<Item>, credit: Credit, back: seq<Permission>, permitted: nat, settled: nat)
    requires Conserved(l, p, credit, back, permitted) && permitted <= settled <= |p|
    ensures Bounded(l, |p| - settled, Range(p, settled, |p|))
  {
    CoversOrder(back, p, |p| - credit.items, permitted);
    RangeGrows(p, |p| - credit.items, settled);
  }

  lemma PayReads(l: Limits, s: State)
    requires l.Valid() && Inv(l, s) && PayFor(l, s).Some? && s.mode == Reading
    ensures Reads(l, PayFor(l, s).value)
  {
    hide Carries, Covers, Holds, Conserved, Flows;
    var s' := PayFor(l, s).value;
    var p, x := s.produced, s.offered.value;
    PayFlows(p, x, HeldAt(s), s.queue, s.wire, s.frames, s.buffered, s.arrived, s.flushed);
    PayHolds(p, x, s.current, s.taken, SettledAt(s), HeldAt(s));
    CostAppend(p, x, SettledAt(s));
    CostAppend(p, x, s.permitted);
    PayConserves(l, s);
    FlightBounded(l, s'.produced, s'.credit, s'.back, s.permitted, SettledAt(s));
  }

  lemma PayKeeps(l: Limits, s: State)
    requires l.Valid() && Inv(l, s) && PayFor(l, s).Some?
    ensures Inv(l, PayFor(l, s).value)
  {
    PayConserves(l, s);
    if s.mode == Reading {
      PayReads(l, s);
    }
  }

  lemma FlushFlows(p: seq<Item>, held: int, queue: seq<Message>, wire: seq<Message>, frames: seq<Item>, buffered: nat,
                 queued: nat, sent: nat)
    requires Flows(p, held, queue, wire, frames, buffered, queued, sent) && frames != [] && !HasEnd(wire)
    ensures Flows(p, held, queue, wire + [Packet(frames, Cost(frames))], [], buffered, queued, sent + |frames|)
  {
    var m := Packet(frames, Cost(frames));
    assert p[sent..] == p[sent..|p|];
    CostOfRange(p, sent, |p|);
    assert Carries([m], p, sent, |p|) by { assert [m][1..] == []; }
    CarriesAppend(wire, p, queued, sent, |p|, m);
  }

  lemma FlushKeeps(l: Limits, s: State)
    requires l.Valid() && Inv(l, s) && Flushed(s, 0).Some?
    ensures Inv(l, Flushed(s, 0).value)
  {
    hide Holds, Owes, Conserved, Carries;
    if s.mode == Reading {
      FlushFlows(s.produced, HeldAt(s), s.queue, s.wire, s.frames, s.buffered, s.arrived, s.flushed);
    }
  }

  lemma CloseFlows(p: seq<Item>, held: int, queue: seq<Message>, wire: seq<Message>, buffered: nat,
                   queued: nat, sent: nat, m: Message)
    requires Flows(p, held, queue, wire, [], buffered, queued, sent) && !HasEnd(wire) && !m.Packet?
    ensures Flows(p, held, queue, wire + [m], [], buffered, queued, sent)
  {
    CarriesAppend(wire, p, queued, sent, sent, m);
  }

  lemma CloseKeeps(l: Limits, s: State)
    requires l.Valid() && Inv(l, s) && Closed(s).Some?
    ensures Inv(l, Closed(s).value)
  {
    hide Conserved, Holds, Owes, Covers, Bounded, CostTo;
    var s' := Closed(s).value;
    if s.mode == Reading {
      if s.phase.how == Cancelled {
        assert s'.wire == s.wire;
      } else {
        var m := if s.phase.how == Normal then End else Failure;
        CloseFlows(s.produced, HeldAt(s), s.queue, s.wire, s.buffered, s.arrived, s.flushed, m);
        assert s'.wire == s.wire + [m];
      }
    }
  }

  /** A packet on the wire fits behind what the queue holds, whatever else is in flight. */
  lemma PacketFits(l: Limits, s: State)
    requires l.Valid() && Inv(l, s) && s.mode == Reading && s.wire != [] && s.wire[0].Packet?
    ensures |s.queue| < l.backlog && s.wire[0].size <= l.maxItem
    ensures s.buffered + s.wire[0].size <= l.window || s.queue == []
  {
    var p, m := s.produced, s.wire[0];
    var next := s.arrived + |m.items|;
    CarriesOrder(s.queue, p, HeldAt(s), s.arrived);
    CarriesOrder(s.wire[1..], p, next, s.flushed);
    RangeGrows(p, SettledAt(s), HeldAt(s));
    RangeGrows(p, next, |p|);
    if Range(p, SettledAt(s), |p|) > l.window {
      assert |p| - SettledAt(s) == 1 && s.arrived == SettledAt(s) && next == |p|;
      assert CostTo(p, next) == CostTo(p, s.arrived) + |p[s.arrived]| + HEADER;
    }
  }

  /** The limits of the consumer are never reached: no packet is refused, and the end has its slot. */
  lemma ArriveFits(l: Limits, s: State)
    requires l.Valid() && Inv(l, s) && s.mode == Reading && s.wire != []
    ensures !HasEnd(s.queue) && (!s.wire[0].Packet? ==> |s.wire| == 1)
    ensures var m, rest := s.wire[0], s.(wire := s.wire[1..], queue := s.queue + [s.wire[0]]);
            Arrive(l, s.(wire := s.wire[1..]), m)
            == if m.Packet? then rest.(buffered := s.buffered + m.size, arrived := s.arrived + |m.items|) else rest
  {
    if s.wire[0].Packet? {
      PacketFits(l, s);
    } else {
      CarriesOrder(s.queue, s.produced, HeldAt(s), s.arrived);
    }
  }

  lemma DeliverFlows(p: seq<Item>, held: int, queue: seq<Message>, wire: seq<Message>, frames: seq<Item>, buffered: nat,
                 queued: nat, sent: nat)
    requires Flows(p, held, queue, wire, frames, buffered, queued, sent) && wire != [] && !HasEnd(queue)
    ensures var m := wire[0];
            if m.Packet? then Flows(p, held, queue + [m], wire[1..], frames, buffered + m.size, queued + |m.items|, sent)
            else Flows(p, held, queue + [m], wire[1..], frames, buffered, queued, sent)
  {
    var m := wire[0];
    var next := queued + if m.Packet? then |m.items| else 0;
    assert Carries([m], p, queued, next) by { assert [m][1..] == []; }
    CarriesAppend(queue, p, held, queued, next, m);
    CarriesOrder(wire[1..], p, next, sent);
  }

  lemma DeliverKeeps(l: Limits, s: State)
    requires l.Valid() && Inv(l, s) && s.wire != []
    ensures Inv(l, Arrive(l, s.(wire := s.wire[1..]), s.wire[0]))
  {
    hide Holds, Owes, Conserved, Carries;
    if s.mode == Reading {
      ArriveFits(l, s);
      DeliverFlows(s.produced, HeldAt(s), s.queue, s.wire, s.frames, s.buffered, s.arrived, s.flushed);
      DeliverEndings(s.queue, s.wire, s.phase, s.exhausted);
    }
  }

  lemma DeliverEndings(queue: seq<Message>, wire: seq<Message>, phase: Phase, exhausted: bool)
    requires Endings(queue, wire, phase, exhausted) && wire != [] && !HasEnd(queue)
    requires !wire[0].Packet? ==> |wire| == 1
    ensures Endings(queue + [wire[0]], wire[1..], phase, exhausted)
  {
    assert forall m :: m in wire[1..] ==> m in wire;
    assert wire[0] in wire;
  }

  lemma TakePacket(l: Limits, s: State)
    requires l.Valid() && Inv(l, s) && Taken(s).Some? && s.queue[0].Packet?
    ensures Reads(l, Taken(s).value)
  {
    hide Conserved, Owes, Covers, Bounded;
    var p, m := s.produced, s.queue[0];
    var next := HeldAt(s) + |m.items|;
    CarriesOrder(s.queue[1..], p, next, s.arrived);
    RangeGrows(p, next, s.arrived);
  }

  lemma TakeKeeps(l: Limits, s: State)
    requires l.Valid() && Inv(l, s) && Taken(s).Some?
    ensures Inv(l, Taken(s).value)
  {
    if s.queue[0].Packet? {
      TakePacket(l, s);
    } else {
        assert HasEnd(s.queue) && s.wire == [] && s.frames == [];
      assert s.yielded == s.produced;
    }
  }

  lemma YieldKeeps(l: Limits, s: State)
    requires l.Valid() && Inv(l, s) && Yielded(s).Some?
    ensures Inv(l, Yielded(s).value)
  {
    hide Conserved, Owes, Flows, Endings, Bounded, Covers;
    var s' := Yielded(s).value;
    assert ItemsOf(s.current)[s.taken] == s.produced[|s.yielded|];
    assert SettledAt(s') == SettledAt(s) && HeldAt(s') == HeldAt(s);
  }

  lemma SettleOwes(l: Limits, s: State)
    requires l.Valid() && Reads(l, s) && SettleUp(l, s).Some?
    ensures var s' := SettleUp(l, s).value;
            && SettledAt(s') == HeldAt(s') == HeldAt(s) == |s.yielded|
            && Owes(l, s.produced, s'.permitted, SettledAt(s'), s'.owedBytes, s'.owedItems)
            && Holds(s.produced, s'.current, s'.taken, SettledAt(s'), HeldAt(s'))
            && Bounded(l, |s.produced| - SettledAt(s'), Range(s.produced, SettledAt(s'), |s.produced|))
            && s.permitted <= s'.permitted <= |s.produced| && Range(s.produced, s.permitted, s'.permitted) >= 0
            && ((s'.back == s.back && s'.permitted == s.permitted)
                || s'.back == s.back + [Permit(Range(s.produced, s.permitted, s'.permitted), s'.permitted - s.permitted)])
  {
    hide Carries, Flows, Endings;
    RangeGrows(s.produced, SettledAt(s), HeldAt(s));
    RangeGrows(s.produced, s.permitted, SettledAt(s));
  }

  lemma SettleKeeps(l: Limits, s: State)
    requires l.Valid() && Inv(l, s) && SettleUp(l, s).Some?
    ensures Inv(l, SettleUp(l, s).value)
  {
    hide Carries, Covers, Flows, Endings, Holds, Owes, Range;
    var s' := SettleUp(l, s).value;
    SettleOwes(l, s);
    if s.phase == Running && s'.back != s.back {
      CoversAppend(s.back, s.produced, |s.produced| - s.credit.items, s.permitted, s'.back[|s.back|]);
      assert s'.back == s.back + [s'.back[|s.back|]];
    }
  }

  lemma LeaveKeeps(l: Limits, s: State)
    requires l.Valid() && Inv(l, s) && s.mode == Reading
    ensures Inv(l, s.(mode := Left, back := s.back + [Gone]))
  {
    hide Holds, Owes, Carries, Flows;
    if s.phase == Running {
      CoversAppend(s.back, s.produced, |s.produced| - s.credit.items, s.permitted, Gone);
    }
  }

  /** Permission that comes back never exceeds what is in flight. */
  lemma GiveBackNeverRaises(l: Limits, s: State)
    requires l.Valid() && Inv(l, s) && s.phase == Running && s.back != [] && s.back[0].Permit?
    ensures var c := GiveBack(s.credit, s.back[0].bytes, s.back[0].items);
            c.Some? && Conserved(l, s.produced, c.value, s.back[1..], s.permitted)
  {
    var p := s.produced;
    var from := |p| - s.credit.items;
    var next := from + s.back[0].items;
    CoversOrder(s.back[1..], p, next, s.permitted);
    RangeGrows(p, from, next);
    RangeGrows(p, next, |p|);
  }

  lemma ReturnKeeps(l: Limits, s: State)
    requires l.Valid() && Inv(l, s) && s.back != []
    ensures Inv(l, Permitted(s.(back := s.back[1..]), s.back[0]))
  {
    hide Conserved, Holds, Owes, Carries, Flows;
    assert forall b :: b in s.back[1..] ==> b in s.back;
    if s.phase == Running && s.back[0].Permit? {
      GiveBackNeverRaises(l, s);
    }
  }

  /** A conforming consumer never makes a running producer stop in `spend`. */
  lemma NeverReleased(l: Limits, s: State)
    requires Inv(l, s)
    ensures Step(l, s, Stop).None?
  {
  }

  lemma ExhaustKeeps(l: Limits, s: State)
    requires l.Valid() && Inv(l, s) && Step(l, s, Exhaust).Some?
    ensures Inv(l, Step(l, s, Exhaust).value)
  {
    hide Holds, Owes, Conserved, Carries, Flows;
  }

  lemma StepKeeps(l: Limits, s: State, e: Event)
    requires l.Valid() && Inv(l, s) && Conforming(l, e)
    ensures var r := Step(l, s, e); r.Some? ==> Inv(l, r.value)
  {
    hide Reads, Conserved, Produces, Offered, PayFor, Flushed, Closed, Arrive, Taken, Yielded, SettleUp, Permitted;
    NeverReleased(l, s);
    if Step(l, s, e).Some? {
      match e
      case Offer(item) => OfferKeeps(l, s, item);
      case Pay => PayKeeps(l, s);
      case Exhaust => ExhaustKeeps(l, s);
      case Stop =>
      case Flush(_) => FlushKeeps(l, s);
      case Close => CloseKeeps(l, s);
      case Deliver => DeliverKeeps(l, s);
      case Take => TakeKeeps(l, s);
      case Yield => YieldKeeps(l, s);
      case Settle => SettleKeeps(l, s);
      case Leave => LeaveKeeps(l, s);
      case Return => ReturnKeeps(l, s);
    }
  }

  lemma {:induction false} RunKeeps(l: Limits, s: State, events: seq<Event>)
    requires l.Valid() && Inv(l, s) && ConformingRun(l, events)
    ensures var r := Run(l, s, events); r.Some? ==> Inv(l, r.value)
    decreases |events|
  {
    if events != [] {
      StepKeeps(l, s, events[0]);
      var s' := Step(l, s, events[0]);
      if s'.Some? {
        RunKeeps(l, s'.value, events[1..]);
      }
    }
  }

  lemma InitialInv(l: Limits)
    requires l.Valid()
    ensures Inv(l, Initial)
  {
  }
}
