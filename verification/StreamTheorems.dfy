/** The promises of a stream over whole runs, and where exactly they stop. */
module StreamTheorems {
  import opened Prelude
  import opened Streams
  import opened StreamSafety

  // ---------------------------------------------------------------- conservation

  function PacketBytes(ms: seq<Message>): (n: nat) {
    if ms == [] then 0 else (if ms[0].Packet? then ms[0].size else 0) + PacketBytes(ms[1..])
  }

  function PacketItems(ms: seq<Message>): (n: nat) {
    if ms == [] then 0 else (if ms[0].Packet? then |ms[0].items| else 0) + PacketItems(ms[1..])
  }

  function PermitBytes(back: seq<Permission>): (n: nat) {
    if back == [] then 0 else (if back[0].Permit? then back[0].bytes else 0) + PermitBytes(back[1..])
  }

  function PermitItems(back: seq<Permission>): (n: nat) {
    if back == [] then 0 else (if back[0].Permit? then back[0].items else 0) + PermitItems(back[1..])
  }

  lemma {:induction false} CarriedSums(ms: seq<Message>, p: seq<Item>, from: nat, until: nat)
    requires Carries(ms, p, from, until) && until <= |p|
    ensures from <= until && PacketBytes(ms) == Range(p, from, until) && PacketItems(ms) == until - from
    decreases |ms|
  {
    if ms != [] && ms[0].Packet? {
      CarriedSums(ms[1..], p, from + |ms[0].items|, until);
    } else if ms != [] {
      assert ms[1..] == [];
    }
  }

  lemma {:induction false} CoveredSums(back: seq<Permission>, p: seq<Item>, from: nat, until: nat)
    requires Covers(back, p, from, until) && until <= |p|
    ensures from <= until && PermitBytes(back) == Range(p, from, until) && PermitItems(back) == until - from
    decreases |back|
  {
    if back != [] && back[0].Permit? {
      CoveredSums(back[1..], p, from + back[0].items, until);
    } else if back != [] {
      assert back[1..] == [];
    }
  }

  /**
   Credit conservation: in every reachable state of a stream whose consumer still reads, the bytes and
   items the producer counts as in flight are those in its buffer, on the wire, in the queue, in the
   caller's hands, owed, and travelling back.
   */
  lemma CreditIsConserved(l: Limits, events: seq<Event>, s: State)
    requires l.Valid() && ConformingRun(l, events) && Run(l, Initial, events) == Some(s)
    requires s.phase == Running && s.mode == Reading
    ensures s.credit.bytes == Cost(s.frames) + PacketBytes(s.wire) + PacketBytes(s.queue)
                              + PacketBytes(if s.current.Some? then [s.current.value] else [])
                              + s.owedBytes + PermitBytes(s.back)
    ensures s.credit.items == |s.frames| + PacketItems(s.wire) + PacketItems(s.queue) + |ItemsOf(s.current)|
                              + s.owedItems + PermitItems(s.back)
  {
    hide Run, Step, Carries, Covers, CostTo, Endings;
    InitialInv(l);
    RunKeeps(l, Initial, events);
    var p := s.produced;
    CarriedSums(s.queue, p, HeldAt(s), s.arrived);
    CarriedSums(s.wire, p, s.arrived, s.flushed);
    CoveredSums(s.back, p, |p| - s.credit.items, s.permitted);
    assert p[s.flushed..] == p[s.flushed..|p|];
    CostOfRange(p, s.flushed, |p|);
    if s.current.Some? {
      assert [s.current.value][1..] == [];
    }
  }

  /** In no reachable state does permission that comes back exceed what is in flight. */
  lemma ReturnNeverReleases(l: Limits, events: seq<Event>, s: State)
    requires l.Valid() && ConformingRun(l, events) && Run(l, Initial, events) == Some(s)
    requires s.phase == Running && s.back != [] && s.back[0].Permit?
    ensures GiveBack(s.credit, s.back[0].bytes, s.back[0].items).Some?
  {
    InitialInv(l);
    RunKeeps(l, Initial, events);
    GiveBackNeverRaises(l, s);
  }

  // ---------------------------------------------------------------- delivery

  /**
   Exactly once and in order: what the caller received is always a prefix of what was produced; a
   normal end means that the method ran to its end and every item arrived; and the consumer never
   refuses a packet of a conforming producer.
   */
  lemma DeliveredInOrder(l: Limits, events: seq<Event>, s: State)
    requires l.Valid() && ConformingRun(l, events) && Run(l, Initial, events) == Some(s)
    ensures s.yielded <= s.produced
    ensures s.mode == Completed ==> s.exhausted && s.yielded == s.produced
    ensures !s.overBudget
  {
    InitialInv(l);
    RunKeeps(l, Initial, events);
    NeverOver(l, Initial, events);
  }

  lemma {:induction false} NeverOver(l: Limits, s: State, events: seq<Event>)
    requires l.Valid() && ConformingRun(l, events) && Inv(l, s) && !s.overBudget
    ensures var r := Run(l, s, events); r.Some? ==> !r.value.overBudget
    decreases |events|
  {
    hide Inv, Step;
    if events != [] {
      var s' := Step(l, s, events[0]);
      if s'.Some? {
        assert Conforming(l, events[0]);
        StepKeeps(l, s, events[0]);
        StepNotOver(l, s, events[0], s'.value);
        assert forall i :: 0 <= i < |events[1..]| ==> events[1..][i] == events[i + 1];
        NeverOver(l, s'.value, events[1..]);
      }
    }
  }

  /** Only an arrival at a consumer that reads can set the flag, and such a state has it unset. */
  lemma StepNotOver(l: Limits, s: State, e: Event, d: State)
    requires Inv(l, d) && !s.overBudget && Step(l, s, e) == Some(d)
    ensures !d.overBudget
  {
    hide Produces, Conserved, Holds, Owes, Flows, Endings;
  }

  // ---------------------------------------------------------------- progress

  /** The producer waits in `spend`, the consumer waits for its queue, and nothing is under way. */
  predicate Stuck(l: Limits, s: State) {
    && s.phase == Running && s.offered.Some? && !s.credit.released
    && !Fits(l, s.credit, |s.offered.value| + HEADER)
    && s.mode == Reading && s.current.None?
    && s.frames == [] && s.wire == [] && s.queue == [] && s.back == []
  }

  /** The most a consumer can owe without sending permission back. */
  function MaxDebt(l: Limits): (n: int) { (l.window - 1) / 2 }

  lemma NeverStuck(l: Limits, events: seq<Event>, s: State)
    requires l.Valid() && ConformingRun(l, events) && Run(l, Initial, events) == Some(s)
    requires s.offered.Some? && |s.offered.value| + HEADER + MaxDebt(l) <= l.window
    ensures !Stuck(l, s)
  {
    if Stuck(l, s) {
      CreditIsConserved(l, events, s);
      InitialInv(l);
      RunKeeps(l, Initial, events);
    }
  }

  lemma RunCons(l: Limits, s: State, e: Event, rest: seq<Event>)
    requires Step(l, s, e).Some?
    ensures Run(l, s, [e] + rest) == Run(l, Step(l, s, e).value, rest)
  {
    assert ([e] + rest)[1..] == rest;
  }

  lemma CostOfOne(x: Item)
    ensures Cost([x]) == |x| + HEADER
  {
    assert CostTo([x], 1) == CostTo([x], 0) + |x| + HEADER;
  }

  /** One item travels alone to the consumer's queue. */
  lemma AloneInQueue(l: Limits, x: Item, envelope: nat, rest: seq<Event>) returns (s: State)
    requires l.Valid() && |x| <= l.maxItem
    ensures s == Initial.(produced := [x], credit := Credit(|x| + HEADER, 1, false),
                          wire := [Packet([x], |x| + HEADER + envelope)], flushed := 1)
    ensures Run(l, Initial, [Offer(x)] + ([Pay] + ([Flush(envelope)] + rest))) == Run(l, s, rest)
  {
    CostOfOne(x);
    var s1 := Step(l, Initial, Offer(x)).value;
    var s2 := Step(l, s1, Pay).value;
    s := Step(l, s2, Flush(envelope)).value;
    assert [] + [x] == [x];
    RunCons(l, Initial, Offer(x), [Pay] + ([Flush(envelope)] + rest));
    RunCons(l, s1, Pay, [Flush(envelope)] + rest);
    RunCons(l, s2, Flush(envelope), rest);
  }

  /** One item travels alone and is consumed, and the caller asks for the next one. */
  lemma AloneConsumed(l: Limits, x: Item, envelope: nat, rest: seq<Event>) returns (s: State)
    requires l.Valid() && |x| + HEADER + envelope <= l.maxItem
    ensures Run(l, Initial, [Offer(x)] + ([Pay] + ([Flush(envelope)] + ([Deliver] + ([Take] + ([Yield] + ([Settle] + rest)))))))
         == Run(l, s, rest)
    ensures var size := |x| + HEADER + envelope;
            var s' := Initial.(produced := [x], yielded := [x], credit := Credit(|x| + HEADER, 1, false), flushed := 1, arrived := 1);
            s == if size * 2 >= l.window || 2 >= l.backlog
                 then s'.(back := [Permit(size, 1)], permitted := 1)
                 else s'.(owedBytes := size, owedItems := 1)
  {
    var s3 := AloneInQueue(l, x, envelope, [Deliver] + ([Take] + ([Yield] + ([Settle] + rest))));
    var m := Packet([x], |x| + HEADER + envelope);
    var s4 := Step(l, s3, Deliver).value;
    assert [m][1..] == [];
    assert s4 == s3.(wire := [], queue := [m], buffered := m.size, arrived := 1);
    var s5 := Step(l, s4, Take).value;
    assert s5 == s4.(queue := [], buffered := 0, current := Some(m));
    var s6 := Step(l, s5, Yield).value;
    s := Step(l, s6, Settle).value;
    RunCons(l, s3, Deliver, [Take] + ([Yield] + ([Settle] + rest)));
    RunCons(l, s4, Take, [Yield] + ([Settle] + rest));
    RunCons(l, s5, Yield, [Settle] + rest);
    RunCons(l, s6, Settle, rest);
  }

  /** A small item, consumed and kept as a debt, followed by an item that no longer fits. */
  lemma StuckRun(l: Limits, small: Item, big: Item) returns (events: seq<Event>, s: State)
    requires l.Valid() && 3 <= l.backlog && |big| + HEADER <= l.maxItem
    requires |small| + HEADER == MaxDebt(l) && |big| + HEADER + MaxDebt(l) > l.window
    ensures ConformingRun(l, events) && Run(l, Initial, events) == Some(s)
    ensures s.offered == Some(big) && Stuck(l, s)
  {
    var s7 := AloneConsumed(l, small, 0, [Offer(big)]);
    s := Step(l, s7, Offer(big)).value;
    RunCons(l, s7, Offer(big), []);
    assert [Offer(big)] + [] == [Offer(big)];
    events := [Offer(small)] + ([Pay] + ([Flush(0)] + ([Deliver] + ([Take] + ([Yield] + ([Settle] + [Offer(big)]))))));
  }

  /** A debt is possible at all: one item costs its header, and less than half of either budget may be owed. */
  predicate DebtPossible(l: Limits) { 3 <= l.backlog && HEADER <= MaxDebt(l) }

  /**
   No deadlock, exactly, for all limits: an item can be left waiting with nothing under way if and only if
   the consumer may keep a debt and the item does not fit beside the largest one.
   */
  lemma StuckExactlyWhen(l: Limits, big: Item)
    requires l.Valid() && |big| + HEADER <= l.maxItem
    ensures (exists events, s :: ConformingRun(l, events) && Run(l, Initial, events) == Some(s)
                                 && s.offered == Some(big) && Stuck(l, s))
       <==> DebtPossible(l) && |big| + HEADER + MaxDebt(l) > l.window
  {
    if DebtPossible(l) && |big| + HEADER + MaxDebt(l) > l.window {
      var small: Item := seq(MaxDebt(l) - HEADER, _ => 0);
      var events, s := StuckRun(l, small, big);
    } else {
      forall events, s | ConformingRun(l, events) && Run(l, Initial, events) == Some(s) && s.offered == Some(big)
        ensures !Stuck(l, s)
      {
        if DebtPossible(l) { NeverStuck(l, events, s); } else { NoDebtNoStuck(l, events, s); }
      }
    }
  }

  /** Where no debt is possible, nothing ever blocks. */
  lemma NoDebtNoStuck(l: Limits, events: seq<Event>, s: State)
    requires l.Valid() && ConformingRun(l, events) && Run(l, Initial, events) == Some(s) && !DebtPossible(l)
    ensures !Stuck(l, s)
  {
    if Stuck(l, s) {
      CreditIsConserved(l, events, s);
      InitialInv(l);
      RunKeeps(l, Initial, events);
      RangeGrows(s.produced, s.permitted, SettledAt(s));
      assert false;
    }
  }

  /** Items of at most half the window never block. */
  lemma HalfWindowNeverStuck(l: Limits, events: seq<Event>, s: State)
    requires l.Valid() && ConformingRun(l, events) && Run(l, Initial, events) == Some(s)
    requires s.offered.Some? && (|s.offered.value| + HEADER) * 2 <= l.window
    ensures !Stuck(l, s)
  {
    NeverStuck(l, events, s);
  }

  // ---------------------------------------------------------------- why the side conditions are needed

  /** A run without envelopes that offers only `x`. */
  predicate OffersOnly(events: seq<Event>, x: Item) {
    forall i :: 0 <= i < |events| ==> (events[i].Flush? ==> events[i].envelope == 0) && (events[i].Offer? ==> events[i].item == x)
  }

  /**
   The producer accepts an item of up to `maxItem` bytes, and the consumer counts its header too: a stream
   of such an item can go over budget, although the producer kept every rule, if and only if the header
   does not fit.
   */
  lemma HeaderBreaksLargestItems(l: Limits, x: Item)
    requires l.Valid() && |x| <= l.maxItem
    ensures (exists events, s :: OffersOnly(events, x) && Run(l, Initial, events) == Some(s) && s.overBudget)
       <==> |x| + HEADER > l.maxItem
  {
    if |x| + HEADER > l.maxItem {
      var s := AloneInQueue(l, x, 0, [Deliver]);
      RunCons(l, s, Deliver, []);
      assert [Deliver] + [] == [Deliver];
      var events := [Offer(x)] + ([Pay] + ([Flush(0)] + [Deliver]));
      assert OffersOnly(events, x);
      assert Run(l, Initial, events) == Some(Step(l, s, Deliver).value);
    } else {
      forall events, s | OffersOnly(events, x) && Run(l, Initial, events) == Some(s) ensures !s.overBudget {
        assert forall i :: 0 <= i < |events| ==> Conforming(l, events[i]);
        DeliveredInOrder(l, events, s);
      }
    }
  }
}
