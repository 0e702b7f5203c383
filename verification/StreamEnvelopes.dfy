/**
 A source manifest around one packet of a stream: the consumer counts its bytes and the producer does not.
 Whatever the limits, such a stream can stop its producer, and can then end like a complete one; and a
 second item that fits beside the first can break the consumer's budget.
 */
module StreamEnvelopes {
  import opened Prelude
  import opened Streams
  import opened StreamSafety
  import opened StreamTheorems

  /** A run whose first packet carries `x` in an envelope; after it every rule is kept. */
  predicate Enveloped(l: Limits, x: Item, envelope: nat, events: seq<Event>) {
    && 3 <= |events| && events[0] == Offer(x) && events[1] == Pay && events[2] == Flush(envelope)
    && ConformingRun(l, events[3..])
  }

  lemma {:induction false} RunAppend(l: Limits, s: State, a: seq<Event>, b: seq<Event>)
    requires Run(l, s, a).Some?
    ensures Run(l, s, a + b) == Run(l, Run(l, s, a).value, b)
    decreases |a|
  {
    hide Step;
    if a == [] {
      assert a + b == b;
    } else {
      RunAppend(l, Step(l, s, a[0]).value, a[1..], b);
      assert (a + b)[1..] == a[1..] + b;
    }
  }

  // ---------------------------------------------------------------- one item there and consumed

  /** Both sides wait for the next item. */
  predicate Quiet(l: Limits, s: State) {
    && s.phase == Running && s.offered.None? && s.frames == [] && s.wire == [] && s.back == []
    && s.mode == Reading && s.queue == [] && s.buffered == 0 && !s.overBudget && s.current.None? && s.taken == 0
  }

  function Trip(x: Item, envelope: nat): (events: seq<Event>) { [Offer(x), Pay, Flush(envelope), Deliver, Take, Yield, Settle] }

  /** What a trip of one item does: the producer paid its cost, the consumer counts the envelope too. */
  function Tripped(l: Limits, s: State, x: Item, envelope: nat): (d: State) {
    var cost, size := |x| + HEADER, s.owedBytes + |x| + HEADER + envelope;
    var items := s.owedItems + 1;
    var d := s.(produced := s.produced + [x], yielded := s.yielded + [x],
                credit := s.credit.(bytes := s.credit.bytes + cost, items := s.credit.items + 1),
                flushed := s.flushed + 1, arrived := s.arrived + 1);
    if size * 2 >= l.window || items * 2 >= l.backlog
    then d.(owedBytes := 0, owedItems := 0, back := [Permit(size, items)], permitted := s.permitted + items)
    else d.(owedBytes := size, owedItems := items)
  }

  lemma TripRuns(l: Limits, s: State, x: Item, envelope: nat)
    requires l.Valid() && Quiet(l, s) && !s.credit.released && |x| + HEADER + envelope <= l.maxItem
    requires Fits(l, s.credit, |x| + HEADER)
    ensures Run(l, s, Trip(x, envelope)) == Some(Tripped(l, s, x, envelope))
  {
    hide Run, Step, Tripped;
    var m := Packet([x], |x| + HEADER + envelope);
    var s1, s2, s3 := Sending(l, s, x, envelope, m);
    var s4, s5, s6 := Receiving(l, s3, m);
    Settling(l, s, x, envelope, m, s6);
    SevenSteps(l, s, x, envelope, s1, s2, s3, s4, s5, s6, Tripped(l, s, x, envelope));
  }

  /** The item is on the wire. */
  function OnWire(s: State, x: Item, m: Message): (d: State) {
    s.(credit := s.credit.(bytes := s.credit.bytes + |x| + HEADER, items := s.credit.items + 1),
       produced := s.produced + [x], wire := [m], flushed := s.flushed + 1)
  }

  lemma Sending(l: Limits, s: State, x: Item, envelope: nat, m: Message) returns (s1: State, s2: State, s3: State)
    requires Quiet(l, s) && !s.credit.released && |x| <= l.maxItem && Fits(l, s.credit, |x| + HEADER)
    requires m == Packet([x], |x| + HEADER + envelope)
    ensures Step(l, s, Offer(x)) == Some(s1) && Step(l, s1, Pay) == Some(s2) && Step(l, s2, Flush(envelope)) == Some(s3)
    ensures s3 == OnWire(s, x, m)
  {
    CostOfOne(x);
    s1 := s.(offered := Some(x));
    s2 := s.(credit := s.credit.(bytes := s.credit.bytes + |x| + HEADER, items := s.credit.items + 1),
             frames := [x], produced := s.produced + [x]);
    s3 := OnWire(s, x, m);
    assert [] + [x] == [x] && [] + [m] == [m];
  }

  lemma Receiving(l: Limits, s: State, m: Message) returns (s4: State, s5: State, s6: State)
    requires l.Valid() && s.mode == Reading && s.wire == [m] && m.Packet? && |m.items| == 1 && m.size <= l.maxItem
    requires s.queue == [] && s.buffered == 0 && !s.overBudget && s.current.None? && s.taken == 0
    ensures Step(l, s, Deliver) == Some(s4) && Step(l, s4, Take) == Some(s5) && Step(l, s5, Yield) == Some(s6)
    ensures s6 == s.(wire := [], current := Some(m), arrived := s.arrived + 1, yielded := s.yielded + [m.items[0]], taken := 1)
  {
    assert [m][1..] == [] && [] + [m] == [m];
    s4 := s.(wire := [], queue := [m], buffered := m.size, arrived := s.arrived + 1);
    s5 := s4.(queue := [], buffered := 0, current := Some(m));
    s6 := s5.(yielded := s.yielded + [m.items[0]], taken := 1);
  }

  lemma Settling(l: Limits, s: State, x: Item, envelope: nat, m: Message, s6: State)
    requires Quiet(l, s) && m == Packet([x], |x| + HEADER + envelope)
    requires var s3 := OnWire(s, x, m);
             s6 == s3.(wire := [], current := Some(m), arrived := s.arrived + 1, yielded := s.yielded + [x], taken := 1)
    ensures Step(l, s6, Settle) == Some(Tripped(l, s, x, envelope))
  {
    var p := Permit(s.owedBytes + m.size, s.owedItems + 1);
    assert [] + [p] == [p];
  }

  lemma SevenSteps(l: Limits, s: State, x: Item, envelope: nat, s1: State, s2: State, s3: State, s4: State, s5: State, s6: State, s7: State)
    requires Step(l, s, Offer(x)) == Some(s1) && Step(l, s1, Pay) == Some(s2) && Step(l, s2, Flush(envelope)) == Some(s3)
    requires Step(l, s3, Deliver) == Some(s4) && Step(l, s4, Take) == Some(s5) && Step(l, s5, Yield) == Some(s6)
    requires Step(l, s6, Settle) == Some(s7)
    ensures Run(l, s, Trip(x, envelope)) == Some(s7)
  {
    hide Step, Run;
    OneStep(l, s6, Settle, [], s7);
    OneStep(l, s5, Yield, [Settle], s6);
    OneStep(l, s4, Take, [Yield, Settle], s5);
    OneStep(l, s3, Deliver, [Take, Yield, Settle], s4);
    OneStep(l, s2, Flush(envelope), [Deliver, Take, Yield, Settle], s3);
    OneStep(l, s1, Pay, [Flush(envelope), Deliver, Take, Yield, Settle], s2);
    OneStep(l, s, Offer(x), [Pay, Flush(envelope), Deliver, Take, Yield, Settle], s1);
    assert [Offer(x)] + [Pay, Flush(envelope), Deliver, Take, Yield, Settle] == Trip(x, envelope);
    assert [Pay] + [Flush(envelope), Deliver, Take, Yield, Settle] == [Pay, Flush(envelope), Deliver, Take, Yield, Settle];
    assert [Flush(envelope)] + [Deliver, Take, Yield, Settle] == [Flush(envelope), Deliver, Take, Yield, Settle];
    assert [Deliver] + [Take, Yield, Settle] == [Deliver, Take, Yield, Settle];
    assert [Take] + [Yield, Settle] == [Take, Yield, Settle] && [Yield] + [Settle] == [Yield, Settle] && [Settle] + [] == [Settle];
    NoEvents(l, s7);
  }

  lemma OneStep(l: Limits, s: State, e: Event, rest: seq<Event>, d: State)
    requires Step(l, s, e) == Some(d)
    ensures Run(l, s, [e] + rest) == Run(l, d, rest)
  {
    RunCons(l, s, e, rest);
  }

  lemma NoEvents(l: Limits, s: State)
    ensures Run(l, s, []) == Some(s)
  {
  }

  // ---------------------------------------------------------------- the debt grows until it is paid

  /** After the enveloped item and some more like it: the debt exceeds what is in flight by the envelope. */
  predicate Indebted(l: Limits, s: State, x: Item, envelope: nat) {
    && Quiet(l, s) && !s.exhausted && !s.credit.released
    && s.owedBytes == s.credit.bytes + envelope && s.owedItems == s.credit.items
    && s.owedBytes * 2 < l.window && s.owedItems * 2 < l.backlog
    && (|x| + HEADER + envelope) * 2 < l.window && 0 < s.credit.items
  }

  /** The permission for more than is in flight is under way. */
  predicate Overpaid(s: State) {
    && s.phase == Running && s.offered.None? && !s.exhausted && s.frames == [] && s.wire == []
    && s.mode == Reading && s.queue == [] && s.current.None?
    && |s.back| == 1 && s.back[0].Permit? && s.back[0].bytes > s.credit.bytes
  }

  lemma {:induction false} DebtGrows(l: Limits, s: State, x: Item, envelope: nat) returns (events: seq<Event>, d: State)
    requires l.Valid() && 0 < envelope && |x| + HEADER + envelope <= l.maxItem && Indebted(l, s, x, envelope)
    ensures ConformingRun(l, events) && Run(l, s, events) == Some(d) && Overpaid(d)
    decreases l.window - s.credit.bytes
  {
    hide Run;
    TripRuns(l, s, x, 0);
    var next := Tripped(l, s, x, 0);
    events, d := Trip(x, 0), next;
    if Indebted(l, next, x, envelope) {
      var more;
      more, d := DebtGrows(l, next, x, envelope);
      RunAppend(l, s, Trip(x, 0), more);
      events := Trip(x, 0) + more;
    }
  }

  lemma ReachOverpaid(l: Limits, x: Item, envelope: nat) returns (events: seq<Event>, s: State)
    requires l.Valid() && 0 < envelope && |x| + HEADER + envelope <= l.maxItem
    ensures Enveloped(l, x, envelope, events) && Run(l, Initial, events) == Some(s) && Overpaid(s)
  {
    hide Run;
    TripRuns(l, Initial, x, envelope);
    var next := Tripped(l, Initial, x, envelope);
    events, s := Trip(x, envelope), next;
    assert events[3..] == [Deliver, Take, Yield, Settle];
    if Indebted(l, next, x, envelope) {
      var more;
      more, s := DebtGrows(l, next, x, envelope);
      RunAppend(l, Initial, Trip(x, envelope), more);
      events := Trip(x, envelope) + more;
      assert events[3..] == [Deliver, Take, Yield, Settle] + more;
    }
  }

  // ---------------------------------------------------------------- what follows

  /** The producer was stopped while the consumer still reads. */
  predicate Stopped(s: State) { s.mode == Reading && s.phase == Running && s.credit.released }

  /** The caller saw a normal end of a stream that did not reach its end. */
  predicate Truncated(s: State) { s.mode == Completed && !s.exhausted }

  lemma Stops(l: Limits, x: Item, envelope: nat) returns (events: seq<Event>, s: State)
    requires l.Valid() && 0 < envelope && |x| + HEADER + envelope <= l.maxItem
    ensures Enveloped(l, x, envelope, events) && Run(l, Initial, events) == Some(s) && Stopped(s)
    ensures s.offered.None? && !s.exhausted && s.frames == [] && s.wire == [] && s.queue == [] && s.current.None?
  {
    var before, d := ReachOverpaid(l, x, envelope);
    s := Permitted(d.(back := d.back[1..]), d.back[0]);
    assert Step(l, d, Return) == Some(s);
    hide Run, Step;
    OneStep(l, d, Return, [], s);
    NoEvents(l, s);
    assert [Return] + [] == [Return];
    RunAppend(l, Initial, before, [Return]);
    events := before + [Return];
    assert events[3..] == before[3..] + [Return];
  }

  lemma Ending(l: Limits, d: State, x: Item) returns (d1: State, d2: State, d3: State, d4: State, s: State)
    requires l.Valid() && Stopped(d) && |x| <= l.maxItem
    requires d.offered.None? && !d.exhausted && d.frames == [] && d.wire == [] && d.queue == [] && d.current.None?
    ensures Step(l, d, Offer(x)) == Some(d1) && Step(l, d1, Stop) == Some(d2) && Step(l, d2, Close) == Some(d3)
    ensures Step(l, d3, Deliver) == Some(d4) && Step(l, d4, Take) == Some(s) && Truncated(s)
  {
    d1 := d.(offered := Some(x));
    d2 := d1.(phase := Draining(Normal), offered := None);
    d3 := d2.(phase := Ended, wire := [End]);
    d4 := d3.(wire := [], queue := [End]);
    s := d4.(queue := [], mode := Completed);
    assert [] + [End] == [End] && [End][1..] == [];
  }

  lemma Truncates(l: Limits, x: Item, envelope: nat) returns (events: seq<Event>, s: State)
    requires l.Valid() && 0 < envelope && |x| + HEADER + envelope <= l.maxItem
    ensures Enveloped(l, x, envelope, events) && Run(l, Initial, events) == Some(s) && Truncated(s)
  {
    hide Run, Step;
    var before, d := Stops(l, x, envelope);
    var d1, d2, d3, d4;
    d1, d2, d3, d4, s := Ending(l, d, x);
    OneStep(l, d4, Take, [], s);
    OneStep(l, d3, Deliver, [Take], d4);
    OneStep(l, d2, Close, [Deliver, Take], d3);
    OneStep(l, d1, Stop, [Close, Deliver, Take], d2);
    OneStep(l, d, Offer(x), [Stop, Close, Deliver, Take], d1);
    NoEvents(l, s);
    assert [Take] + [] == [Take] && [Deliver] + [Take] == [Deliver, Take] && [Close] + [Deliver, Take] == [Close, Deliver, Take];
    assert [Stop] + [Close, Deliver, Take] == [Stop, Close, Deliver, Take];
    var last := [Offer(x)] + [Stop, Close, Deliver, Take];
    RunAppend(l, Initial, before, last);
    events := before + last;
    assert events[3..] == before[3..] + last;
  }

  /** Without an envelope the run keeps every rule. */
  lemma PlainIsConforming(l: Limits, x: Item, events: seq<Event>)
    requires |x| + HEADER <= l.maxItem && Enveloped(l, x, 0, events)
    ensures ConformingRun(l, events)
  {
    forall i | 0 <= i < |events| ensures Conforming(l, events[i]) {
      if 3 <= i { assert events[i] == events[3..][i - 3]; }
    }
  }

  /**
   An envelope of any size, around an item of any size that the consumer accepts, and whatever the limits:
   the producer can be stopped while the consumer reads, and the caller can see a normal end of a truncated
   stream, if and only if the envelope is not empty.
   */
  lemma EnvelopeStopsTheSender(l: Limits, x: Item, envelope: nat)
    requires l.Valid() && |x| + HEADER + envelope <= l.maxItem
    ensures (exists events, s :: Enveloped(l, x, envelope, events) && Run(l, Initial, events) == Some(s) && Stopped(s)) <==> envelope > 0
    ensures (exists events, s :: Enveloped(l, x, envelope, events) && Run(l, Initial, events) == Some(s) && Truncated(s)) <==> envelope > 0
  {
    hide Run, Step;
    if envelope > 0 {
      var e1, s1 := Stops(l, x, envelope);
      var e2, s2 := Truncates(l, x, envelope);
    } else {
      forall events, s | Enveloped(l, x, envelope, events) && Run(l, Initial, events) == Some(s) ensures !Stopped(s) && !Truncated(s) {
        PlainIsConforming(l, x, events);
        DeliveredInOrder(l, events, s);
        InitialInv(l);
        RunKeeps(l, Initial, events);
      }
    }
  }

  // ---------------------------------------------------------------- over budget

  /** The consumer refused a packet. */
  ghost predicate GoesOver(l: Limits, x: Item, envelope: nat) {
    exists events, s :: Enveloped(l, x, envelope, events) && Run(l, Initial, events) == Some(s) && s.overBudget
  }

  /** The producer can pay for another item beside the first. */
  predicate RoomForTwo(l: Limits, x: Item) { l.backlog >= 2 && |x| + HEADER + HEADER <= l.window }

  /**
   An enveloped packet can bring a consumer over its budget, if and only if the envelope is not empty and
   the producer can pay for a second item while the first is in flight.
   */
  lemma EnvelopeGoesOverExactlyWhen(l: Limits, x: Item, envelope: nat)
    requires l.Valid() && |x| + HEADER + envelope <= l.maxItem
    ensures GoesOver(l, x, envelope) <==> envelope > 0 && RoomForTwo(l, x)
  {
    hide Run, Step;
    if envelope > 0 && RoomForTwo(l, x) {
      var events, s := OverBudget(l, x, envelope);
    } else {
      forall events, s | Enveloped(l, x, envelope, events) && Run(l, Initial, events) == Some(s) ensures !s.overBudget {
        if envelope == 0 {
          PlainIsConforming(l, x, events);
          DeliveredInOrder(l, events, s);
        } else {
          AloneInBudget(l, x, envelope, events, s);
        }
      }
    }
  }

  lemma AfterFirst(l: Limits, x: Item, envelope: nat, events: seq<Event>) returns (d: State)
    requires l.Valid() && |x| + HEADER + envelope <= l.maxItem && Enveloped(l, x, envelope, events)
    ensures d == OnWire(Initial, x, Packet([x], |x| + HEADER + envelope))
    ensures Run(l, Initial, events) == Run(l, d, events[3..])
  {
    hide Run, Step, OnWire;
    var s1, s2;
    s1, s2, d := Sending(l, Initial, x, envelope, Packet([x], |x| + HEADER + envelope));
    var rest := events[3..];
    OneStep(l, s2, Flush(envelope), rest, d);
    OneStep(l, s1, Pay, [Flush(envelope)] + rest, s2);
    OneStep(l, Initial, Offer(x), [Pay] + ([Flush(envelope)] + rest), s1);
    assert events == [Offer(x)] + ([Pay] + ([Flush(envelope)] + rest));
  }

  /** A second item that fills the window to its end. */
  lemma OverBudget(l: Limits, x: Item, envelope: nat) returns (events: seq<Event>, s: State)
    requires l.Valid() && |x| + HEADER + envelope <= l.maxItem && envelope > 0 && RoomForTwo(l, x)
    ensures Enveloped(l, x, envelope, events) && Run(l, Initial, events) == Some(s) && s.overBudget
  {
    hide Run, Step;
    var y: Item := seq(l.window - |x| - HEADER - HEADER, i => 0);
    var rest := [Offer(y)] + ([Pay] + ([Flush(0)] + ([Deliver] + [Deliver])));
    events := [Offer(x), Pay, Flush(envelope)] + rest;
    assert events[3..] == rest;
    assert rest == [Offer(y), Pay, Flush(0), Deliver, Deliver];
    assert ConformingRun(l, rest);
    var d := AfterFirst(l, x, envelope, events);
    var d1, d2, d3, d4;
    d1, d2, d3 := SecondSent(l, d, x, y, envelope);
    d4, s := BothArrive(l, d3, x, y, envelope);
    OneStep(l, d, Offer(y), [Pay] + ([Flush(0)] + ([Deliver] + [Deliver])), d1);
    OneStep(l, d1, Pay, [Flush(0)] + ([Deliver] + [Deliver]), d2);
    OneStep(l, d2, Flush(0), [Deliver] + [Deliver], d3);
    OneStep(l, d3, Deliver, [Deliver], d4);
    OneStep(l, d4, Deliver, [], s);
    NoEvents(l, s);
    assert [Deliver] + [] == [Deliver];
  }

  lemma SecondSent(l: Limits, d: State, x: Item, y: Item, envelope: nat) returns (d1: State, d2: State, d3: State)
    requires l.Valid() && RoomForTwo(l, x) && |y| == l.window - |x| - HEADER - HEADER
    requires d == OnWire(Initial, x, Packet([x], |x| + HEADER + envelope))
    ensures Step(l, d, Offer(y)) == Some(d1) && Step(l, d1, Pay) == Some(d2) && Step(l, d2, Flush(0)) == Some(d3)
    ensures d3.wire == [Packet([x], |x| + HEADER + envelope), Packet([y], |y| + HEADER)]
    ensures d3.mode == Reading && !d3.overBudget && d3.queue == [] && d3.buffered == 0
  {
    CostOfOne(y);
    d1 := d.(offered := Some(y));
    d2 := d.(credit := d.credit.(bytes := d.credit.bytes + |y| + HEADER, items := d.credit.items + 1),
             frames := [y], produced := d.produced + [y]);
    d3 := d2.(frames := [], wire := d.wire + [Packet([y], |y| + HEADER)], flushed := d2.flushed + 1);
    assert [] + [y] == [y];
  }

  lemma BothArrive(l: Limits, d: State, x: Item, y: Item, envelope: nat) returns (d4: State, s: State)
    requires l.Valid() && |x| + HEADER + envelope <= l.maxItem && envelope > 0 && RoomForTwo(l, x) && |y| == l.window - |x| - HEADER - HEADER
    requires d.wire == [Packet([x], |x| + HEADER + envelope), Packet([y], |y| + HEADER)]
    requires d.mode == Reading && !d.overBudget && d.queue == [] && d.buffered == 0
    ensures Step(l, d, Deliver) == Some(d4) && Step(l, d4, Deliver) == Some(s) && s.overBudget
  {
    d4 := Arrive(l, d.(wire := d.wire[1..]), d.wire[0]);
    s := Arrive(l, d4.(wire := d4.wire[1..]), d4.wire[0]);
  }

  /** The enveloped packet is all that was ever sent, and what it cost is never given back. */
  predicate Alone(l: Limits, s: State, cost: nat, m: Message) {
    && m.Packet? && cost < m.size <= l.maxItem
    && !s.overBudget && s.frames == [] && s.credit.bytes == cost && s.credit.items == 1
    && (forall i | 0 <= i < |s.wire| :: s.wire[i].Packet? ==> i == 0 && s.wire[i] == m && s.queue == [] && s.buffered == 0)
    && (forall i | 0 <= i < |s.queue| :: s.queue[i].Packet? ==> s.queue[i] == m)
    && (s.current.Some? && s.current.value.Packet? ==> s.current.value == m)
    && (forall i | 0 <= i < |s.back| :: s.back[i].Permit? ==> s.back[i].bytes > cost)
  }

  lemma AloneArrives(l: Limits, s: State, cost: nat, m: Message)
    requires l.Valid() && Alone(l, s, cost, m) && s.wire != []
    ensures Alone(l, Arrive(l, s.(wire := s.wire[1..]), s.wire[0]), cost, m)
  {
    var rest := s.wire[1..];
    assert forall i | 0 <= i < |rest| :: rest[i] == s.wire[i + 1] && !rest[i].Packet?;
  }

  lemma AloneConsumes(l: Limits, s: State, cost: nat, m: Message, e: Event)
    requires Alone(l, s, cost, m) && Step(l, s, e).Some? && (e.Yield? || e.Settle? || e.Leave?)
    ensures Alone(l, Step(l, s, e).value, cost, m)
  {
  }

  lemma AloneTakes(l: Limits, s: State, cost: nat, m: Message)
    requires Alone(l, s, cost, m) && Taken(s).Some?
    ensures Alone(l, Taken(s).value, cost, m)
  {
    assert forall i | 0 <= i < |s.queue| - 1 :: s.queue[1..][i] == s.queue[i + 1];
  }

  lemma AloneProduces(l: Limits, s: State, cost: nat, m: Message, e: Event)
    requires l.Valid() && Alone(l, s, cost, m) && Step(l, s, e).Some? && 0 < cost && (l.backlog < 2 || cost + HEADER > l.window)
    requires e.Offer? || e.Pay? || e.Exhaust? || e.Stop? || e.Flush? || e.Close?
    ensures Alone(l, Step(l, s, e).value, cost, m)
  {
  }

  lemma AloneReturns(l: Limits, s: State, cost: nat, m: Message)
    requires Alone(l, s, cost, m) && s.back != []
    ensures Alone(l, Permitted(s.(back := s.back[1..]), s.back[0]), cost, m)
  {
  }

  lemma AloneSteps(l: Limits, s: State, cost: nat, m: Message, e: Event)
    requires l.Valid() && Alone(l, s, cost, m) && Step(l, s, e).Some? && 0 < cost && (l.backlog < 2 || cost + HEADER > l.window)
    ensures Alone(l, Step(l, s, e).value, cost, m)
  {
    hide Alone, Arrive, Permitted, Taken, Yielded, SettleUp, Offered, PayFor, Flushed, Closed;
    match e
    case Deliver => AloneArrives(l, s, cost, m);
    case Return => AloneReturns(l, s, cost, m);
    case Take => AloneTakes(l, s, cost, m);
    case Yield | Settle | Leave => AloneConsumes(l, s, cost, m, e);
    case _ => AloneProduces(l, s, cost, m, e);
  }

  lemma {:induction false} AloneRuns(l: Limits, s: State, cost: nat, m: Message, events: seq<Event>)
    requires l.Valid() && Alone(l, s, cost, m) && 0 < cost && (l.backlog < 2 || cost + HEADER > l.window)
    ensures var r := Run(l, s, events); r.Some? ==> !r.value.overBudget
    decreases |events|
  {
    hide Step;
    if events != [] && Step(l, s, events[0]).Some? {
      AloneSteps(l, s, cost, m, events[0]);
      AloneRuns(l, Step(l, s, events[0]).value, cost, m, events[1..]);
    }
  }

  /** Without room for two, the first item is never paid back and no second one follows. */
  lemma AloneInBudget(l: Limits, x: Item, envelope: nat, events: seq<Event>, s: State)
    requires l.Valid() && |x| + HEADER + envelope <= l.maxItem && envelope > 0 && !RoomForTwo(l, x)
    requires Enveloped(l, x, envelope, events) && Run(l, Initial, events) == Some(s)
    ensures !s.overBudget
  {
    hide Run;
    var d := AfterFirst(l, x, envelope, events);
    AloneRuns(l, d, |x| + HEADER, Packet([x], |x| + HEADER + envelope), events[3..]);
  }
}
