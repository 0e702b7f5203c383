/**
 A stream against the events of its run: which items the caller gets, how a stream ends, and what a
 consumer that leaves does to the producer. Everything here holds for all runs, whatever the peer does.
 */
module StreamEndings {
  import opened Prelude
  import opened Streams
  import opened StreamTheorems

  // ---------------------------------------------------------------- what a run says

  /** The items that the method yielded, in order. */
  function Offers(events: seq<Event>): (items: seq<Item>) {
    if events == [] then []
    else
      var n := |events| - 1;
      Offers(events[..n]) + if events[n].Offer? then [events[n].item] else []
  }

  /** An item was too large to send. */
  predicate Oversized(l: Limits, events: seq<Event>) {
    exists i :: 0 <= i < |events| && events[i].Offer? && |events[i].item| > l.maxItem
  }

  function Waiting(s: State): (items: seq<Item>) { if s.offered.Some? then [s.offered.value] else [] }

  predicate Final(m: Message) { !m.Packet? }

  predicate Ending(ms: seq<Message>) { exists i :: 0 <= i < |ms| && Final(ms[i]) }

  // ---------------------------------------------------------------- the producer

  /** Paid items are the offered ones, and each way to stop has its cause. */
  ghost predicate Produced(l: Limits, events: seq<Event>, s: State) {
    && s.produced <= Offers(events)
    && (s.phase == Running ==> s.produced + Waiting(s) == Offers(events) && !s.exhausted && !Oversized(l, events))
    && (s.phase != Running ==> s.offered.None?)
    && (s.exhausted ==> s.produced == Offers(events) && !Oversized(l, events))
    && (s.phase == Draining(Normal) ==> s.exhausted || Stop in events)
    && (s.phase == Draining(Error) ==> Oversized(l, events) && !s.exhausted)
    && (s.phase == Draining(Cancelled) ==> s.mode == Left && !s.exhausted)
  }

  /** The farewell of a consumer that left is under way until the producer is stopped. */
  ghost predicate Farewell(s: State, events: seq<Event>) {
    && (s.mode == Left <==> Leave in events)
    && (Gone in s.back ==> s.mode == Left)
    && (s.mode == Left && s.phase == Running ==> Gone in s.back)
  }

  lemma OffersGrow(events: seq<Event>, e: Event)
    ensures Offers(events + [e]) == Offers(events) + if e.Offer? then [e.item] else []
  {
    assert (events + [e])[..|events|] == events;
  }

  lemma OversizedGrows(l: Limits, events: seq<Event>, e: Event)
    ensures Oversized(l, events + [e]) <==> Oversized(l, events) || (e.Offer? && |e.item| > l.maxItem)
  {
    var all := events + [e];
    if Oversized(l, events) {
      var i :| 0 <= i < |events| && events[i].Offer? && |events[i].item| > l.maxItem;
      assert all[i] == events[i];
    }
    assert all[|events|] == e;
    if Oversized(l, all) {
      var i :| 0 <= i < |all| && all[i].Offer? && |all[i].item| > l.maxItem;
      assert i < |events| ==> all[i] == events[i];
    }
  }

  predicate Forwards(e: Event) { e.Flush? || e.Deliver? || e.Take? || e.Yield? || e.Settle? }

  /** Moving items along changes neither the producer nor the farewell. */
  lemma ForwardKeeps(l: Limits, s: State, e: Event)
    requires Forwards(e) && Step(l, s, e).Some?
    ensures var d := Step(l, s, e).value;
            && d.produced == s.produced && d.phase == s.phase && d.offered == s.offered && d.exhausted == s.exhausted
            && (d.mode == Left <==> s.mode == Left) && (Gone in d.back <==> Gone in s.back)
  {
    hide Arrive, SettleUp, Yielded, Flushed;
    match e
    case Deliver => ArriveKeeps(l, s.(wire := s.wire[1..]), s.wire[0]);
    case Flush(_) => FlushKeeps(s, e.envelope);
    case Yield => YieldKeeps(s);
    case Settle => SettleKeeps(l, s);
    case _ =>
  }

  lemma ProducerStep(l: Limits, events: seq<Event>, s: State, e: Event)
    requires Produced(l, events, s) && Farewell(s, events) && Step(l, s, e).Some?
    ensures Produced(l, events + [e], Step(l, s, e).value)
  {
    hide Oversized, Offers;
    OffersGrow(events, e);
    OversizedGrows(l, events, e);
    if Forwards(e) {
      hide Step;
      ForwardKeeps(l, s, e);
    } else if e.Return? {
      hide GiveBack;
    }
  }

  lemma ArriveKeeps(l: Limits, s: State, m: Message)
    ensures var d := Arrive(l, s, m);
            d == s.(queue := d.queue, buffered := d.buffered, overBudget := d.overBudget, arrived := d.arrived)
  {
  }

  lemma FlushKeeps(s: State, envelope: nat)
    ensures var d := Flushed(s, envelope); d.Some? ==> d.value == s.(wire := d.value.wire, frames := [], flushed := d.value.flushed)
  {
  }

  lemma YieldKeeps(s: State)
    ensures var d := Yielded(s); d.Some? ==> d.value == s.(yielded := d.value.yielded, taken := d.value.taken)
  {
  }

  lemma SettleKeeps(l: Limits, s: State)
    ensures var d := SettleUp(l, s);
            d.Some? ==> d.value == s.(current := None, taken := 0, owedBytes := d.value.owedBytes, owedItems := d.value.owedItems,
                                      back := d.value.back, permitted := d.value.permitted)
                        && (Gone in d.value.back <==> Gone in s.back)
  {
  }

  lemma FarewellStep(l: Limits, events: seq<Event>, s: State, e: Event)
    requires Farewell(s, events) && Step(l, s, e).Some?
    ensures Farewell(Step(l, s, e).value, events + [e])
  {
    if Forwards(e) {
      hide Step;
      ForwardKeeps(l, s, e);
    } else if e.Return? {
      hide GiveBack;
      assert s.back == [s.back[0]] + s.back[1..];
    }
  }

  // ---------------------------------------------------------------- the end of the stream

  /** A consumer that reads is told about the end of the producer, and a failure has its cause. */
  ghost predicate Told(l: Limits, events: seq<Event>, s: State) {
    && (s.mode == Reading && s.phase == Ended ==> Ending(s.queue) || Ending(s.wire))
    && (s.mode == Reading && |s.queue| > l.backlog ==> Ending(s.queue))
    && (s.mode == Reading && s.overBudget ==> Ending(s.queue))
    && (Failure in s.wire ==> Oversized(l, events))
    && (Failure in s.queue && !s.overBudget ==> Oversized(l, events))
    && (s.mode == Broken && !s.overBudget ==> Oversized(l, events))
  }

  lemma EndingMeans(ms: seq<Message>)
    ensures Ending(ms) <==> End in ms || Failure in ms
  {
    if Ending(ms) {
      var i :| 0 <= i < |ms| && Final(ms[i]);
      assert ms[i] == End || ms[i] == Failure;
    }
    if End in ms || Failure in ms {
      var i :| 0 <= i < |ms| && (ms[i] == End || ms[i] == Failure);
      assert Final(ms[i]);
    }
  }

  lemma ToldDeliver(l: Limits, events: seq<Event>, s: State)
    requires Told(l, events, s) && s.wire != []
    ensures Told(l, events, Arrive(l, s.(wire := s.wire[1..]), s.wire[0]))
  {
    hide Oversized, Ending;
    var m, rest := s.wire[0], s.wire[1..];
    assert s.wire == [m] + rest;
    var d := Arrive(l, s.(wire := rest), m);
    EndingMeans(s.wire);
    EndingMeans(rest);
    EndingMeans(s.queue);
    EndingMeans(d.queue);
  }

  lemma ToldTake(l: Limits, events: seq<Event>, s: State)
    requires Told(l, events, s) && Taken(s).Some?
    ensures Told(l, events, Taken(s).value)
  {
    hide Oversized, Ending;
    assert s.queue == [s.queue[0]] + s.queue[1..];
    EndingMeans(s.queue);
    EndingMeans(s.queue[1..]);
  }

  lemma ToldClose(l: Limits, events: seq<Event>, s: State)
    requires Told(l, events, s) && Produced(l, events, s) && Closed(s).Some?
    ensures Told(l, events, Closed(s).value)
  {
    hide Oversized, Ending, Offers;
    EndingMeans(s.wire);
    EndingMeans(Closed(s).value.wire);
  }

  lemma ToldFlush(l: Limits, events: seq<Event>, s: State, envelope: nat)
    requires Told(l, events, s) && Flushed(s, envelope).Some?
    ensures Told(l, events, Flushed(s, envelope).value)
  {
    hide Oversized, Ending;
    EndingMeans(s.wire);
    EndingMeans(Flushed(s, envelope).value.wire);
  }

  lemma ToldStep(l: Limits, events: seq<Event>, s: State, e: Event)
    requires Told(l, events, s) && Produced(l, events, s) && Step(l, s, e).Some?
    ensures Told(l, events + [e], Step(l, s, e).value)
  {
    hide Oversized, Ending, Offers, Arrive, Taken, Closed, Flushed, SettleUp, Yielded, GiveBack;
    OversizedGrows(l, events, e);
    match e
    case Deliver => ToldDeliver(l, events, s);
    case Take => ToldTake(l, events, s);
    case Close => ToldClose(l, events, s);
    case Flush(_) => ToldFlush(l, events, s, e.envelope);
    case Yield => YieldKeeps(s);
    case Settle => SettleKeeps(l, s);
    case _ =>
  }

  // ---------------------------------------------------------------- a packet that was refused

  /** The first ending in the queue is a failure. */
  predicate FailureFirst(queue: seq<Message>) {
    exists i :: 0 <= i < |queue| && queue[i] == Failure && End !in queue[..i]
  }

  /** An ending is the last message of a producer, and nothing comes after a normal one; a refused packet is reported before it. */
  ghost predicate Reported(s: State) {
    && (forall i | 0 <= i < |s.wire| - 1 :: s.wire[i].Packet?)
    && (Ending(s.wire) ==> s.phase == Ended)
    && (End in s.queue ==> s.phase == Ended && s.wire == [])
    && (s.phase == Ended ==> s.frames == [])
    && (s.mode == Reading && s.overBudget ==> FailureFirst(s.queue))
    && (s.mode == Completed ==> !s.overBudget && s.phase == Ended && s.wire == [])
  }

  lemma FailureStays(queue: seq<Message>, m: Message)
    requires FailureFirst(queue)
    ensures FailureFirst(queue + [m])
  {
    var i :| 0 <= i < |queue| && queue[i] == Failure && End !in queue[..i];
    assert (queue + [m])[i] == Failure && (queue + [m])[..i] == queue[..i];
  }

  lemma FailureComes(queue: seq<Message>)
    requires End !in queue
    ensures FailureFirst(queue + [Failure])
  {
    var all := queue + [Failure];
    assert all[|queue|] == Failure && all[..|queue|] == queue;
  }

  lemma FailureMoves(queue: seq<Message>)
    requires FailureFirst(queue)
    ensures queue[0] != End && (queue[0] != Failure ==> FailureFirst(queue[1..]))
  {
    var i :| 0 <= i < |queue| && queue[i] == Failure && End !in queue[..i];
    if i > 0 {
      assert queue[..i][0] == queue[0];
      assert queue[1..][i - 1] == Failure && queue[1..][..i - 1] == queue[..i][1..];
    }
  }

  lemma ReportedDeliver(l: Limits, s: State)
    requires Reported(s) && s.wire != []
    ensures Reported(Arrive(l, s.(wire := s.wire[1..]), s.wire[0]))
  {
    hide FailureFirst;
    var m, rest := s.wire[0], s.wire[1..];
    assert forall i | 0 <= i < |rest| :: rest[i] == s.wire[i + 1];
    assert Final(m) ==> rest == [];
    if Ending(rest) {
      var i :| 0 <= i < |rest| && Final(rest[i]);
      assert Final(s.wire[i + 1]);
    }
    if Final(m) { assert Ending(s.wire); }
    if s.mode == Reading && s.overBudget { FailureStays(s.queue, m); }
    if End !in s.queue { FailureComes(s.queue); }
  }

  lemma ReportedTake(s: State)
    requires Reported(s) && Taken(s).Some?
    ensures Reported(Taken(s).value)
  {
    hide FailureFirst;
    assert s.queue == [s.queue[0]] + s.queue[1..];
    if s.overBudget { FailureMoves(s.queue); }
  }

  lemma ReportedClose(s: State)
    requires Reported(s) && Closed(s).Some?
    ensures Reported(Closed(s).value)
  {
    hide FailureFirst, Ending;
    OnlyPackets(s.wire);
  }

  lemma OnlyPackets(ms: seq<Message>)
    ensures Ending(ms) <==> !(forall i | 0 <= i < |ms| :: ms[i].Packet?)
  {
    if !(forall i | 0 <= i < |ms| :: ms[i].Packet?) {
      var i :| 0 <= i < |ms| && !ms[i].Packet?;
      assert Final(ms[i]);
    }
  }

  lemma ReportedFlush(s: State, envelope: nat)
    requires Reported(s) && Flushed(s, envelope).Some?
    ensures Reported(Flushed(s, envelope).value)
  {
    hide FailureFirst, Ending;
    OnlyPackets(s.wire);
    OnlyPackets(Flushed(s, envelope).value.wire);
  }

  lemma ReportedStep(l: Limits, s: State, e: Event)
    requires Reported(s) && Step(l, s, e).Some?
    ensures Reported(Step(l, s, e).value)
  {
    hide Ending, FailureFirst, Arrive, Taken, Closed, Flushed, SettleUp, Yielded, GiveBack;
    match e
    case Deliver => ReportedDeliver(l, s);
    case Take => ReportedTake(s);
    case Close => ReportedClose(s);
    case Flush(_) => ReportedFlush(s, e.envelope);
    case Yield => YieldKeeps(s);
    case Settle => SettleKeeps(l, s);
    case _ =>
  }

  // ---------------------------------------------------------------- over whole runs

  ghost predicate Traced(l: Limits, events: seq<Event>, s: State) {
    Produced(l, events, s) && Farewell(s, events) && Told(l, events, s) && Reported(s)
  }

  lemma {:induction false} TracedRun(l: Limits, before: seq<Event>, s: State, events: seq<Event>)
    requires Traced(l, before, s)
    ensures var r := Run(l, s, events); r.Some? ==> Traced(l, before + events, r.value)
    decreases |events|
  {
    hide Produced, Farewell, Told, Reported, Step;
    if events == [] {
      assert before + events == before;
    } else if Step(l, s, events[0]).Some? {
      ProducerStep(l, before, s, events[0]);
      FarewellStep(l, before, s, events[0]);
      ToldStep(l, before, s, events[0]);
      ReportedStep(l, s, events[0]);
      TracedRun(l, before + [events[0]], Step(l, s, events[0]).value, events[1..]);
      assert before + [events[0]] + events[1..] == before + events;
    }
  }

  lemma InitialTraced(l: Limits)
    ensures Traced(l, [], Initial)
  {
  }

  lemma RunTraced(l: Limits, events: seq<Event>, s: State)
    requires Run(l, Initial, events) == Some(s)
    ensures Traced(l, events, s)
  {
    hide Traced, Run;
    InitialTraced(l);
    TracedRun(l, [], Initial, events);
    assert [] + events == events;
  }

  /**
   The caller gets the items that the method yielded, in their order: always a prefix of them, and all of
   them at a normal end. What was paid for is all that was yielded while the producer runs, except for an
   item that still waits for permission.
   */
  lemma CallerGetsTheItems(l: Limits, events: seq<Event>, s: State)
    requires l.Valid() && ConformingRun(l, events) && Run(l, Initial, events) == Some(s)
    ensures s.yielded <= Offers(events)
    ensures s.mode == Completed ==> s.yielded == Offers(events) && !Oversized(l, events)
    ensures s.phase == Running ==> s.produced + Waiting(s) == Offers(events)
  {
    hide Run, Oversized, Offers;
    RunTraced(l, events, s);
    DeliveredInOrder(l, events, s);
  }

  /**
   A consumer that still reads after the producer has ended finds the end in its queue or on the wire; it
   fails only for an item that was too large, and a stream with such an item never ends normally.
   */
  lemma EndIsTold(l: Limits, events: seq<Event>, s: State)
    requires l.Valid() && ConformingRun(l, events) && Run(l, Initial, events) == Some(s)
    ensures s.mode == Reading && s.phase == Ended ==> Ending(s.queue) || Ending(s.wire)
    ensures s.mode == Broken ==> Oversized(l, events)
    ensures Oversized(l, events) ==> s.phase != Running && s.mode != Completed
  {
    hide Run, Oversized, Offers, Ending;
    RunTraced(l, events, s);
    DeliveredInOrder(l, events, s);
  }

  /**
   The farewell: in every run, once a consumer has left and all that it sent has arrived, its producer does
   not run and holds no item; and nothing but a consumer that left cancels a producer.
   */
  lemma FarewellStops(l: Limits, events: seq<Event>, s: State)
    requires Run(l, Initial, events) == Some(s)
    ensures Leave in events && s.phase == Running ==> Gone in s.back
    ensures Leave in events && s.back == [] ==> s.phase != Running && s.offered.None?
    ensures s.phase == Draining(Cancelled) ==> Leave in events
    ensures s.phase == Draining(Normal) ==> Exhaust in events || Stop in events
    ensures s.phase == Draining(Error) ==> Oversized(l, events)
  {
    hide Run, Oversized, Offers;
    RunTraced(l, events, s);
    ExhaustedMeans(l, events, s);
  }

  /**
   Whatever the producer sends, a consumer that refused a packet never sees a normal end: it has the failure
   in its queue before any other ending.
   */
  lemma RefusalIsReported(l: Limits, events: seq<Event>, s: State)
    requires Run(l, Initial, events) == Some(s)
    ensures s.mode == Completed ==> !s.overBudget
    ensures s.mode == Reading && s.overBudget ==> FailureFirst(s.queue)
  {
    hide Run, Produced, Farewell, Told, FailureFirst;
    RunTraced(l, events, s);
  }

  lemma ExhaustedMeans(l: Limits, events: seq<Event>, s: State)
    requires Run(l, Initial, events) == Some(s)
    ensures s.exhausted ==> Exhaust in events
  {
    ExhaustedRun(l, Initial, events);
  }

  lemma {:induction false} ExhaustedRun(l: Limits, s: State, events: seq<Event>)
    ensures var r := Run(l, s, events); r.Some? && r.value.exhausted ==> s.exhausted || Exhaust in events
    decreases |events|
  {
    if events != [] && Step(l, s, events[0]).Some? {
      ExhaustedRun(l, Step(l, s, events[0]).value, events[1..]);
    }
  }

  /** A producer that stopped never runs again: no run lengthens what it paid for. */
  lemma {:induction false} StoppedForGood(l: Limits, s: State, events: seq<Event>)
    requires s.phase != Running
    ensures var r := Run(l, s, events); r.Some? ==> r.value.phase != Running && r.value.produced == s.produced
    decreases |events|
  {
    hide Arrive, SettleUp, Yielded, Flushed, GiveBack, Taken;
    if events != [] && Step(l, s, events[0]).Some? {
      var e := events[0];
      StoppedStep(l, s, e);
      hide Step;
      StoppedForGood(l, Step(l, s, e).value, events[1..]);
    }
  }

  lemma StoppedStep(l: Limits, s: State, e: Event)
    requires s.phase != Running && Step(l, s, e).Some?
    ensures var d := Step(l, s, e).value; d.phase != Running && d.produced == s.produced
  {
  }

  /** And it stops: whatever else is under way, the arrival of what the consumer sent ends it, and it paid for nothing more. */
  lemma {:induction false} LeavingStops(l: Limits, s: State) returns (d: State)
    requires s.phase == Running ==> Gone in s.back
    ensures Run(l, s, seq(|s.back|, _ => Return)) == Some(d) && d.phase != Running && d.back == [] && d.produced == s.produced
    decreases |s.back|
  {
    hide GiveBack;
    var events := seq(|s.back|, _ => Return);
    if s.back == [] {
      d := s;
    } else {
      var next := Permitted(s.(back := s.back[1..]), s.back[0]);
      assert s.back == [s.back[0]] + s.back[1..];
      assert Step(l, s, Return) == Some(next);
      d := LeavingStops(l, next);
      assert events[0] == Return && events[1..] == seq(|next.back|, _ => Return);
    }
  }
}
