/**
 The runtime against the events of its run: which outcome a future gets, in which phase the runtime is, and
 which requests run, for every interleaving.
 */
module RuntimeVerdicts {
  import opened Prelude
  import opened Runtime
  import opened RuntimeShutdown

  // ---------------------------------------------------------------- what a run says

  /** `_serve` caught an error. */
  predicate ServeFailed(events: seq<Event>) { ByServe(BootFails) in events || ByServe(MainEnds(true)) in events }

  /** What an event says about a future, if it says anything. */
  function Said(e: Event, failed: bool, id: int): (o: Option<Outcome>) {
    match e
    case ByLoop(TaskEnds(i, o)) => if i == id then Some(o) else None
    case ByLoop(CreateFails(i)) => if i == id then Some(Failed) else None
    case ByOwner(ClientCancel(i)) => if i == id then Some(Cancelled) else None
    case ByServe(Complete(i)) => if i == id then Some(if failed then Failed else Cancelled) else None
    case _ => None
  }

  /** The first event that says something about a future decides: how its task ended, or who ended it before. */
  function Verdict(events: seq<Event>, id: int): (o: Option<Outcome>) {
    if events == [] then None
    else
      var n := |events| - 1;
      var before := Verdict(events[..n], id);
      if before.Some? then before else Said(events[n], ServeFailed(events[..n]), id)
  }

  predicate MainEnded(events: seq<Event>) { ByServe(MainEnds(true)) in events || ByServe(MainEnds(false)) in events }

  /** The phase that the events of a run lead to. */
  function PhaseBy(events: seq<Event>): (p: Phase) {
    if ByServe(SetClosed) in events then Closed
    else if ByOwner(Close) in events || MainEnded(events) then Closing
    else if ByServe(Begin) in events then Open
    else Starting
  }

  // ---------------------------------------------------------------- the phase

  lemma PhaseGrows(events: seq<Event>, e: Event)
    ensures PhaseBy(events + [e]) ==
            if e == ByServe(SetClosed) || PhaseBy(events) == Closed then Closed
            else if e == ByOwner(Close) || e == ByServe(MainEnds(true)) || e == ByServe(MainEnds(false)) || PhaseBy(events) == Closing then Closing
            else if e == ByServe(Begin) then Open
            else PhaseBy(events)
    ensures ServeFailed(events + [e]) <==> ServeFailed(events) || e == ByServe(BootFails) || e == ByServe(MainEnds(true))
  {
  }

  ghost predicate Phased(events: seq<Event>, s: State) { s.phase == PhaseBy(events) && s.failed == ServeFailed(events) }

  lemma PhaseStep(before: seq<Event>, s: State, e: Event, d: State)
    requires Phased(before, s) && PhaseFits(s.phase, s.thread) && Step(s, e) == Some(d)
    ensures Phased(before + [e], d)
  {
    hide PhaseBy, ServeFailed, ServeStep, LoopStep, DoneStep, SubmitStep, OwnerStep;
    PhaseGrows(before, e);
    match e
    case ByServe(v) => ServePhase(s, v, d);
    case ByLoop(l) => LoopStill(s, l, d);
    case ByOwner(o) => OwnerPhase(s, o, d);
    case ByCallback(c) => DoneStill(s, c, d);
    case BySubmitter(u) => SubmitStill(s, u, d);
  }

  lemma ServePhase(s: State, e: ServeEvent, d: State)
    requires PhaseFits(s.phase, s.thread) && ServeStep(s, e) == Some(d)
    ensures d.phase == if e == SetClosed || s.phase == Closed then Closed
                       else if e.MainEnds? || s.phase == Closing then Closing
                       else if e == Begin then Open else s.phase
    ensures d.failed <==> s.failed || e == BootFails || e == MainEnds(true)
  {
    hide Copied, NoneDue, Ends;
  }

  lemma LoopStill(s: State, e: LoopEvent, d: State)
    requires LoopStep(s, e) == Some(d)
    ensures d.phase == s.phase && d.failed == s.failed
  {
    hide Ends, StartCall;
  }

  lemma DoneStill(s: State, e: DoneEvent, d: State)
    requires DoneStep(s, e) == Some(d)
    ensures d.phase == s.phase && d.failed == s.failed
  {
  }

  lemma SubmitStill(s: State, e: SubmitEvent, d: State)
    requires SubmitStep(s, e) == Some(d)
    ensures d.phase == s.phase && d.failed == s.failed
  {
    hide Submitted, Ready;
  }

  lemma OwnerPhase(s: State, e: OwnerEvent, d: State)
    requires OwnerStep(s, e) == Some(d)
    ensures d.phase == if s.phase == Closed then Closed else if e == Close then Closing else s.phase
    ensures d.failed == s.failed
  {
    hide Ends;
  }

  /** A call written into the state. */
  lemma Look(s: State, i: int, c: Call, id: int)
    ensures var d := Put(s, i, c);
            && d == s.(calls := d.calls) && (id in d.calls <==> id in s.calls || i == id)
            && (id in d.calls ==> d.calls[id] == if i == id then c else s.calls[id])
  {
  }

  // ---------------------------------------------------------------- the outcome

  ghost predicate Decided(events: seq<Event>, s: State, id: int) {
    if id in s.calls then s.calls[id].outcome == Verdict(events, id) else Verdict(events, id) == None
  }

  lemma VerdictGrows(events: seq<Event>, e: Event, id: int)
    ensures Verdict(events + [e], id) == if Verdict(events, id).Some? then Verdict(events, id) else Said(e, ServeFailed(events), id)
  {
    assert (events + [e])[..|events|] == events;
  }

  lemma DecidedStep(before: seq<Event>, s: State, e: Event, d: State, id: int)
    requires Decided(before, s, id) && s.failed == ServeFailed(before) && Step(s, e) == Some(d)
    ensures Decided(before + [e], d, id)
  {
    hide Verdict, ServeFailed, Said, ServeStep, LoopStep, DoneStep, SubmitStep, OwnerStep;
    VerdictGrows(before, e, id);
    match e
    case ByServe(v) => ServeDecides(s, v, d, id);
    case ByLoop(l) => LoopDecides(s, l, d, id);
    case ByOwner(o) => OwnerDecides(s, o, d, id);
    case ByCallback(c) => DoneDecides(s, c, d, id);
    case BySubmitter(u) => SubmitDecides(s, u, d, id);
  }

  /** The outcome after a step, from the outcome before and what the event says. */
  ghost predicate Follows(s: State, d: State, id: int, said: Option<Outcome>) {
    && (id in s.calls ==> id in d.calls && d.calls[id].outcome == if s.calls[id].outcome.Some? then s.calls[id].outcome else said)
    && (id !in s.calls ==> said.None? && (id in d.calls ==> d.calls[id].outcome.None?))
  }

  lemma ServeDecides(s: State, e: ServeEvent, d: State, id: int)
    requires ServeStep(s, e) == Some(d)
    ensures Follows(s, d, id, Said(ByServe(e), s.failed, id))
  {
    hide NoneDue, Put;
    if e.Complete? { Look(s, e.id, Ends(s.calls[e.id].(due := false), if s.failed then Failed else Cancelled), id); }
  }

  lemma LoopDecides(s: State, e: LoopEvent, d: State, id: int)
    requires LoopStep(s, e) == Some(d)
    ensures Follows(s, d, id, Said(ByLoop(e), s.failed, id))
  {
    hide Put, RunCallback;
    match e
    case TaskEnds(i, o) => Look(s, i, Ends(s.calls[i].(tasked := false), o), id);
    case CreateFails(i) => Look(s.(queue := s.queue[1..]), i, Ends(s.calls[i], Failed), id);
    case RunFirst => CallbackDecides(s.(queue := s.queue[1..]), s.queue[0], id);
  }

  lemma CallbackDecides(s: State, b: Callback, id: int)
    ensures Follows(s, RunCallback(s, b), id, None)
  {
    hide Put;
    match b
    case StartRequest(i) => if i in s.calls { Look(s, i, StartCall(s.calls[i]), id); }
    case CancelTask(i) => if i in s.calls { Look(s, i, s.calls[i].(told := s.calls[i].told || s.calls[i].tasked), id); }
    case SetStop =>
  }

  lemma OwnerDecides(s: State, e: OwnerEvent, d: State, id: int)
    requires OwnerStep(s, e) == Some(d)
    ensures Follows(s, d, id, Said(ByOwner(e), s.failed, id))
  {
    hide Put;
    if e.ClientCancel? { Look(s, e.id, Ends(s.calls[e.id], Cancelled), id); }
  }

  lemma DoneDecides(s: State, e: DoneEvent, d: State, id: int)
    requires DoneStep(s, e) == Some(d)
    ensures Follows(s, d, id, None) && Said(ByCallback(e), s.failed, id) == None
  {
    hide Put;
    var c := s.calls[e.id];
    Look(s, e.id, if e.Release? then c.(releasing := false, forgetting := true, gated := false) else c.(forgetting := false, requested := false), id);
  }

  lemma SubmitDecides(s: State, e: SubmitEvent, d: State, id: int)
    requires SubmitStep(s, e) == Some(d)
    ensures Follows(s, d, id, None) && Said(BySubmitter(e), s.failed, id) == None
  {
    hide Ready, Put;
    if e.Prepare? {
      Look(s, e.id, Call(Prepared, None, false, false, e.mainThread, false, false, false, false), id);
    } else {
      Look(s, e.id, Submitted(s.phase, s.thread, s.calls[e.id], e), id);
    }
  }

  // ---------------------------------------------------------------- what runs

  /** How often a request was started to its end: its task ended, or could not be made. */
  function Runs(events: seq<Event>, id: int): (n: nat) {
    if events == [] then 0
    else
      var e := events[|events| - 1];
      Runs(events[..|events| - 1], id) + if e.ByLoop? && !e.loop.RunFirst? && e.loop.id == id then 1 else 0
  }

  /** A call that passed its check did so while the runtime was open. */
  predicate CheckedOpen(events: seq<Event>, id: int) {
    exists j :: 0 <= j < |events| && events[j] == BySubmitter(Check(id)) && PhaseBy(events[..j]) == Open
  }

  predicate Accepted(stage: Stage) { stage == Checked || stage == Scheduled || stage == Returned }

  /** How often a request is under way: its places in the queue and its task. */
  function UnderWay(s: State, id: int): (n: nat) {
    multiset(s.queue)[StartRequest(id)] + if id in s.calls && s.calls[id].tasked then 1 else 0
  }

  /** A request is queued, running or over at most once, and only if it was scheduled. */
  ghost predicate Single(events: seq<Event>, s: State, id: int) {
    && (id in s.calls && Accepted(s.calls[id].stage) ==> CheckedOpen(events, id))
    && (id in s.calls && (s.calls[id].stage == Scheduled || s.calls[id].stage == Returned) ==> BySubmitter(Schedule(id)) in events)
    && (BySubmitter(Schedule(id)) in events ==> CheckedOpen(events, id) && id in s.calls && s.calls[id].stage !in {Prepared, Published, Checked})
    && UnderWay(s, id) + Runs(events, id) <= (if BySubmitter(Schedule(id)) in events then 1 else 0)
    && (id in s.calls && (s.calls[id].stage == Withdrawn || s.calls[id].stage == Raised) ==> !s.calls[id].requested)
    && (id in s.calls && s.calls[id].stage == Raised ==> !s.calls[id].gated)
  }

  lemma RunsGrow(events: seq<Event>, e: Event, id: int)
    ensures Runs(events + [e], id) == Runs(events, id) + if e.ByLoop? && !e.loop.RunFirst? && e.loop.id == id then 1 else 0
  {
    assert (events + [e])[..|events|] == events;
  }

  lemma CheckedGrows(events: seq<Event>, e: Event, id: int)
    ensures CheckedOpen(events, id) ==> CheckedOpen(events + [e], id)
    ensures e == BySubmitter(Check(id)) && PhaseBy(events) == Open ==> CheckedOpen(events + [e], id)
  {
    hide PhaseBy;
    var all := events + [e];
    if CheckedOpen(events, id) {
      var j :| 0 <= j < |events| && events[j] == BySubmitter(Check(id)) && PhaseBy(events[..j]) == Open;
      assert all[j] == events[j] && all[..j] == events[..j];
    }
    assert all[|events|] == e && all[..|events|] == events;
  }

  lemma QueueHead(queue: seq<Callback>, x: Callback)
    requires queue != []
    ensures multiset(queue)[x] == multiset(queue[1..])[x] + if queue[0] == x then 1 else 0
  {
    assert queue == [queue[0]] + queue[1..];
  }

  lemma LoopMoves(s: State, e: LoopEvent, d: State, id: int)
    requires LoopStep(s, e) == Some(d)
    ensures UnderWay(d, id) + (if !e.RunFirst? && e.id == id then 1 else 0) <= UnderWay(s, id) && SameStage(s, d, id)
  {
    hide Ends, RunCallback, UnderWay;
    match e
    case TaskEnds(i, o) => TaskMoves(s, i, o, id);
    case CreateFails(i) => CreationMoves(s, i, id);
    case RunFirst =>
      CallbackMoves(s.(queue := s.queue[1..]), s.queue[0], id);
      HeadMoves(s, id);
  }

  lemma HeadMoves(s: State, id: int)
    requires s.queue != []
    ensures UnderWay(s, id) == UnderWay(s.(queue := s.queue[1..]), id) + if s.queue[0] == StartRequest(id) then 1 else 0
  {
    QueueHead(s.queue, StartRequest(id));
  }

  lemma CallbackMoves(s: State, b: Callback, id: int)
    ensures var d := RunCallback(s, b); UnderWay(d, id) <= UnderWay(s, id) + (if b == StartRequest(id) then 1 else 0) && SameStage(s, d, id)
  {
    match b
    case StartRequest(i) =>
      if i in s.calls {
        hide Put, UnderWay, SameStage;
        PutMoves(s, i, StartCall(s.calls[i]), id);
      }
    case CancelTask(i) =>
      if i in s.calls {
        hide Put, UnderWay, SameStage;
        PutMoves(s, i, s.calls[i].(told := s.calls[i].told || s.calls[i].tasked), id);
      }
    case SetStop =>
  }

  lemma CreationMoves(s: State, i: int, id: int)
    requires s.queue != [] && s.queue[0] == StartRequest(i) && i in s.calls
    ensures var d := Put(s.(queue := s.queue[1..]), i, Ends(s.calls[i], Failed)); UnderWay(d, id) + (if i == id then 1 else 0) <= UnderWay(s, id) && SameStage(s, d, id)
  {
    hide Put, UnderWay, SameStage;
    HeadMoves(s, id);
    PutMoves(s.(queue := s.queue[1..]), i, Ends(s.calls[i], Failed), id);
    QueueOnly(s, s.queue[1..], Put(s.(queue := s.queue[1..]), i, Ends(s.calls[i], Failed)), id);
  }

  lemma TaskMoves(s: State, i: int, o: Outcome, id: int)
    requires i in s.calls && s.calls[i].tasked
    ensures var d := Put(s, i, Ends(s.calls[i].(tasked := false), o)); UnderWay(d, id) + (if i == id then 1 else 0) <= UnderWay(s, id) && SameStage(s, d, id)
  {
    hide Put, UnderWay, SameStage;
    PutMoves(s, i, Ends(s.calls[i].(tasked := false), o), id);
  }

  /** A call stays at its stage, and neither its place among the requests nor its gate appears anew. */
  predicate SameStage(s: State, d: State, id: int) {
    (id in d.calls <==> id in s.calls) && (id in s.calls ==> Settles(s.calls[id], d.calls[id]))
  }

  predicate Settles(c: Call, d: Call) { d.stage == c.stage && (d.requested ==> c.requested) && (d.gated ==> c.gated) }

  function Tasks(c: Call): (n: nat) { if c.tasked then 1 else 0 }

  lemma PutMoves(s: State, i: int, c: Call, id: int)
    requires i in s.calls && Settles(s.calls[i], c)
    ensures var d := Put(s, i, c);
            SameStage(s, d, id) && UnderWay(d, id) == UnderWay(s, id) + if i == id then Tasks(c) - Tasks(s.calls[i]) else 0
  {
    hide Put;
    Look(s, i, c, id);
  }

  lemma QueueOnly(s: State, queue: seq<Callback>, d: State, id: int)
    requires SameStage(s.(queue := queue), d, id)
    ensures SameStage(s, d, id)
  {
  }

  lemma Queued(s: State, b: Callback, id: int)
    ensures UnderWay(s.(queue := s.queue + [b]), id) == UnderWay(s, id) + if b == StartRequest(id) then 1 else 0
  {
  }

  lemma DoneMoves(s: State, e: DoneEvent, d: State, id: int)
    requires DoneStep(s, e) == Some(d)
    ensures UnderWay(d, id) == UnderWay(s, id) && SameStage(s, d, id)
  {
    hide Put, UnderWay, SameStage;
    var c := s.calls[e.id];
    var c' := if e.Release? then c.(releasing := false, forgetting := true, gated := false) else c.(forgetting := false, requested := false);
    PutMoves(s, e.id, c', id);
    var t := Put(s, e.id, c');
    Queued(t, CancelTask(e.id), id);
    QueueAlso(s, t, t.queue + [CancelTask(e.id)], id);
  }

  lemma QueueAlso(s: State, d: State, queue: seq<Callback>, id: int)
    requires SameStage(s, d, id)
    ensures SameStage(s, d.(queue := queue), id)
  {
  }

  lemma OwnerMoves(s: State, e: OwnerEvent, d: State, id: int)
    requires OwnerStep(s, e) == Some(d)
    ensures UnderWay(d, id) == UnderWay(s, id) && SameStage(s, d, id)
  {
    if e.ClientCancel? {
      hide Put, UnderWay, SameStage;
      PutMoves(s, e.id, Ends(s.calls[e.id], Cancelled), id);
    } else {
      Queued(s, SetStop, id);
    }
  }

  lemma ServeMoves(s: State, e: ServeEvent, d: State, id: int)
    requires ServeStep(s, e) == Some(d)
    ensures UnderWay(d, id) == UnderWay(s, id) && SameStage(s, d, id)
  {
    if e.Complete? {
      hide Put, UnderWay, SameStage;
      PutMoves(s, e.id, Ends(s.calls[e.id].(due := false), if s.failed then Failed else Cancelled), id);
    } else if e.Copy? {
      hide Put, NoneDue, Ends;
    } else {
      KeepsCalls(s, e, d);
    }
  }

  lemma KeepsCalls(s: State, e: ServeEvent, d: State)
    requires ServeStep(s, e) == Some(d) && !e.Complete? && !e.Copy?
    ensures d.calls == s.calls && d.queue == s.queue
  {
    hide Put, NoneDue, Ends, Copied;
  }

  lemma SubmitMoves(s: State, e: SubmitEvent, d: State, id: int)
    requires SubmitStep(s, e) == Some(d)
    ensures UnderWay(d, id) <= UnderWay(s, id) + if e == Schedule(id) then 1 else 0
    ensures id in d.calls <==> id in s.calls || e.id == id
    ensures id in s.calls && e.id != id ==> d.calls[id] == s.calls[id]
  {
    hide Put, Ready;
    if e.Prepare? {
      Look(s, e.id, Call(Prepared, None, false, false, e.mainThread, false, false, false, false), id);
    } else {
      var t := Put(s, e.id, Submitted(s.phase, s.thread, s.calls[e.id], e));
      Look(s, e.id, Submitted(s.phase, s.thread, s.calls[e.id], e), id);
      Queued(t, StartRequest(e.id), id);
      assert e.Schedule? && e.id == id ==> e == Schedule(id);
    }
  }

  /** How the stage of the call changes that takes the step. */
  lemma SubmitStages(s: State, e: SubmitEvent, d: State)
    requires SubmitStep(s, e) == Some(d)
    ensures var stage := d.calls[e.id].stage;
            && (stage == Checked ==> e.Check? && s.phase == Open)
            && (stage == Scheduled ==> e.Schedule?)
            && (stage == Returned ==> s.calls[e.id].stage == Scheduled)
            && (e.Schedule? ==> s.calls[e.id].stage == Checked && stage !in {Prepared, Published, Checked})
            && (!e.Prepare? && s.calls[e.id].stage !in {Prepared, Published, Checked} ==> stage !in {Prepared, Published, Checked})
            && (stage == Withdrawn || stage == Raised ==> !d.calls[e.id].requested || (s.calls[e.id].requested && s.calls[e.id].stage == Withdrawn))
            && (stage == Raised ==> !d.calls[e.id].gated)
            && (if e.Prepare? then e.id !in s.calls && stage == Prepared else e.id in s.calls)
  {
  }

  lemma SingleStep(before: seq<Event>, s: State, e: Event, d: State, id: int)
    requires Single(before, s, id) && s.phase == PhaseBy(before) && Step(s, e) == Some(d)
    ensures Single(before + [e], d, id)
  {
    hide CheckedOpen, PhaseBy, Runs, UnderWay, ServeStep, LoopStep, DoneStep, SubmitStep, OwnerStep;
    RunsGrow(before, e, id);
    CheckedGrows(before, e, id);
    if !e.BySubmitter? { assert BySubmitter(Schedule(id)) in before + [e] <==> BySubmitter(Schedule(id)) in before; }
    match e
    case ByServe(v) => ServeMoves(s, v, d, id);
    case ByLoop(l) => LoopMoves(s, l, d, id);
    case ByOwner(o) => OwnerMoves(s, o, d, id);
    case ByCallback(c) => DoneMoves(s, c, d, id);
    case BySubmitter(u) => SubmitSingle(before, s, u, d, id);
  }

  lemma SubmitSingle(before: seq<Event>, s: State, u: SubmitEvent, d: State, id: int)
    requires Single(before, s, id) && s.phase == PhaseBy(before) && SubmitStep(s, u) == Some(d)
    ensures Single(before + [BySubmitter(u)], d, id)
  {
    hide CheckedOpen, PhaseBy, Runs, UnderWay, SubmitStep;
    var e := BySubmitter(u);
    RunsGrow(before, e, id);
    CheckedGrows(before, e, id);
    assert BySubmitter(Schedule(id)) in before + [e] <==> BySubmitter(Schedule(id)) in before || u == Schedule(id);
    SubmitMoves(s, u, d, id);
    if u.id == id {
      SubmitStages(s, u, d);
      assert (u.Check? ==> u == Check(id)) && (u.Schedule? ==> u == Schedule(id));
    } else {
      assert u != Schedule(id);
    }
  }

  // ---------------------------------------------------------------- over whole runs

  ghost predicate Traced(events: seq<Event>, s: State, id: int) {
    Inv(s) && Phased(events, s) && Decided(events, s, id) && Single(events, s, id)
  }

  lemma {:induction false} TracedRun(before: seq<Event>, s: State, events: seq<Event>, id: int)
    requires Traced(before, s, id)
    ensures var d := Run(s, events); d.Some? ==> Traced(before + events, d.value, id)
    decreases |events|
  {
    hide Decided, Single, PhaseBy, ServeFailed, Step, PhaseFits, FineAt;
    if events == [] {
      assert before + events == before;
    } else if Step(s, events[0]).Some? {
      var d := Step(s, events[0]).value;
      StepKeeps(s, events[0], d);
      PhaseStep(before, s, events[0], d);
      DecidedStep(before, s, events[0], d, id);
      SingleStep(before, s, events[0], d, id);
      TracedRun(before + [events[0]], d, events[1..], id);
      assert before + [events[0]] + events[1..] == before + events;
    }
  }

  lemma InitialTraced(id: int)
    ensures Traced([], Initial, id)
  {
    InitialInv();
  }

  lemma RunTraced(events: seq<Event>, s: State, id: int)
    requires Run(Initial, events) == Some(s)
    ensures Traced(events, s, id)
  {
    hide Traced, Run;
    InitialTraced(id);
    TracedRun([], Initial, events, id);
    assert [] + events == events;
  }

  /**
   A future gets the outcome of the first event that ends it, in every run: the result or the failure of
   its task, a task that could not be made, a cancellation by its owner, or the shutdown, which fails it
   when `_serve` failed and cancels it otherwise.
   */
  lemma OutcomeIsTheFirst(events: seq<Event>, s: State, id: int)
    requires Run(Initial, events) == Some(s) && id in s.calls
    ensures s.calls[id].outcome == Verdict(events, id)
    ensures s.calls[id].outcome == Some(Result) ==> ByLoop(TaskEnds(id, Result)) in events
  {
    hide Run, Verdict, PhaseBy, Single, ServeFailed;
    RunTraced(events, s, id);
    ResultMeans(events, id);
  }

  lemma {:induction false} ResultMeans(events: seq<Event>, id: int)
    ensures Verdict(events, id) == Some(Result) ==> ByLoop(TaskEnds(id, Result)) in events
    decreases |events|
  {
    hide ServeFailed;
    if events != [] { ResultMeans(events[..|events| - 1], id); }
  }

  /** The phase is what the events say: open from `_main` on, until `close` or the end of `_main`. */
  lemma PhaseIsByEvents(events: seq<Event>, s: State)
    requires Run(Initial, events) == Some(s)
    ensures s.phase == PhaseBy(events) && s.failed == ServeFailed(events)
  {
    hide Run, PhaseBy, ServeFailed, Single, Decided;
    RunTraced(events, s, 0);
  }

  /**
   Nothing is accepted outside the open phase: a call of `submit` that returns looked while the runtime was
   open, so one that looks after `close` never returns; and a request runs at most once, and only if it was
   accepted and scheduled.
   */
  lemma AcceptedOnlyWhenOpen(events: seq<Event>, s: State, id: int)
    requires Run(Initial, events) == Some(s)
    ensures id in s.calls && s.calls[id].stage == Returned ==> CheckedOpen(events, id) && BySubmitter(Schedule(id)) in events
    ensures Runs(events, id) <= 1 && (Runs(events, id) == 1 ==> CheckedOpen(events, id) && BySubmitter(Schedule(id)) in events)
  {
    hide Run, PhaseBy, ServeFailed, Decided, CheckedOpen, Runs;
    RunTraced(events, s, id);
  }

  /** A call of `submit` that raised leaves nothing behind: its request is withdrawn and its gate is gone. */
  lemma RaisedLeavesNothing(events: seq<Event>, s: State, id: int)
    requires Run(Initial, events) == Some(s) && id in s.calls && s.calls[id].stage == Raised
    ensures !s.calls[id].requested && !s.calls[id].gated
  {
    hide Run, PhaseBy, ServeFailed, Decided, CheckedOpen, Runs;
    RunTraced(events, s, id);
  }

  lemma AfterCloseIsRefused(events: seq<Event>, s: State, id: int, i: nat, j: nat)
    requires Run(Initial, events) == Some(s) && i < j < |events| && events[i] == ByOwner(Close) && events[j] == BySubmitter(Check(id))
    requires forall k | 0 <= k < |events| && events[k] == BySubmitter(Check(id)) :: k == j
    ensures id in s.calls ==> s.calls[id].stage != Returned
    ensures Runs(events, id) == 0
  {
    hide Run, Runs;
    AcceptedOnlyWhenOpen(events, s, id);
    assert events[..j][i] == ByOwner(Close);
  }
}
