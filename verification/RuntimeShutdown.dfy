/**
 The shutdown of the synchronous runtime, over every interleaving: nothing submitted is missed, a stop is
 never lost, and the end always comes nearer.
 */
module RuntimeShutdown {
  import opened Prelude
  import opened Runtime

  // ---------------------------------------------------------------- the invariant

  predicate PhaseFits(p: Phase, t: Thread) {
    match t
    case Booting => p == Starting || p == Closing
    case WithLoop => p == Starting || p == Closing
    case Running => p == Open || p == Closing
    case Ended => p == Closing
    case LoopDown => p == Starting || p == Closing
    case _ => p == Closed
  }

  predicate ThreadFine(s: State) {
    && PhaseFits(s.phase, s.thread)
    && (s.thread == Booting || s.thread == WithLoop ==> !s.stopMade)
    && (s.thread == Running || s.thread == Ended ==> s.stopMade)
    && (s.phase == Closing && s.thread == Running ==> s.stopSet || SetStop in s.queue)
    && (s.thread == Ended || s.thread == LoopDown || Late(s.thread) ==> s.ready)
  }

  predicate OnLoop(c: Call) { c.stage == Scheduled || c.stage == Returned }

  /** Where the shutdown finds a pending request. */
  predicate Held(t: Thread, c: Call) {
    match t
    case Completing => c.due
    case Finished => false
    case _ => c.requested
  }

  /** Before `_main` begins nothing was accepted. */
  predicate Early(t: Thread, c: Call) {
    t == Booting || t == WithLoop ==> c.stage != Checked && !OnLoop(c) && !c.tasked
  }

  /** A published request that has not seen the end, and a scheduled one in any case, is where the shutdown finds it. */
  predicate Seen(t: Thread, c: Call) {
    && ((c.stage == Published || c.stage == Checked) && !Late(t) ==> c.requested || c.outcome.Some?)
    && (OnLoop(c) ==> Held(t, c) || c.outcome.Some?)
  }

  /** A pending request on the loop is queued or has a task, as long as the loop lives. */
  predicate Owned(t: Thread, c: Call, startQueued: bool) {
    LoopAlive(t) && OnLoop(c) && c.outcome.None? ==> startQueued || c.tasked
  }

  /** A future that is done still runs its callback, or has given up its gate. */
  predicate Notified(c: Call) {
    (c.releasing || c.forgetting ==> c.outcome.Some?) && (c.outcome.Some? && c.gated ==> c.releasing)
  }

  /** A task whose future was cancelled will be told, or has been. */
  predicate Reaches(t: Thread, c: Call, cancelQueued: bool) {
    LoopAlive(t) && c.tasked && c.outcome == Some(Cancelled) ==> c.releasing || c.forgetting || cancelQueued || c.told
  }

  predicate Fine(t: Thread, c: Call, startQueued: bool, cancelQueued: bool) {
    Early(t, c) && Seen(t, c) && Owned(t, c, startQueued) && Notified(c) && Reaches(t, c, cancelQueued)
  }

  predicate FineAt(s: State, id: int) {
    id in s.calls ==> Fine(s.thread, s.calls[id], StartRequest(id) in s.queue, CancelTask(id) in s.queue)
  }

  ghost predicate Inv(s: State) { ThreadFine(s) && forall id: int :: FineAt(s, id) }

  // ---------------------------------------------------------------- every step keeps it

  lemma QueueHead(queue: seq<Callback>, x: Callback)
    requires queue != []
    ensures x in queue <==> x == queue[0] || x in queue[1..]
  {
    assert queue == [queue[0]] + queue[1..];
  }

  lemma ServeKeepsThread(s: State, e: ServeEvent, d: State)
    requires ThreadFine(s) && ServeStep(s, e) == Some(d)
    ensures ThreadFine(d)
  {
  }

  lemma LoopKeepsThread(s: State, e: LoopEvent, d: State)
    requires ThreadFine(s) && LoopStep(s, e) == Some(d)
    ensures ThreadFine(d)
  {
    if s.queue != [] { QueueHead(s.queue, SetStop); }
  }

  lemma CallbackKeepsThread(s: State, e: DoneEvent, d: State)
    requires ThreadFine(s) && DoneStep(s, e) == Some(d)
    ensures ThreadFine(d)
  {
  }

  lemma SubmitterKeepsThread(s: State, e: SubmitEvent, d: State)
    requires ThreadFine(s) && SubmitStep(s, e) == Some(d)
    ensures ThreadFine(d)
  {
    hide Ready, Submitted;
    if e.Schedule? { Appended(s.queue, StartRequest(e.id), SetStop); }
  }

  lemma OwnerKeepsThread(s: State, e: OwnerEvent, d: State)
    requires ThreadFine(s) && OwnerStep(s, e) == Some(d)
    ensures ThreadFine(d)
  {
    hide Ends;
  }

  lemma EndsIsFine(t: Thread, c: Call, o: Outcome, a: bool, b: bool)
    requires Fine(t, c, a, b)
    ensures Fine(t, Ends(c, o), a, b)
  {
  }

  lemma TaskEndIsFine(t: Thread, c: Call, o: Outcome, a: bool, b: bool)
    requires Fine(t, c, a, b)
    ensures Fine(t, Ends(c.(tasked := false), o), a, b)
  {
  }

  lemma CompletionIsFine(c: Call, o: Outcome, a: bool, b: bool)
    requires Fine(Completing, c, a, b)
    ensures Fine(Completing, Ends(c.(due := false), o), a, b)
  {
  }

  lemma StartIsFine(t: Thread, c: Call, a: bool, b: bool)
    requires Fine(t, c, true, b) && LoopTurns(t)
    ensures Fine(t, StartCall(c), a, b) && Fine(t, Ends(c, Failed), a, b)
  {
  }

  lemma TellIsFine(t: Thread, c: Call, a: bool, b: bool)
    requires Fine(t, c, a, true)
    ensures Fine(t, c.(told := c.told || c.tasked), a, b)
  {
  }

  lemma SubmittedIsFine(p: Phase, t: Thread, c: Call, e: SubmitEvent, a: bool, b: bool)
    requires PhaseFits(p, t) && Fine(t, c, a, b) && Ready(c.stage, e)
    ensures Fine(t, Submitted(p, t, c, e), a || (e.Schedule? && LoopAlive(t)), b)
  {
  }

  lemma DoneIsFine(p: Phase, t: Thread, c: Call, a: bool, b: bool)
    requires PhaseFits(p, t) && Fine(t, c, a, b)
    ensures c.releasing ==> Fine(t, c.(releasing := false, forgetting := true, gated := false), a, b)
    ensures c.forgetting ==>
              Fine(t, c.(forgetting := false, requested := false), a, b || (c.outcome == Some(Cancelled) && p != Closed && LoopAlive(t)))
  {
  }

  /** Where the steps of `_serve` lead. */
  predicate Moves(t: Thread, u: Thread) {
    match t
    case Booting => u == WithLoop || u == LoopDown
    case WithLoop => u == Running || u == LoopDown
    case Running => u == Running || u == Ended
    case Ended => u == LoopDown
    case LoopDown => u == ClosedDown
    case ClosedDown => u == Completing
    case Completing => u == Finished
    case Finished => false
  }

  lemma MoveIsFine(t: Thread, u: Thread, c: Call, a: bool, b: bool)
    requires Moves(t, u) && Fine(t, c, a, b) && (t == Completing ==> !c.due)
    ensures Fine(u, if u == Completing then c.(due := c.requested) else c, a, b)
  {
  }

  lemma ServeKeepsFine(s: State, e: ServeEvent, d: State, id: int)
    requires FineAt(s, id) && ServeStep(s, e) == Some(d)
    ensures FineAt(d, id)
  {
    hide Fine, Ends;
    if id in s.calls {
      var c, a, b := s.calls[id], StartRequest(id) in s.queue, CancelTask(id) in s.queue;
      if e.Complete? {
        CompletionIsFine(c, if s.failed then Failed else Cancelled, a, b);
      } else {
        ServeMoves(s, e, d, id);
        MoveIsFine(s.thread, d.thread, c, a, b);
      }
    }
  }

  lemma ServeMoves(s: State, e: ServeEvent, d: State, id: int)
    requires ServeStep(s, e) == Some(d) && !e.Complete? && id in s.calls
    ensures Moves(s.thread, d.thread) && (s.thread == Completing ==> !s.calls[id].due)
    ensures d.queue == s.queue && id in d.calls
    ensures d.calls[id] == if d.thread == Completing then s.calls[id].(due := s.calls[id].requested) else s.calls[id]
  {
  }

  lemma LoopKeepsFine(s: State, e: LoopEvent, d: State, id: int)
    requires FineAt(s, id) && LoopStep(s, e) == Some(d)
    ensures FineAt(d, id)
  {
    hide Fine, Ends, RunCallback;
    match e
    case RunFirst => CallbackRuns(s, d, id);
    case CreateFails(_) => CreationFails(s, d, id);
    case TaskEnds(i, o) =>
      if id in s.calls { TaskEndIsFine(s.thread, s.calls[id], o, StartRequest(id) in s.queue, CancelTask(id) in s.queue); }
  }

  function Called(c: Call, b: Callback, id: int): (r: Call) {
    match b
    case StartRequest(i) => if i == id then StartCall(c) else c
    case CancelTask(i) => if i == id then c.(told := c.told || c.tasked) else c
    case SetStop => c
  }

  lemma CallbackLook(s: State, b: Callback, id: int)
    requires id in s.calls
    ensures var d := RunCallback(s, b);
            d.queue == s.queue && d.thread == s.thread && d.phase == s.phase && id in d.calls && d.calls[id] == Called(s.calls[id], b, id)
  {
    hide StartCall;
  }

  lemma CallbackRuns(s: State, d: State, id: int)
    requires FineAt(s, id) && LoopTurns(s.thread) && s.queue != [] && d == RunCallback(s.(queue := s.queue[1..]), s.queue[0])
    ensures FineAt(d, id)
  {
    hide Fine, StartCall, RunCallback;
    NoneAppears(s.(queue := s.queue[1..]), s.queue[0], id);
    if id in s.calls {
      var c, a, b := s.calls[id], StartRequest(id) in s.queue[1..], CancelTask(id) in s.queue[1..];
      CallbackLook(s.(queue := s.queue[1..]), s.queue[0], id);
      QueueHead(s.queue, StartRequest(id));
      QueueHead(s.queue, CancelTask(id));
      if s.queue[0] == StartRequest(id) {
        StartIsFine(s.thread, c, a, b);
      } else if s.queue[0] == CancelTask(id) {
        TellIsFine(s.thread, c, a, b);
      }
    }
  }

  lemma NoneAppears(s: State, b: Callback, id: int)
    ensures id in RunCallback(s, b).calls <==> id in s.calls
  {
  }

  lemma CreationFails(s: State, d: State, id: int)
    requires FineAt(s, id) && LoopTurns(s.thread) && s.queue != [] && s.queue[0].StartRequest? && s.queue[0].id in s.calls
    requires d == Put(s.(queue := s.queue[1..]), s.queue[0].id, Ends(s.calls[s.queue[0].id], Failed))
    ensures FineAt(d, id)
  {
    hide Fine, Ends;
    if id in s.calls {
      QueueHead(s.queue, StartRequest(id));
      QueueHead(s.queue, CancelTask(id));
      if s.queue[0] == StartRequest(id) {
        StartIsFine(s.thread, s.calls[id], StartRequest(id) in s.queue[1..], CancelTask(id) in s.queue[1..]);
      }
    }
  }

  lemma CallbackKeepsFine(s: State, e: DoneEvent, d: State, id: int)
    requires PhaseFits(s.phase, s.thread) && FineAt(s, id) && DoneStep(s, e) == Some(d)
    ensures FineAt(d, id)
  {
    hide Fine, PhaseFits;
    match e
    case Release(i) => ReleaseKeepsFine(s, i, d, id);
    case Forget(i) => ForgetKeepsFine(s, i, d, id);
  }

  lemma ReleaseKeepsFine(s: State, i: int, d: State, id: int)
    requires PhaseFits(s.phase, s.thread) && FineAt(s, id) && DoneStep(s, Release(i)) == Some(d)
    ensures FineAt(d, id)
  {
    hide Fine, PhaseFits;
    if id in s.calls { DoneIsFine(s.phase, s.thread, s.calls[id], StartRequest(id) in s.queue, CancelTask(id) in s.queue); }
  }

  lemma ForgetKeepsFine(s: State, i: int, d: State, id: int)
    requires PhaseFits(s.phase, s.thread) && FineAt(s, id) && DoneStep(s, Forget(i)) == Some(d)
    ensures FineAt(d, id)
  {
    hide Fine, PhaseFits;
    if id in s.calls {
      DoneIsFine(s.phase, s.thread, s.calls[id], StartRequest(id) in s.queue, CancelTask(id) in s.queue);
      Appended(s.queue, CancelTask(i), StartRequest(id));
      Appended(s.queue, CancelTask(i), CancelTask(id));
      if i != id { assert d.calls[id] == s.calls[id]; }
    }
  }

  lemma Appended(queue: seq<Callback>, c: Callback, x: Callback)
    ensures x in queue + [c] <==> x in queue || x == c
  {
  }

  lemma SubmitterKeepsFine(s: State, e: SubmitEvent, d: State, id: int)
    requires PhaseFits(s.phase, s.thread) && FineAt(s, id) && SubmitStep(s, e) == Some(d)
    ensures FineAt(d, id)
  {
    hide FineAt, PhaseFits, SubmitStep;
    if e.Prepare? {
      PrepareKeepsFine(s, e, d, id);
    } else {
      SubmitKeepsFine(s, e, d, id);
    }
  }

  lemma SubmitKeepsFine(s: State, e: SubmitEvent, d: State, id: int)
    requires PhaseFits(s.phase, s.thread) && FineAt(s, id) && SubmitStep(s, e) == Some(d) && !e.Prepare?
    ensures FineAt(d, id)
  {
    hide Fine, Ready, Submitted, PhaseFits;
    Appended(s.queue, StartRequest(e.id), StartRequest(id));
    Appended(s.queue, StartRequest(e.id), CancelTask(id));
    if id == e.id {
      SubmittedIsFine(s.phase, s.thread, s.calls[id], e, StartRequest(id) in s.queue, CancelTask(id) in s.queue);
    }
  }

  lemma PrepareKeepsFine(s: State, e: SubmitEvent, d: State, id: int)
    requires FineAt(s, id) && e.Prepare? && SubmitStep(s, e) == Some(d)
    ensures FineAt(d, id)
  {
    hide Ready, Submitted;
  }

  lemma OwnerKeepsFine(s: State, e: OwnerEvent, d: State, id: int)
    requires FineAt(s, id) && OwnerStep(s, e) == Some(d)
    ensures FineAt(d, id)
  {
    hide Fine, Ends;
    if id in s.calls { EndsIsFine(s.thread, s.calls[id], Cancelled, StartRequest(id) in s.queue, CancelTask(id) in s.queue); }
  }

  lemma StepKeeps(s: State, e: Event, d: State)
    requires Inv(s) && Step(s, e) == Some(d)
    ensures Inv(d)
  {
    hide ServeStep, LoopStep, DoneStep, SubmitStep, OwnerStep, FineAt;
    match e {
      case ByServe(v) => ServeKeepsThread(s, v, d);
      case ByLoop(l) => LoopKeepsThread(s, l, d);
      case ByCallback(c) => CallbackKeepsThread(s, c, d);
      case BySubmitter(u) => SubmitterKeepsThread(s, u, d);
      case ByOwner(o) => OwnerKeepsThread(s, o, d);
    }
    forall id: int ensures FineAt(d, id) {
      assert FineAt(s, id);
      match e
      case ByServe(v) => ServeKeepsFine(s, v, d, id);
      case ByLoop(l) => LoopKeepsFine(s, l, d, id);
      case ByCallback(c) => CallbackKeepsFine(s, c, d, id);
      case BySubmitter(u) => SubmitterKeepsFine(s, u, d, id);
      case ByOwner(o) => OwnerKeepsFine(s, o, d, id);
    }
  }

  lemma {:induction false} RunKeeps(s: State, events: seq<Event>)
    requires Inv(s)
    ensures var d := Run(s, events); d.Some? ==> Inv(d.value)
    decreases |events|
  {
    hide Inv, Step;
    if events != [] {
      var d := Step(s, events[0]);
      if d.Some? {
        StepKeeps(s, events[0], d.value);
        RunKeeps(d.value, events[1..]);
      }
    }
  }

  lemma InitialInv()
    ensures Inv(Initial)
  {
  }

  lemma Reached(events: seq<Event>, id: int)
    requires Run(Initial, events).Some?
    ensures var s := Run(Initial, events).value; Inv(s) && ThreadFine(s) && FineAt(s, id)
  {
    hide Step, ThreadFine, FineAt;
    InitialInv();
    RunKeeps(Initial, events);
  }

  // ---------------------------------------------------------------- nothing is missed

  predicate Is(s: State, id: int, stage: Stage) { id in s.calls && s.calls[id].stage == stage }

  predicate Done(s: State, id: int) { id in s.calls && s.calls[id].outcome.Some? }

  function Rank(p: Phase): (n: nat) { match p case Starting => 0 case Open => 1 case Closing => 2 case Closed => 3 }

  predicate LoopGone(t: Thread) { t != Booting && !LoopAlive(t) }

  /** What no step takes back, for one future. */
  predicate Later(s: State, d: State, id: int) {
    && Rank(s.phase) <= Rank(d.phase)
    && (Done(s, id) ==> Done(d, id) && d.calls[id].outcome == s.calls[id].outcome)
    && (LoopGone(s.thread) ==> LoopGone(d.thread) && (id in d.calls && OnLoop(d.calls[id]) ==> id in s.calls && OnLoop(s.calls[id])))
    && (s.thread == Finished ==> d.thread == Finished)
  }

  lemma ServeIsLater(s: State, e: ServeEvent, d: State, id: int)
    requires PhaseFits(s.phase, s.thread) && ServeStep(s, e) == Some(d)
    ensures Later(s, d, id)
  {
  }

  lemma SubmitterIsLater(s: State, e: SubmitEvent, d: State, id: int)
    requires SubmitStep(s, e) == Some(d)
    ensures Later(s, d, id)
  {
  }

  lemma LoopIsLater(s: State, e: LoopEvent, d: State, id: int)
    requires LoopStep(s, e) == Some(d)
    ensures Later(s, d, id)
  {
    if e.RunFirst? {
      hide RunCallback;
      var t := s.(queue := s.queue[1..]);
      NoneAppears(t, s.queue[0], id);
      if id in s.calls { CallbackLook(t, s.queue[0], id); }
      ThreadStays(t, s.queue[0]);
    }
  }

  lemma ThreadStays(s: State, b: Callback)
    ensures RunCallback(s, b).thread == s.thread && RunCallback(s, b).phase == s.phase
  {
  }

  lemma CallbackIsLater(s: State, e: DoneEvent, d: State, id: int)
    requires DoneStep(s, e) == Some(d)
    ensures Later(s, d, id)
  {
  }

  lemma OwnerIsLater(s: State, e: OwnerEvent, d: State, id: int)
    requires OwnerStep(s, e) == Some(d)
    ensures Later(s, d, id)
  {
  }

  lemma StepIsLater(s: State, e: Event, d: State, id: int)
    requires PhaseFits(s.phase, s.thread) && Step(s, e) == Some(d)
    ensures Later(s, d, id)
  {
    hide ServeStep, LoopStep, DoneStep, SubmitStep, OwnerStep, Later;
    match e
    case ByServe(v) => ServeIsLater(s, v, d, id);
    case BySubmitter(u) => SubmitterIsLater(s, u, d, id);
    case ByLoop(l) => LoopIsLater(s, l, d, id);
    case ByCallback(c) => CallbackIsLater(s, c, d, id);
    case ByOwner(o) => OwnerIsLater(s, o, d, id);
  }

  /** The state only moves forward, a future ends at most once, and nothing is scheduled on a closed loop. */
  lemma {:induction false} OnlyForward(s: State, events: seq<Event>, id: int)
    requires Inv(s)
    ensures var d := Run(s, events); d.Some? ==> Later(s, d.value, id)
    decreases |events|
  {
    hide FineAt, Step;
    if events != [] {
      var d := Step(s, events[0]);
      if d.Some? {
        StepKeeps(s, events[0], d.value);
        StepIsLater(s, events[0], d.value, id);
        OnlyForward(d.value, events[1..], id);
      }
    }
  }

  /**
   Once the shutdown has finished, in every interleaving, every future that `submit` returned or will
   still return is done, with one outcome that nothing changes.
   */
  lemma ShutdownMissesNone(before: seq<Event>, after: seq<Event>, id: int)
    requires Run(Initial, before).Some?
    requires var s := Run(Initial, before).value; s.thread == Finished && Run(s, after).Some?
    ensures var s := Run(Initial, before).value;
            var d := Run(s, after).value;
            Is(d, id, Returned) ==> Done(s, id) && Done(d, id) && d.calls[id].outcome == s.calls[id].outcome
  {
    hide Step;
    Reached(before, id);
    OnlyForward(Run(Initial, before).value, after, id);
  }

  /** While the copied requests are ended, every pending future that was returned is among them. */
  lemma SnapshotIsComplete(events: seq<Event>, id: int)
    requires Run(Initial, events).Some?
    ensures var s := Run(Initial, events).value;
            s.thread == Completing && Is(s, id, Returned) && !Done(s, id) ==> s.calls[id].due
  {
    hide Step;
    Reached(events, id);
  }

  /** Until the loop is closed, no returned future is orphaned: its start is queued or its task runs. */
  lemma RequestsHaveAnOwner(events: seq<Event>, id: int)
    requires Run(Initial, events).Some?
    ensures var s := Run(Initial, events).value;
            LoopAlive(s.thread) && Is(s, id, Returned) && !Done(s, id) ==> StartRequest(id) in s.queue || s.calls[id].tasked
  {
    hide Step;
    Reached(events, id);
  }

  /** A main thread waits on the gate of a finished request only while the callback that opens it is due. */
  lemma GatesOpen(events: seq<Event>, id: int)
    requires Run(Initial, events).Some?
    ensures var s := Run(Initial, events).value;
            Done(s, id) && s.calls[id].gated ==>
            var d := Step(s, ByCallback(Release(id))); d.Some? && !d.value.calls[id].gated
  {
    hide ServeStep, LoopStep, SubmitStep, OwnerStep;
    Reached(events, id);
  }

  /** The cancellation of a future reaches its task, or is on the way to it. */
  lemma CancellationArrives(events: seq<Event>, id: int)
    requires Run(Initial, events).Some?
    ensures var s := Run(Initial, events).value;
            LoopAlive(s.thread) && id in s.calls && s.calls[id].tasked && s.calls[id].outcome == Some(Cancelled) ==>
            var c := s.calls[id]; c.releasing || c.forgetting || CancelTask(id) in s.queue || c.told
  {
    hide Step;
    Reached(events, id);
  }

  // ---------------------------------------------------------------- the shutdown ends

  /** The next step of the loop thread towards the end, once `close` was called. */
  ghost function Next(s: State): (e: Event)
    requires s.thread != Finished
  {
    match s.thread
    case Booting => ByServe(MakeLoop)
    case WithLoop => ByServe(Begin)
    case Running => if !s.ready then ByServe(SetReady) else if s.stopSet then ByServe(MainEnds(false)) else ByLoop(RunFirst)
    case Ended => ByServe(CloseLoop)
    case LoopDown => ByServe(SetClosed)
    case ClosedDown => ByServe(Copy)
    case Completing => if NoneDue(s.calls) then ByServe(Finish) else var id :| id in s.calls && s.calls[id].due; ByServe(Complete(id))
  }

  /** The callbacks in front of the first `SetStop`. */
  function Position(queue: seq<Callback>): (n: nat)
    decreases |queue|
  {
    if queue == [] || queue[0] == SetStop then 0 else 1 + Position(queue[1..])
  }

  lemma {:induction false} PositionStays(queue: seq<Callback>, c: Callback)
    requires SetStop in queue
    ensures Position(queue + [c]) == Position(queue)
    decreases |queue|
  {
    if queue[0] != SetStop {
      assert (queue + [c])[1..] == queue[1..] + [c];
      PositionStays(queue[1..], c);
    }
  }

  function DueIn(calls: map<int, Call>): (r: set<int>) { set id | id in calls && calls[id].due }

  function ThreadRank(t: Thread): (n: nat) {
    match t
    case Booting => 7
    case WithLoop => 6
    case Running => 5
    case Ended => 4
    case LoopDown => 3
    case ClosedDown => 2
    case Completing => 1
    case Finished => 0
  }

  /** What the loop thread still does where it stands. */
  function Rest(s: State): (n: nat) {
    match s.thread
    case Running => (if s.ready then 0 else 1) + (if s.stopSet then 0 else 1 + Position(s.queue))
    case Completing => |DueIn(s.calls)|
    case _ => 0
  }

  predicate Nearer(d: State, s: State) {
    ThreadRank(d.thread) < ThreadRank(s.thread) || (ThreadRank(d.thread) == ThreadRank(s.thread) && Rest(d) < Rest(s))
  }

  predicate NotFarther(d: State, s: State) {
    Nearer(d, s) || (ThreadRank(d.thread) == ThreadRank(s.thread) && Rest(d) == Rest(s))
  }

  predicate Ending(s: State) { s.phase == Closing || s.phase == Closed }

  /** After `close`, the loop thread is never blocked, and each of its steps brings the end nearer. */
  lemma ShutdownAdvances(s: State)
    requires ThreadFine(s) && Ending(s) && s.thread != Finished
    ensures var d := Step(s, Next(s)); d.Some? && Nearer(d.value, s)
  {
    hide LoopStep, ServeStep, Nearer;
    if s.thread == Running && s.ready && !s.stopSet {
      LoopAdvances(s);
    } else {
      ServeAdvances(s);
    }
  }

  lemma LoopAdvances(s: State)
    requires s.thread == Running && !s.stopSet && SetStop in s.queue
    ensures var d := LoopStep(s, RunFirst); d.Some? && Nearer(d.value, s)
  {
    hide Position, DueIn;
    QueueHead(s.queue, SetStop);
    if s.queue[0] != SetStop { PositionPops(s.queue); }
  }

  lemma ServeAdvances(s: State)
    requires ThreadFine(s) && Ending(s) && s.thread != Finished && !(s.thread == Running && s.ready && !s.stopSet)
    ensures var e := Next(s); e.ByServe? && (var d := ServeStep(s, e.serve); d.Some? && Nearer(d.value, s))
  {
    hide Position, DueIn;
    if s.thread == Completing && !NoneDue(s.calls) { Decided(s, Next(s).serve.id); }
  }

  lemma PositionPops(queue: seq<Callback>)
    requires queue != [] && queue[0] != SetStop
    ensures Position(queue) == 1 + Position(queue[1..])
  {
  }

  lemma Decided(s: State, id: int)
    requires s.thread == Completing && id in s.calls && s.calls[id].due
    ensures var d := ServeStep(s, Complete(id));
            d.Some? && DueIn(d.value.calls) == DueIn(s.calls) - {id} && |DueIn(d.value.calls)| < |DueIn(s.calls)|
  {
    var d := ServeStep(s, Complete(id)).value;
    assert DueIn(d.calls) == DueIn(s.calls) - {id};
    assert id in DueIn(s.calls);
  }

  /** And no step of any thread moves the end away. */
  lemma NothingDelays(s: State, e: Event, d: State)
    requires ThreadFine(s) && Ending(s) && Step(s, e) == Some(d)
    ensures Ending(d) && NotFarther(d, s)
  {
    hide ServeStep, LoopStep, DoneStep, SubmitStep, OwnerStep, Position, DueIn;
    match e
    case ByServe(v) => ServeDelaysNothing(s, v, d);
    case ByLoop(l) => LoopDelaysNothing(s, l, d);
    case _ =>
      OthersOnlyAppend(s, e, d);
      if |d.queue| > |s.queue| && SetStop in s.queue {
        assert d.queue == s.queue + [d.queue[|s.queue|]];
        PositionStays(s.queue, d.queue[|s.queue|]);
      }
  }

  lemma ServeDelaysNothing(s: State, e: ServeEvent, d: State)
    requires ThreadFine(s) && Ending(s) && ServeStep(s, e) == Some(d)
    ensures Ending(d) && NotFarther(d, s)
  {
    hide Position, DueIn;
    if e.Complete? { Decided(s, e.id); }
  }

  lemma LoopDelaysNothing(s: State, e: LoopEvent, d: State)
    requires ThreadFine(s) && Ending(s) && LoopStep(s, e) == Some(d)
    ensures Ending(d) && NotFarther(d, s)
  {
    hide Position, DueIn;
    if s.queue != [] {
      QueueHead(s.queue, SetStop);
      if s.queue[0] != SetStop { PositionPops(s.queue); }
    }
  }

  /** The other threads append to the queue at most one callback, and leave alone what is due. */
  ghost predicate OnlyAppends(s: State, d: State) {
    && d.phase == s.phase && d.thread == s.thread && d.ready == s.ready && d.stopSet == s.stopSet
    && (d.queue == s.queue || (|d.queue| == |s.queue| + 1 && s.queue == d.queue[..|s.queue|]))
    && DueIn(d.calls) == DueIn(s.calls)
  }

  lemma OthersOnlyAppend(s: State, e: Event, d: State)
    requires Ending(s) && Step(s, e) == Some(d) && !e.ByServe? && !e.ByLoop?
    ensures OnlyAppends(s, d)
  {
    hide DoneStep, SubmitStep, OwnerStep, OnlyAppends;
    match e
    case ByCallback(c) => CallbackOnlyAppends(s, c, d);
    case BySubmitter(u) => SubmitterOnlyAppends(s, u, d);
    case ByOwner(o) => OwnerOnlyAppends(s, o, d);
  }

  lemma SameDue(calls: map<int, Call>, id: int, c: Call)
    requires c.due == (id in calls && calls[id].due)
    ensures DueIn(calls[id := c]) == DueIn(calls)
  {
  }

  lemma CallbackOnlyAppends(s: State, e: DoneEvent, d: State)
    requires DoneStep(s, e) == Some(d)
    ensures OnlyAppends(s, d)
  {
    hide DueIn;
    assert d.calls == s.calls[e.id := d.calls[e.id]];
    SameDue(s.calls, e.id, d.calls[e.id]);
  }

  lemma SubmitterOnlyAppends(s: State, e: SubmitEvent, d: State)
    requires SubmitStep(s, e) == Some(d)
    ensures OnlyAppends(s, d)
  {
    hide DueIn;
    assert d.calls == s.calls[e.id := d.calls[e.id]];
    SameDue(s.calls, e.id, d.calls[e.id]);
  }

  lemma OwnerOnlyAppends(s: State, e: OwnerEvent, d: State)
    requires Ending(s) && OwnerStep(s, e) == Some(d)
    ensures OnlyAppends(s, d)
  {
    hide DueIn;
    if e.ClientCancel? { SameDue(s.calls, e.id, d.calls[e.id]); }
  }

  /** `close` and `_main` leave no interleaving in which the loop sleeps and the stop was asked for. */
  lemma NoStopIsLost(events: seq<Event>)
    requires Run(Initial, events).Some?
    ensures var s := Run(Initial, events).value;
            s.phase == Closing && s.thread == Running ==> s.stopSet || SetStop in s.queue
  {
    hide Step;
    Reached(events, 0);
  }
}
