/**
 The handshake between `submit`, `close` and the loop thread of `rmote/_runtime.py`, as a state machine
 whose steps interleave freely. One step is one operation on the shared fields, or what runs under the
 lock, or one callback of the loop. The futures are numbered; each belongs to one call of `submit`.
 */
module Runtime {
  import opened Prelude

  // ---------------------------------------------------------------- the state

  datatype Phase = Starting | Open | Closing | Closed

  /** Where the loop thread stands in `_serve`. */
  datatype Thread =
    | Booting     // no loop yet
    | WithLoop    // `_loop` is set, `_main` has not begun
    | Running     // `_main` waits for the stop event
    | Ended       // `_main` is over, the runner cancels the tasks
    | LoopDown    // the loop is closed
    | ClosedDown  // the state is "closed", the requests are not copied yet
    | Completing  // ends the copied requests one by one
    | Finished

  /** A call of `submit`. */
  datatype Stage =
    | Prepared   // the future has its callback, and its gate if the caller is the main thread
    | Published  // in the set of requests
    | Checked    // has seen the state "open"
    | Scheduled  // `_start` is queued on the loop
    | Returned
    | Refused    // in the exception handler
    | Withdrawn  // out of the set of requests again
    | Raised

  datatype Outcome = Cancelled | Result | Failed

  /** A call with its future. The sets of the source are kept here as one flag for each member. */
  datatype Call = Call(
    stage: Stage,
    outcome: Option<Outcome>,  // of the future, once it is done
    requested: bool,           // in `_requests`
    due: bool,                 // in the copy of `_requests`, and not ended from it yet
    gated: bool,               // its gate is in `_gates`, locked
    tasked: bool,              // in `_tasks`
    told: bool,                // the task was told to cancel
    releasing: bool,           // done, `_request_done` has not begun
    forgetting: bool)          // done, `_request_done` is before its lock

  datatype Callback = StartRequest(id: int) | CancelTask(id: int) | SetStop

  datatype State = State(
    phase: Phase,
    thread: Thread,
    failed: bool,  // `_serve` caught an error
    ready: bool,   // `_ready` is done
    stopMade: bool, stopSet: bool,
    queue: seq<Callback>,
    calls: map<int, Call>)

  const Initial: State := State(Starting, Booting, false, false, false, false, [], map[])

  predicate LoopAlive(t: Thread) { t == WithLoop || t == Running || t == Ended }

  predicate Late(t: Thread) { t == ClosedDown || t == Completing || t == Finished }

  /** The loop runs callbacks while `_main` waits and while the runner cancels the tasks. */
  predicate LoopTurns(t: Thread) { t == Running || t == Ended }

  // ---------------------------------------------------------------- the steps

  datatype Event =
    | ByServe(serve: ServeEvent)
    | ByLoop(loop: LoopEvent)
    | ByCallback(callback: DoneEvent)
    | BySubmitter(submitter: SubmitEvent)
    | ByOwner(owner: OwnerEvent)

  /** What runs on the loop: the callback at the front, one whose task cannot be made, the end of a task. */
  datatype LoopEvent = RunFirst | CreateFails(id: int) | TaskEnds(id: int, outcome: Outcome)

  /** The rest of `_serve` and `_main`. */
  datatype ServeEvent =
    | MakeLoop | BootFails | Begin | SetReady | MainEnds(fails: bool) | CloseLoop
    | SetClosed | Copy | Complete(id: int) | Finish

  /** Whoever ended a future runs its callback. */
  datatype DoneEvent = Release(id: int) | Forget(id: int)

  /** The threads that submit. */
  datatype SubmitEvent =
    | Prepare(id: int, mainThread: bool) | Publish(id: int) | Check(id: int) | Schedule(id: int) | Return(id: int)
    | Interrupt(id: int) | Withdraw(id: int) | Drop(id: int)

  /** The owners of futures, and the threads that close. */
  datatype OwnerEvent = ClientCancel(id: int) | Close

  /** A future ends at most once: setting it again is refused or ignored. */
  function Ends(c: Call, o: Outcome): (r: Call)
    ensures r.outcome.Some?
  {
    if c.outcome.Some? then c else c.(outcome := Some(o), releasing := true)
  }

  function Put(s: State, id: int, c: Call): (r: State) { s.(calls := s.calls[id := c]) }

  /** `_start` makes a task unless the future was cancelled. */
  function StartCall(c: Call): (r: Call) { if c.outcome == Some(Cancelled) then c else c.(tasked := true) }

  /** One callback of the loop: `_start`, `_cancel` or `_stop.set`. */
  function RunCallback(s: State, c: Callback): (r: State) {
    match c
    case StartRequest(id) => if id in s.calls then Put(s, id, StartCall(s.calls[id])) else s
    case CancelTask(id) => if id in s.calls then Put(s, id, s.calls[id].(told := s.calls[id].told || s.calls[id].tasked)) else s
    case SetStop => s.(stopSet := true)
  }

  function LoopStep(s: State, e: LoopEvent): (r: Option<State>) {
    if !LoopTurns(s.thread) then None
    else
      match e
      case RunFirst => if s.queue != [] then Some(RunCallback(s.(queue := s.queue[1..]), s.queue[0])) else None
      case CreateFails(id) =>
        if s.queue != [] && s.queue[0] == StartRequest(id) && id in s.calls
        then Some(Put(s.(queue := s.queue[1..]), id, Ends(s.calls[id], Failed))) else None
      case TaskEnds(id, o) =>
        if id in s.calls && s.calls[id].tasked then Some(Put(s, id, Ends(s.calls[id].(tasked := false), o))) else None
  }

  function ServeStep(s: State, e: ServeEvent): (r: Option<State>) {
    match e
    case MakeLoop => if s.thread == Booting then Some(s.(thread := WithLoop)) else None
    case BootFails =>
      // the runner fails before `_main` begins
      if s.thread == Booting || s.thread == WithLoop then Some(s.(thread := LoopDown, failed := true, ready := true)) else None
    case Begin =>
      if s.thread != WithLoop then None
      else if s.phase == Closing then Some(s.(thread := Running, stopMade := true, stopSet := true))
      else Some(s.(thread := Running, stopMade := true, phase := Open))
    case SetReady => if s.thread == Running then Some(s.(ready := true)) else None
    case MainEnds(fails) =>
      if s.thread == Running && s.ready && (fails || s.stopSet) then Some(s.(thread := Ended, phase := Closing, failed := s.failed || fails)) else None
    case CloseLoop => if s.thread == Ended then Some(s.(thread := LoopDown)) else None
    case SetClosed => if s.thread == LoopDown then Some(s.(thread := ClosedDown, phase := Closed)) else None
    case Copy => if s.thread == ClosedDown then Some(s.(thread := Completing, calls := Copied(s.calls))) else None
    case Complete(id) =>
      if s.thread == Completing && id in s.calls && s.calls[id].due
      then Some(Put(s, id, Ends(s.calls[id].(due := false), if s.failed then Failed else Cancelled))) else None
    case Finish => if s.thread == Completing && NoneDue(s.calls) then Some(s.(thread := Finished)) else None
  }

  function Copied(calls: map<int, Call>): (r: map<int, Call>) { map id | id in calls :: calls[id].(due := calls[id].requested) }

  predicate NoneDue(calls: map<int, Call>) { forall id | id in calls :: !calls[id].due }

  /** `_request_done`: the gate first, then, under the lock, the set of requests and the task. */
  function DoneStep(s: State, e: DoneEvent): (r: Option<State>) {
    if e.id !in s.calls then None
    else
      var c := s.calls[e.id];
      match e
      case Release(id) => if c.releasing then Some(Put(s, id, c.(releasing := false, forgetting := true, gated := false))) else None
      case Forget(id) =>
        if !c.forgetting then None
        else
          var d := Put(s, id, c.(forgetting := false, requested := false));
          if c.outcome == Some(Cancelled) && s.phase != Closed && LoopAlive(s.thread)
          then Some(d.(queue := d.queue + [CancelTask(id)])) else Some(d)
  }

  function SubmitStep(s: State, e: SubmitEvent): (r: Option<State>) {
    if e.Prepare? then
      if e.id in s.calls then None
      else Some(Put(s, e.id, Call(Prepared, None, false, false, e.mainThread, false, false, false, false)))
    else if e.id !in s.calls || !Ready(s.calls[e.id].stage, e) then None
    else
      var c := Submitted(s.phase, s.thread, s.calls[e.id], e);
      // `call_soon_threadsafe` raises once the loop is closed
      if e.Schedule? && LoopAlive(s.thread) then Some(Put(s, e.id, c).(queue := s.queue + [StartRequest(e.id)]))
      else Some(Put(s, e.id, c))
  }

  predicate Ready(stage: Stage, e: SubmitEvent) {
    match e
    case Prepare(_, _) => false
    case Publish(_) => stage == Prepared
    case Check(_) => stage == Published
    case Schedule(_) => stage == Checked
    case Return(_) => stage == Scheduled
    case Interrupt(_) => stage == Prepared || stage == Published || stage == Checked || stage == Scheduled
    case Withdraw(_) => stage == Refused
    case Drop(_) => stage == Withdrawn
  }

  function Submitted(p: Phase, t: Thread, c: Call, e: SubmitEvent): (r: Call) {
    match e
    case Prepare(_, _) => c
    case Publish(_) => c.(stage := Published, requested := true)
    case Check(_) => c.(stage := if p == Open then Checked else Refused)
    case Schedule(_) => c.(stage := if LoopAlive(t) then Scheduled else Refused)
    case Return(_) => c.(stage := Returned)
    case Interrupt(_) => c.(stage := Refused)
    case Withdraw(_) => c.(stage := Withdrawn, requested := false)
    case Drop(_) => c.(stage := Raised, gated := false)
  }

  function OwnerStep(s: State, e: OwnerEvent): (r: Option<State>) {
    match e
    case ClientCancel(id) =>
      if id in s.calls && s.calls[id].stage == Returned then Some(Put(s, id, Ends(s.calls[id], Cancelled))) else None
    case Close =>
      if s.phase == Closing || s.phase == Closed then Some(s)
      else Some(s.(phase := Closing, queue := if s.stopMade && LoopAlive(s.thread) then s.queue + [SetStop] else s.queue))
  }

  /** `None` when the step is not possible. */
  function Step(s: State, e: Event): (r: Option<State>) {
    match e
    case ByServe(v) => ServeStep(s, v)
    case ByLoop(l) => LoopStep(s, l)
    case ByCallback(c) => DoneStep(s, c)
    case BySubmitter(u) => SubmitStep(s, u)
    case ByOwner(o) => OwnerStep(s, o)
  }

  function Run(s: State, events: seq<Event>): (r: Option<State>)
    decreases |events|
  {
    if events == [] then Some(s)
    else
      var d := Step(s, events[0]);
      if d.None? then None else Run(d.value, events[1..])
  }
}
