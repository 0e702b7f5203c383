/**
 `LogDelivery` of `rmote/protocol.py`: the loop thread leaves records in a deque, a worker thread takes
 them and sleeps while there are none, and a third thread stops it, as often as it likes. A read or a
 write of a shared field is one step, so every interleaving of the threads is a run. Two steps do more:
 `stop` reads `worker` and clears it, and `deliver` sets it and starts the thread.
 */
module LogDelivery {
  import opened Prelude

  type Record = nat

  /** Where the worker stands in `run`. */
  datatype WorkerAt =
    | NotStarted
    | Pop                    // about to take a record
    | CheckClosing           // the deque was empty
    | SetIdle
    | LookRecords            // idle is set; look again
    | LookClosing
    | Wait                   // inside `wake.wait()`
    | ClearIdle
    | ClearWake
    | Handle(record: Record) // a handler runs
    | Exited

  /** Where the loop thread stands in `deliver`. */
  datatype DeliverAt = Outside | Extend(batch: seq<Record>) | CheckIdle | SetWake | CheckWorker | CheckStopped | StartWorker

  /** Where the stopping thread stands in `stop`. */
  datatype StopAt = NotStopping | SetClosing | WakeWorker | Join

  datatype State = State(
    records: seq<Record>, lost: nat, wake: bool, idle: bool, closing: bool, hasWorker: bool,
    worker: WorkerAt, second: WorkerAt, deliver: DeliverAt, stop: StopAt,
    offered: nat,           // records that passed the level test
    accepted: seq<Record>,  // those that were queued, in order
    handled: seq<Record>,   // those whose handler was called, in order
    late: seq<Record>,      // those queued since a worker last looked for a record
    due: nat                // how many were queued when `stop` was last called
  )

  const Initial := State([], 0, false, false, false, false, NotStarted, NotStarted, Outside, NotStopping, 0, [], [], [], 0)

  datatype Event = Deliver(batch: seq<Record>) | DeliverStep | WorkerStep | SecondStep | Stop | StopStep

  /** A second worker was started beside the first. */
  predicate Twice(s: State) { s.second != NotStarted }

  function Delivering(s: State, limit: nat): (r: Option<State>) {
    match s.deliver
    case Outside => None
    case Extend(batch) =>
      Some(s.(records := s.records + batch, accepted := s.accepted + batch, late := s.late + batch, deliver := CheckIdle))
    case CheckIdle => Some(s.(deliver := if s.idle then SetWake else CheckWorker))
    case SetWake => Some(s.(wake := true, deliver := CheckWorker))
    case CheckWorker => Some(s.(deliver := if s.hasWorker then Outside else CheckStopped))
    case CheckStopped => Some(s.(deliver := if s.closing then Outside else StartWorker))
    case StartWorker =>
      if s.worker.NotStarted? then Some(s.(hasWorker := true, worker := Pop, deliver := Outside))
      else Some(s.(hasWorker := true, second := Pop, deliver := Outside))
  }

  /** One step of `run` by a worker that stands at `w`: the shared fields after it, and where it stands then. */
  function Turn(s: State, w: WorkerAt): (r: Option<(State, WorkerAt)>) {
    match w
    case NotStarted => None
    case Pop =>
      if s.records == [] then Some((s.(late := []), CheckClosing))
      else Some((s.(records := s.records[1..], late := []), Handle(s.records[0])))
    case CheckClosing => Some((s, if s.closing then Exited else SetIdle))
    case SetIdle => Some((s.(idle := true), LookRecords))
    case LookRecords => Some((s, if s.records == [] then LookClosing else ClearIdle))
    case LookClosing => Some((s, if s.closing then ClearIdle else Wait))
    case Wait => if s.wake then Some((s, ClearIdle)) else None
    case ClearIdle => Some((s.(idle := false), ClearWake))
    case ClearWake => Some((s.(wake := false), Pop))
    case Handle(record) => Some((s.(handled := s.handled + [record]), Pop))
    case Exited => None
  }

  function Working(s: State): (r: Option<State>) {
    var t := Turn(s, s.worker);
    if t.None? then None else Some(t.value.0.(worker := t.value.1))
  }

  function WorkingToo(s: State): (r: Option<State>) {
    var t := Turn(s, s.second);
    if t.None? then None else Some(t.value.0.(second := t.value.1))
  }

  function Stopping(s: State): (r: Option<State>) {
    match s.stop
    case NotStopping => None
    case SetClosing => Some(s.(closing := true, stop := WakeWorker))
    case WakeWorker => Some(s.(wake := true, stop := Join))
    case Join => Some(s.(stop := NotStopping))
  }

  function Step(s: State, limit: nat, e: Event): (r: Option<State>) {
    match e
    case Deliver(batch) =>
      if s.deliver != Outside || batch == [] then None
      else
        var room := Max(limit - |s.records|, 0);
        var take := Min(room, |batch|);
        Some(s.(offered := s.offered + |batch|, lost := s.lost + |batch| - take, deliver := Extend(batch[..take])))
    case DeliverStep => Delivering(s, limit)
    case WorkerStep => Working(s)
    case SecondStep => WorkingToo(s)
    case Stop =>
      if s.stop != NotStopping || !s.hasWorker then None
      else Some(s.(hasWorker := false, stop := SetClosing, due := |s.accepted|))
    case StopStep => Stopping(s)
  }

  function Run(s: State, limit: nat, events: seq<Event>): (r: Option<State>)
    decreases |events|
  {
    if events == [] then Some(s)
    else
      var s' := Step(s, limit, events[0]);
      if s'.None? then None else Run(s'.value, limit, events[1..])
  }

  // ---------------------------------------------------------------- one worker

  /** The worker sleeps and nothing has woken it. */
  predicate Blocked(s: State) { s.worker == Wait && !s.wake }

  /** Who may sleep, and who is bound to wake whom, as long as there is one worker. */
  ghost predicate Control(s: State) {
    && (s.idle <==> s.worker in {LookRecords, LookClosing, Wait, ClearIdle})
    && (s.worker in {LookClosing, Wait} && !s.wake && s.records != [] ==> s.deliver in {CheckIdle, SetWake})
    && (s.worker == Wait && !s.wake && s.closing ==> s.stop == WakeWorker)
    && (s.worker == NotStarted ==> !s.hasWorker && s.stop == NotStopping && !s.closing)
    && (s.hasWorker ==> s.stop == NotStopping && !s.closing)
    && (!s.hasWorker && s.worker != NotStarted ==> s.stop == SetClosing || s.closing)
    && (s.stop == SetClosing ==> !s.closing)
    && (s.worker == Exited ==> s.closing)
  }

  /** A worker that found the deque empty: what is there now came after. */
  predicate FoundEmpty(w: WorkerAt) { w in {CheckClosing, SetIdle, LookRecords, LookClosing, Wait, ClearIdle, ClearWake, Exited} }

  function Arriving(s: State): (batch: seq<Record>) { if s.deliver.Extend? then s.deliver.batch else [] }

  function Hand(w: WorkerAt): (r: seq<Record>) { if w.Handle? then [w.record] else [] }

  ghost predicate InOrder(accepted: seq<Record>, handled: seq<Record>, hand: seq<Record>, records: seq<Record>) {
    accepted == handled + hand + records
  }

  /** Every accepted record is handled, in the hands of a worker or queued, once. */
  ghost predicate Kept(accepted: seq<Record>, handled: seq<Record>, first: seq<Record>, second: seq<Record>, records: seq<Record>) {
    multiset(accepted) == multiset(handled) + multiset(first) + multiset(second) + multiset(records)
  }

  /** What any number of workers keep. */
  ghost predicate Books(s: State, limit: nat) {
    && |s.records| + |Arriving(s)| <= limit
    && s.offered == |s.accepted| + |Arriving(s)| + s.lost
    && (s.stop in {WakeWorker, Join} ==> s.closing)
    && (s.deliver in {CheckStopped, StartWorker} ==> !s.hasWorker)
    && (s.deliver == StartWorker && s.worker != NotStarted ==> s.stop == SetClosing || s.closing)
    && (Twice(s) ==> s.worker != NotStarted && s.deliver != StartWorker && (s.closing || (s.hasWorker && s.stop == SetClosing)))
    && s.due <= |s.accepted|
    && (limit == 0 ==> s.accepted == [])
    && Kept(s.accepted, s.handled, Hand(s.worker), Hand(s.second), s.records)
  }

  ghost predicate Inv(s: State, limit: nat) {
    && Books(s, limit)
    && (!Twice(s) ==> Control(s) && InOrder(s.accepted, s.handled, Hand(s.worker), s.records))
    && (!Twice(s) && FoundEmpty(s.worker) ==> s.records == s.late)
  }

  lemma TakeFirst(accepted: seq<Record>, handled: seq<Record>, records: seq<Record>)
    requires InOrder(accepted, handled, [], records) && records != []
    ensures InOrder(accepted, handled, [records[0]], records[1..])
  {
  }

  lemma Handled(accepted: seq<Record>, handled: seq<Record>, record: Record, records: seq<Record>)
    requires InOrder(accepted, handled, [record], records)
    ensures InOrder(accepted, handled + [record], [], records)
  {
  }

  lemma Queued(accepted: seq<Record>, handled: seq<Record>, hand: seq<Record>, records: seq<Record>, batch: seq<Record>)
    requires InOrder(accepted, handled, hand, records)
    ensures InOrder(accepted + batch, handled, hand, records + batch)
  {
  }

  /** A turn changes little but the worker that takes it. */
  lemma TurnKeeps(s: State, w: WorkerAt)
    requires Turn(s, w).Some?
    ensures var (d, v) := Turn(s, w).value;
            && d == s.(records := d.records, handled := d.handled, wake := d.wake, idle := d.idle, late := d.late)
            && |d.records| <= |s.records| && w != NotStarted && v != NotStarted
  {
  }

  lemma TurnEmpties(s: State, w: WorkerAt)
    requires Turn(s, w).Some? && (FoundEmpty(w) ==> s.records == s.late)
    ensures var (d, v) := Turn(s, w).value; FoundEmpty(v) ==> d.records == d.late
  {
  }

  /** It moves at most one record, from the queue to the hand or from the hand to the handled ones. */
  lemma TurnMoves(s: State, w: WorkerAt, other: seq<Record>)
    requires Turn(s, w).Some?
    ensures var (d, v) := Turn(s, w).value;
            && (Kept(s.accepted, s.handled, Hand(w), other, s.records) ==> Kept(s.accepted, d.handled, Hand(v), other, d.records))
            && (Kept(s.accepted, s.handled, other, Hand(w), s.records) ==> Kept(s.accepted, d.handled, other, Hand(v), d.records))
  {
    hide Kept;
    if w == Pop && s.records != [] {
      KeptPop(s.accepted, s.handled, other, s.records);
    } else if w.Handle? {
      KeptHandle(s.accepted, s.handled, w.record, other, s.records);
    }
  }

  lemma KeptPop(accepted: seq<Record>, handled: seq<Record>, other: seq<Record>, records: seq<Record>)
    requires records != []
    ensures Kept(accepted, handled, [], other, records) ==> Kept(accepted, handled, [records[0]], other, records[1..])
    ensures Kept(accepted, handled, other, [], records) ==> Kept(accepted, handled, other, [records[0]], records[1..])
  {
    assert records == [records[0]] + records[1..];
  }

  lemma KeptHandle(accepted: seq<Record>, handled: seq<Record>, r: Record, other: seq<Record>, records: seq<Record>)
    ensures Kept(accepted, handled, [r], other, records) ==> Kept(accepted, handled + [r], [], other, records)
    ensures Kept(accepted, handled, other, [r], records) ==> Kept(accepted, handled + [r], other, [], records)
  {
  }

  lemma KeptMore(accepted: seq<Record>, handled: seq<Record>, first: seq<Record>, second: seq<Record>, records: seq<Record>, batch: seq<Record>)
    requires Kept(accepted, handled, first, second, records)
    ensures Kept(accepted + batch, handled, first, second, records + batch)
  {
  }

  lemma TurnOrders(s: State, w: WorkerAt)
    requires Turn(s, w).Some? && InOrder(s.accepted, s.handled, Hand(w), s.records)
    ensures var (d, v) := Turn(s, w).value; InOrder(d.accepted, d.handled, Hand(v), d.records)
  {
    hide InOrder;
    if w == Pop && s.records != [] {
      TakeFirst(s.accepted, s.handled, s.records);
    } else if w.Handle? {
      Handled(s.accepted, s.handled, w.record, s.records);
    }
  }

  lemma WorkerBooks(s: State, limit: nat)
    requires Books(s, limit) && Working(s).Some?
    ensures Books(Working(s).value, limit)
  {
    hide Turn, Kept;
    TurnKeeps(s, s.worker);
    TurnMoves(s, s.worker, Hand(s.second));
  }

  lemma SecondBooks(s: State, limit: nat)
    requires Books(s, limit) && WorkingToo(s).Some?
    ensures Books(WorkingToo(s).value, limit)
  {
    hide Turn, Kept;
    TurnKeeps(s, s.second);
    TurnMoves(s, s.second, Hand(s.worker));
  }

  lemma WorkerKeeps(s: State, limit: nat)
    requires Inv(s, limit) && Working(s).Some?
    ensures Inv(Working(s).value, limit)
  {
    hide Books, InOrder, Control, Turn;
    WorkerBooks(s, limit);
    TurnKeeps(s, s.worker);
    if !Twice(s) {
      TurnOrders(s, s.worker);
      TurnEmpties(s, s.worker);
      WorkerControls(s);
    }
  }

  lemma WorkerControls(s: State)
    requires Control(s) && !Twice(s) && Working(s).Some?
    ensures Control(Working(s).value)
  {
  }

  lemma SecondKeeps(s: State, limit: nat)
    requires Inv(s, limit) && WorkingToo(s).Some?
    ensures Inv(WorkingToo(s).value, limit)
  {
    hide Books, InOrder, Control, Turn;
    SecondBooks(s, limit);
    TurnKeeps(s, s.second);
  }

  lemma DeliverBooks(s: State, limit: nat)
    requires Inv(s, limit) && Delivering(s, limit).Some?
    ensures Books(Delivering(s, limit).value, limit)
  {
    hide Kept, InOrder, FoundEmpty;
    if s.deliver.Extend? { ExtendBooks(s, limit); }
  }

  lemma ExtendBooks(s: State, limit: nat)
    requires Books(s, limit) && s.deliver.Extend?
    ensures Books(Delivering(s, limit).value, limit)
  {
    hide Kept;
    KeptMore(s.accepted, s.handled, Hand(s.worker), Hand(s.second), s.records, s.deliver.batch);
  }

  lemma DeliverKeeps(s: State, limit: nat)
    requires Inv(s, limit) && Delivering(s, limit).Some?
    ensures Inv(Delivering(s, limit).value, limit)
  {
    hide Books, InOrder, Control, FoundEmpty, Delivering;
    DeliverBooks(s, limit);
    if !Twice(s) {
      DeliverOrders(s, limit);
      DeliverControls(s, limit);
    } else {
      DeliverDoubles(s, limit);
    }
  }

  lemma DeliverDoubles(s: State, limit: nat)
    requires Twice(s) && Delivering(s, limit).Some?
    ensures Twice(Delivering(s, limit).value)
  {
  }

  lemma DeliverOrders(s: State, limit: nat)
    requires InOrder(s.accepted, s.handled, Hand(s.worker), s.records) && Delivering(s, limit).Some?
    ensures var d := Delivering(s, limit).value; InOrder(d.accepted, d.handled, Hand(s.worker), d.records)
  {
    hide InOrder, Hand;
    if s.deliver.Extend? { Queued(s.accepted, s.handled, Hand(s.worker), s.records, s.deliver.batch); }
  }

  lemma DeliverControls(s: State, limit: nat)
    requires Books(s, limit) && Control(s) && !Twice(s) && Delivering(s, limit).Some?
    requires FoundEmpty(s.worker) ==> s.records == s.late
    ensures var d := Delivering(s, limit).value;
            !Twice(d) ==> Control(d) && (FoundEmpty(d.worker) ==> d.records == d.late) && Hand(d.worker) == Hand(s.worker)
  {
    hide Kept, InOrder;
  }

  lemma OfferKeeps(s: State, limit: nat, e: Event)
    requires Inv(s, limit) && Step(s, limit, e).Some? && e.Deliver?
    ensures Inv(Step(s, limit, e).value, limit)
  {
    hide InOrder, Kept, Working, WorkingToo, Delivering, Stopping;
  }

  lemma StopKeeps(s: State, limit: nat)
    requires Inv(s, limit) && Step(s, limit, Stop).Some?
    ensures Inv(Step(s, limit, Stop).value, limit)
  {
    hide InOrder, Kept, Working, WorkingToo, Delivering, Stopping;
  }

  lemma StoppingKeeps(s: State, limit: nat)
    requires Inv(s, limit) && Stopping(s).Some?
    ensures Inv(Stopping(s).value, limit)
  {
    hide InOrder, Kept;
  }

  lemma StepKeeps(s: State, limit: nat, e: Event)
    requires Inv(s, limit)
    ensures Step(s, limit, e).Some? ==> Inv(Step(s, limit, e).value, limit)
  {
    hide Inv, Working, WorkingToo, Delivering, Stopping;
    if Step(s, limit, e).Some? {
      match e
      case DeliverStep => DeliverKeeps(s, limit);
      case WorkerStep => WorkerKeeps(s, limit);
      case SecondStep => SecondKeeps(s, limit);
      case Stop => StopKeeps(s, limit);
      case StopStep => StoppingKeeps(s, limit);
      case Deliver(_) => OfferKeeps(s, limit, e);
    }
  }

  lemma {:induction false} RunKeeps(s: State, limit: nat, events: seq<Event>)
    requires Inv(s, limit)
    ensures Run(s, limit, events).Some? ==> Inv(Run(s, limit, events).value, limit)
    decreases |events|
  {
    hide Inv, Step;
    if events != [] {
      StepKeeps(s, limit, events[0]);
      if Step(s, limit, events[0]).Some? {
        RunKeeps(Step(s, limit, events[0]).value, limit, events[1..]);
      }
    }
  }

  /**
   In every run the deque keeps its limit, every record that passed the level test is queued or counted
   as lost, and every queued one is handled, in hand or waiting, exactly once.
   */
  lemma NothingVanishes(limit: nat, events: seq<Event>, s: State)
    requires Run(Initial, limit, events) == Some(s)
    ensures |s.records| <= limit
    ensures s.deliver == Outside ==> s.offered == |s.accepted| + s.lost
    ensures Kept(s.accepted, s.handled, Hand(s.worker), Hand(s.second), s.records)
  {
    RunKeeps(Initial, limit, events);
  }

  /**
   No lost wake-up, with one worker: a worker that sleeps has nothing to do, unless the thread that gave it
   something to do is still about to wake it; and records are handled in order.
   */
  lemma NoLostWakeUp(limit: nat, events: seq<Event>, s: State)
    requires Run(Initial, limit, events) == Some(s) && !Twice(s)
    ensures Blocked(s) && s.deliver !in {CheckIdle, SetWake} ==> s.records == []
    ensures Blocked(s) && s.closing ==> s.stop == WakeWorker
    ensures s.handled <= s.accepted
  {
    RunKeeps(Initial, limit, events);
  }

  /** A second worker was started, or `deliver` is about to. */
  predicate Doubled(s: State) { Twice(s) || (s.deliver == StartWorker && s.worker != NotStarted) }

  /**
   A second worker can start in one window only, exactly: `deliver` looks for the worker after `stop` has
   taken it and at `closing` before `stop` has set it.
   */
  lemma SecondWorkerExactlyWhen(limit: nat, events: seq<Event>, s: State, e: Event)
    requires Run(Initial, limit, events) == Some(s) && !Doubled(s) && Step(s, limit, e).Some?
    ensures Doubled(Step(s, limit, e).value) <==> e == DeliverStep && s.deliver == CheckStopped && s.stop == SetClosing
  {
    hide Kept, InOrder, Run, Turn;
    InitialKeeps(limit);
    RunKeeps(Initial, limit, events);
    if e.WorkerStep? { TurnKeeps(s, s.worker); }
    if e.SecondStep? { TurnKeeps(s, s.second); }
  }

  // ---------------------------------------------------------------- what `stop` leaves

  /** The worker has ended, and a record that was queued before `stop` was called was never handled. */
  predicate Undelivered(s: State) { s.worker == Exited && |s.handled| < s.due }

  /** Some of the records queued since the worker last looked for one were queued before `stop` was called. */
  predicate Overtaken(s: State) { |s.late| > |s.accepted| - s.due }

  /**
   With one worker, `stop` fails to deliver what waited if and only if a `deliver` extended the deque
   before the call, and the worker, which had found it empty, saw `closing` without looking again. What is
   left when it has ended is what was queued since it last looked.
   */
  lemma StopDelivers(limit: nat, events: seq<Event>, s: State)
    requires Run(Initial, limit, events) == Some(s) && !Twice(s) && s.worker == Exited
    ensures s.closing && s.due <= |s.accepted| && s.records == s.late && s.accepted == s.handled + s.late
    ensures Undelivered(s) <==> Overtaken(s)
    ensures s.late == [] ==> s.handled == s.accepted
  {
    hide Run, Inv;
    InitialKeeps(limit);
    RunKeeps(Initial, limit, events);
    WorkerEnded(s, limit);
    assert s.handled + [] + s.late == s.handled + s.late;
  }

  lemma WorkerEnded(s: State, limit: nat)
    requires Inv(s, limit) && !Twice(s) && s.worker == Exited
    ensures s.closing && s.due <= |s.accepted| && s.records == s.late && s.accepted == s.handled + [] + s.late
  {
    hide Kept;
  }

  lemma InitialKeeps(limit: nat)
    ensures Inv(Initial, limit)
  {
  }

  // ---------------------------------------------------------------- which records are queued

  /** The batches that were delivered, in order. */
  function Batches(events: seq<Event>): (bs: seq<seq<Record>>) {
    if events == [] then []
    else
      var n := |events| - 1;
      Batches(events[..n]) + if events[n].Deliver? then [events[n].batch] else []
  }

  /** All their records. */
  function Joined(bs: seq<seq<Record>>): (rs: seq<Record>) {
    if bs == [] then [] else Joined(bs[..|bs| - 1]) + bs[|bs| - 1]
  }

  /** Each batch cut to a length. */
  predicate Cuts(bs: seq<seq<Record>>, cuts: seq<nat>) { |cuts| == |bs| && forall i | 0 <= i < |bs| :: cuts[i] <= |bs[i]| }

  function Fronts(bs: seq<seq<Record>>, cuts: seq<nat>): (r: seq<seq<Record>>)
    requires Cuts(bs, cuts)
    ensures |r| == |bs| && forall i | 0 <= i < |bs| :: r[i] == bs[i][..cuts[i]]
  {
    seq(|bs|, i requires 0 <= i < |bs| => bs[i][..cuts[i]])
  }

  /** How many records the cuts leave out. */
  function LeftOut(bs: seq<seq<Record>>, cuts: seq<nat>): (n: nat)
    requires Cuts(bs, cuts)
  {
    if bs == [] then 0
    else
      var k := |bs| - 1;
      LeftOut(bs[..k], cuts[..k]) + |bs[k]| - cuts[k]
  }

  /** What came in by the batches: a front of each was queued or is about to be, the rest was lost. */
  ghost predicate Came(s: State, bs: seq<seq<Record>>, cuts: seq<nat>) {
    && Cuts(bs, cuts)
    && s.accepted + Arriving(s) == Joined(Fronts(bs, cuts))
    && s.lost == LeftOut(bs, cuts) && s.offered == |Joined(bs)|
  }

  lemma BatchesGrow(events: seq<Event>, e: Event)
    ensures Batches(events + [e]) == Batches(events) + if e.Deliver? then [e.batch] else []
  {
    assert (events + [e])[..|events|] == events;
  }

  lemma CutOneMore(bs: seq<seq<Record>>, cuts: seq<nat>, b: seq<Record>, cut: nat)
    requires Cuts(bs, cuts) && cut <= |b|
    ensures Cuts(bs + [b], cuts + [cut])
    ensures Joined(Fronts(bs + [b], cuts + [cut])) == Joined(Fronts(bs, cuts)) + b[..cut]
    ensures LeftOut(bs + [b], cuts + [cut]) == LeftOut(bs, cuts) + |b| - cut
    ensures Joined(bs + [b]) == Joined(bs) + b
  {
    assert (bs + [b])[..|bs|] == bs && (cuts + [cut])[..|cuts|] == cuts;
    assert Fronts(bs + [b], cuts + [cut])[..|bs|] == Fronts(bs, cuts);
  }

  lemma CameStep(limit: nat, s: State, bs: seq<seq<Record>>, cuts: seq<nat>, e: Event, d: State) returns (more: seq<nat>)
    requires Came(s, bs, cuts) && Step(s, limit, e) == Some(d)
    ensures Came(d, bs + (if e.Deliver? then [e.batch] else []), more)
    ensures cuts <= more && |more| == |cuts| + if e.Deliver? then 1 else 0
    ensures e.Deliver? ==> more[|cuts|] == Min(Max(limit - |s.records|, 0), |e.batch|)
  {
    hide Cuts, Fronts, LeftOut, Joined, Step;
    more := cuts;
    if e.Deliver? {
      DeliverTakes(limit, s, e.batch, d);
      var take := Min(Max(limit - |s.records|, 0), |e.batch|);
      more := cuts + [take];
      CutOneMore(bs, cuts, e.batch, take);
    } else {
      assert bs + [] == bs;
      OthersBringNothing(limit, s, e, d);
    }
  }

  lemma DeliverTakes(limit: nat, s: State, batch: seq<Record>, d: State)
    requires Step(s, limit, Deliver(batch)) == Some(d)
    ensures var take := Min(Max(limit - |s.records|, 0), |batch|);
            && d.accepted + Arriving(d) == s.accepted + Arriving(s) + batch[..take]
            && d.lost == s.lost + |batch| - take && d.offered == s.offered + |batch|
  {
    hide Delivering, Working, WorkingToo, Stopping;
    assert s.accepted + [] == s.accepted;
  }

  lemma OthersBringNothing(limit: nat, s: State, e: Event, d: State)
    requires Step(s, limit, e) == Some(d) && !e.Deliver?
    ensures d.accepted + Arriving(d) == s.accepted + Arriving(s) && d.lost == s.lost && d.offered == s.offered
  {
    hide Turn;
    match e
    case WorkerStep => TurnKeeps(s, s.worker);
    case SecondStep => TurnKeeps(s, s.second);
    case DeliverStep => DeliveringBringsNothing(limit, s, d);
    case _ =>
  }

  lemma DeliveringBringsNothing(limit: nat, s: State, d: State)
    requires Delivering(s, limit) == Some(d)
    ensures d.accepted + Arriving(d) == s.accepted + Arriving(s) && d.lost == s.lost && d.offered == s.offered
  {
    if s.deliver.Extend? { assert s.accepted + s.deliver.batch + [] == s.accepted + s.deliver.batch; }
  }

  lemma {:induction false} CameRun(limit: nat, before: seq<Event>, s: State, cuts: seq<nat>, events: seq<Event>, d: State) returns (more: seq<nat>)
    requires Came(s, Batches(before), cuts) && Run(s, limit, events) == Some(d)
    ensures Came(d, Batches(before + events), more)
    decreases |events|
  {
    hide Came, Step, Batches;
    if events == [] {
      assert before + events == before;
      more := cuts;
    } else {
      var next := Step(s, limit, events[0]).value;
      var c := CameStep(limit, s, Batches(before), cuts, events[0], next);
      BatchesGrow(before, events[0]);
      more := CameRun(limit, before + [events[0]], next, c, events[1..], d);
      assert before + [events[0]] + events[1..] == before + events;
    }
  }

  /**
   Which records are queued: in every run a front of each delivered batch, in order and unchanged, and
   `lost` counts exactly the records behind those fronts.
   */
  lemma FrontsAreQueued(limit: nat, events: seq<Event>, s: State) returns (cuts: seq<nat>)
    requires Run(Initial, limit, events) == Some(s)
    ensures var bs := Batches(events);
            && Cuts(bs, cuts) && s.accepted + Arriving(s) == Joined(Fronts(bs, cuts))
            && s.lost == LeftOut(bs, cuts) && s.offered == |Joined(bs)|
    ensures s.lost == 0 ==> s.accepted + Arriving(s) == Joined(Batches(events))
  {
    hide Run;
    NothingCame();
    cuts := CameRun(limit, [], Initial, [], events, s);
    assert [] + events == events;
    if s.lost == 0 { NothingLeftOut(Batches(events), cuts); }
  }

  lemma NothingCame()
    ensures Came(Initial, Batches([]), [])
  {
  }

  lemma {:induction false} NothingLeftOut(bs: seq<seq<Record>>, cuts: seq<nat>)
    requires Cuts(bs, cuts) && LeftOut(bs, cuts) == 0
    ensures Fronts(bs, cuts) == bs
    decreases |bs|
  {
    if bs != [] {
      var k := |bs| - 1;
      NothingLeftOut(bs[..k], cuts[..k]);
      forall i | 0 <= i < |bs| ensures Fronts(bs, cuts)[i] == bs[i] {
        if i < k { assert Fronts(bs[..k], cuts[..k])[i] == bs[..k][i]; }
      }
    }
  }

  /** A record is lost only when the deque is full: a cut batch fills it to its limit. */
  lemma LostOnlyWhenFull(limit: nat, events: seq<Event>, s: State, batch: seq<Record>, d: State)
    requires Run(Initial, limit, events) == Some(s) && Step(s, limit, Deliver(batch)) == Some(d)
    ensures d.lost > s.lost ==> |d.records| + |Arriving(d)| == limit
    ensures d.records == s.records && |Arriving(d)| + d.lost - s.lost == |batch|
  {
    hide Run;
    InitialKeeps(limit);
    RunKeeps(Initial, limit, events);
  }

  /** With one worker and nothing lost, the handlers get the delivered records in their order. */
  lemma HandledInOrder(limit: nat, events: seq<Event>, s: State)
    requires Run(Initial, limit, events) == Some(s) && !Twice(s) && s.lost == 0
    ensures s.handled <= Joined(Batches(events))
  {
    hide Run, Joined, Batches;
    var cuts := FrontsAreQueued(limit, events, s);
    NoLostWakeUp(limit, events, s);
  }

  // ---------------------------------------------------------------- two workers

  ghost predicate Reachable(limit: nat, s: State) { exists events :: Run(Initial, limit, events) == Some(s) }

  lemma {:induction false} Then(limit: nat, s: State, events: seq<Event>, d: State, e: Event)
    requires Run(s, limit, events) == Some(d) && Step(d, limit, e).Some?
    ensures Run(s, limit, events + [e]) == Step(d, limit, e)
    decreases |events|
  {
    hide Step;
    if events == [] {
      assert [e][1..] == [] && events + [e] == [e];
      assert Run(Step(d, limit, e).value, limit, []) == Step(d, limit, e);
    } else {
      assert (events + [e])[1..] == events[1..] + [e];
      Then(limit, Step(s, limit, events[0]).value, events[1..], d, e);
    }
  }

  /** One more event. */
  lemma On(limit: nat, s: State, e: Event, d: State)
    requires Reachable(limit, s) && Step(s, limit, e) == Some(d)
    ensures Reachable(limit, d)
  {
    hide Run, Step;
    var events :| Run(Initial, limit, events) == Some(s);
    Then(limit, Initial, events, s, e);
  }

  lemma InitialReachable(limit: nat)
    ensures Reachable(limit, Initial)
  {
    assert Run(Initial, limit, []) == Some(Initial);
  }

  /** Records are handled in another order than they were queued. */
  predicate Disordered(s: State) { !(s.handled <= s.accepted) }

  /** A worker sleeps for good: it was told to end, `stop` has done all it does, and the other worker is gone. */
  predicate Abandoned(s: State) {
    Blocked(s) && !s.idle && s.closing && s.hasWorker && s.stop == Join && s.deliver == Outside && s.second == Exited
  }

  /** One record is delivered to an empty queue while no worker sleeps. */
  lemma Delivery(limit: nat, s: State, r: Record, d: State)
    requires Reachable(limit, s) && s.deliver == Outside && s.records == [] && !s.idle && !s.closing && !s.hasWorker
    requires s.worker == NotStarted || s.second == NotStarted
    requires var taken := if limit == 0 then [] else [r];
             var t := s.(records := taken, accepted := s.accepted + taken, late := s.late + taken, offered := s.offered + 1,
                         lost := s.lost + 1 - |taken|, hasWorker := true);
             d == if s.worker == NotStarted then t.(worker := Pop) else t.(second := Pop)
    ensures Reachable(limit, d)
  {
    hide Reachable;
    var taken := if limit == 0 then [] else [r];
    assert [r][..0] == [] && [r][..1] == [r] && [] + taken == taken;
    var s1 := s.(offered := s.offered + 1, lost := s.lost + 1 - |taken|, deliver := Extend(taken));
    var s2 := s1.(records := taken, accepted := s.accepted + taken, late := s.late + taken, deliver := CheckIdle);
    On(limit, s, Deliver([r]), s1);
    On(limit, s1, DeliverStep, s2);
    On(limit, s2, DeliverStep, s2.(deliver := CheckWorker));
    On(limit, s2.(deliver := CheckWorker), DeliverStep, s2.(deliver := CheckStopped));
    On(limit, s2.(deliver := CheckStopped), DeliverStep, s2.(deliver := StartWorker));
    On(limit, s2.(deliver := StartWorker), DeliverStep, d);
  }

  /**
   The order can be lost: the first worker holds a record while `stop` has taken it and not yet set
   `closing`; the next record starts a second worker, which handles it first.
   */
  lemma OrderIsLost(limit: nat) returns (s: State)
    requires limit > 0
    ensures Reachable(limit, s) && Disordered(s)
  {
    hide Reachable;
    InitialReachable(limit);
    var s0 := Initial.(records := [1], accepted := [1], late := [1], offered := 1, hasWorker := true, worker := Pop);
    assert [] + [1] == [1];
    Delivery(limit, Initial, 1, s0);
    var s1 := s0.(records := [], late := [], worker := Handle(1));
    assert [1][1..] == [];
    On(limit, s0, WorkerStep, s1);
    var s2 := s1.(hasWorker := false, stop := SetClosing, due := 1);
    On(limit, s1, Stop, s2);
    var s3 := s2.(records := [2], accepted := [1, 2], late := [2], offered := 2, hasWorker := true, second := Pop);
    assert [1] + [2] == [1, 2];
    Delivery(limit, s2, 2, s3);
    s := SecondHandles(limit, s3, 2);
  }

  lemma SecondHandles(limit: nat, s: State, r: Record) returns (d: State)
    requires Reachable(limit, s) && s.second == Pop && s.records == [r] && s.handled == [] && s.accepted != [] && s.accepted[0] != r
    ensures Reachable(limit, d) && Disordered(d)
  {
    hide Reachable;
    assert [r][1..] == [] && [] + [r] == [r];
    var s1 := s.(records := [], late := [], second := Handle(r));
    On(limit, s, SecondStep, s1);
    d := s1.(handled := [r], second := Pop);
    On(limit, s1, SecondStep, d);
    assert d.handled[0] == r;
  }

  /** A worker with an empty queue goes to sleep before `stop` has set `closing`. */
  lemma FirstSleeps(limit: nat, s: State) returns (d: State)
    requires Reachable(limit, s) && s.worker == Pop && s.records == [] && !s.closing
    ensures Reachable(limit, d) && d == s.(idle := true, late := [], worker := Wait)
  {
    hide Reachable;
    var s1 := s.(late := [], worker := CheckClosing);
    var s2 := s1.(worker := SetIdle);
    var s3, s4 := s2.(idle := true, worker := LookRecords), s2.(idle := true, worker := LookClosing);
    d := s2.(idle := true, worker := Wait);
    On(limit, s, WorkerStep, s1);
    On(limit, s1, WorkerStep, s2);
    On(limit, s2, WorkerStep, s3);
    On(limit, s3, WorkerStep, s4);
    On(limit, s4, WorkerStep, d);
  }

  /** The second worker looks at `closing` twice, before and after `stop` sets it. */
  lemma SecondLooks(limit: nat, s: State) returns (d: State)
    requires Reachable(limit, s) && s.second == Pop && s.records == [] && !s.closing && s.stop == SetClosing
    ensures Reachable(limit, d) && d == s.(idle := true, late := [], closing := true, wake := true, stop := Join, second := ClearIdle)
  {
    hide Reachable;
    var s1 := s.(late := [], second := CheckClosing);
    var s2 := s1.(second := SetIdle);
    var s3, s4 := s2.(idle := true, second := LookRecords), s2.(idle := true, second := LookClosing);
    var s5 := s4.(closing := true, stop := WakeWorker);
    var s6 := s5.(second := ClearIdle);
    d := s6.(wake := true, stop := Join);
    On(limit, s, SecondStep, s1);
    On(limit, s1, SecondStep, s2);
    On(limit, s2, SecondStep, s3);
    On(limit, s3, SecondStep, s4);
    On(limit, s4, StopStep, s5);
    On(limit, s5, SecondStep, s6);
    On(limit, s6, StopStep, d);
  }

  /** It clears the event that `stop` set for the first, and ends. */
  lemma SecondEnds(limit: nat, s: State) returns (d: State)
    requires Reachable(limit, s) && s.second == ClearIdle && s.records == [] && s.closing
    ensures Reachable(limit, d) && d == s.(idle := false, late := [], wake := false, second := Exited)
  {
    hide Reachable;
    var s1 := s.(idle := false, second := ClearWake);
    var s2 := s1.(wake := false, second := Pop);
    var s3 := s2.(late := [], second := CheckClosing);
    d := s3.(second := Exited);
    On(limit, s, SecondStep, s1);
    On(limit, s1, SecondStep, s2);
    On(limit, s2, SecondStep, s3);
    On(limit, s3, SecondStep, d);
  }

  /** A worker takes what one delivery left and is back at the queue. */
  lemma Empties(limit: nat, s: State, second: bool) returns (d: State)
    requires Reachable(limit, s) && |s.records| <= 1 && (if second then s.second == Pop else s.worker == Pop)
    ensures Reachable(limit, d) && d == s.(records := [], handled := s.handled + s.records, late := d.late)
  {
    hide Reachable;
    d := s;
    assert s.handled + [] == s.handled;
    if s.records != [] {
      var r := s.records[0];
      assert s.records == [r] && [r][1..] == [];
      var t := s.(records := [], late := []);
      d := t.(handled := s.handled + [r]);
      if second {
        On(limit, s, SecondStep, t.(second := Handle(r)));
        On(limit, t.(second := Handle(r)), SecondStep, d);
      } else {
        On(limit, s, WorkerStep, t.(worker := Handle(r)));
        On(limit, t.(worker := Handle(r)), WorkerStep, d);
      }
    }
  }

  /** A worker can sleep for good, whatever the limit. */
  lemma WorkerIsAbandoned(limit: nat) returns (s: State)
    ensures Reachable(limit, s) && Abandoned(s)
  {
    hide Reachable, Step;
    InitialReachable(limit);
    var taken := if limit == 0 then [] else [1];
    var s0 := Initial.(records := taken, accepted := [] + taken, late := [] + taken, offered := 1, lost := 1 - |taken|, hasWorker := true, worker := Pop);
    Delivery(limit, Initial, 1, s0);
    var s1 := Empties(limit, s0, false);
    var s2 := s1.(hasWorker := false, stop := SetClosing, due := |s1.accepted|);
    Stops(limit, s1);
    var s3 := s2.(records := taken, accepted := s2.accepted + taken, late := s2.late + taken, offered := s2.offered + 1, lost := s2.lost + 1 - |taken|,
                  hasWorker := true, second := Pop);
    Delivery(limit, s2, 1, s3);
    var s4 := Empties(limit, s3, true);
    var s5 := FirstSleeps(limit, s4);
    var s6 := SecondLooks(limit, s5);
    s := SecondEnds(limit, s6);
  }

  lemma Stops(limit: nat, s: State)
    requires Reachable(limit, s) && s.hasWorker && s.stop == NotStopping
    ensures Reachable(limit, s.(hasWorker := false, stop := SetClosing, due := |s.accepted|))
  {
    hide Reachable;
    On(limit, s, Stop, s.(hasWorker := false, stop := SetClosing, due := |s.accepted|));
  }

  /** Nothing but another call of `stop` wakes an abandoned worker: whatever else happens, it stays. */
  lemma AbandonedForGood(limit: nat, s: State, events: seq<Event>)
    requires Abandoned(s) && Stop !in events
    ensures var r := Run(s, limit, events); r.Some? ==> r.value.worker == Wait && !r.value.wake
  {
    StaysAbandoned(limit, s, events);
  }

  lemma {:induction false} StaysAbandoned(limit: nat, s: State, events: seq<Event>)
    requires s.worker == Wait && !s.wake && !s.idle && s.closing && s.stop in {Join, NotStopping} && s.second == Exited && s.hasWorker
    requires s.deliver !in {SetWake, CheckStopped, StartWorker} && Stop !in events
    ensures var r := Run(s, limit, events); r.Some? ==> r.value.worker == Wait && !r.value.wake
    decreases |events|
  {
    if events != [] {
      var d := Step(s, limit, events[0]);
      if d.Some? { StaysAbandoned(limit, d.value, events[1..]); }
    }
  }

  /** Another call of `stop` takes the worker that has ended, and wakes the one that sleeps. */
  lemma StoppedAgain(limit: nat, s: State)
    requires Abandoned(s)
    ensures var r := Run(s, limit, [StopStep, Stop, StopStep, StopStep]); r.Some? && r.value.worker == Wait && r.value.wake
  {
    hide Run;
    var s1 := s.(stop := NotStopping);
    var s2 := s1.(hasWorker := false, stop := SetClosing, due := |s.accepted|);
    var s3 := s2.(stop := WakeWorker);
    var s4 := s3.(wake := true, stop := Join);
    assert [StopStep] + [] == [StopStep] && [StopStep] + [StopStep] == [StopStep, StopStep];
    assert [Stop] + [StopStep, StopStep] == [Stop, StopStep, StopStep];
    assert [StopStep] + [Stop, StopStep, StopStep] == [StopStep, Stop, StopStep, StopStep];
    RunNothing(limit, s4);
    RunOn(limit, s3, StopStep, s4, []);
    RunOn(limit, s2, StopStep, s3, [StopStep]);
    RunOn(limit, s1, Stop, s2, [StopStep, StopStep]);
    RunOn(limit, s, StopStep, s1, [Stop, StopStep, StopStep]);
  }

  lemma RunNothing(limit: nat, s: State)
    ensures Run(s, limit, []) == Some(s)
  {
  }

  lemma RunOn(limit: nat, s: State, e: Event, d: State, events: seq<Event>)
    requires Step(s, limit, e) == Some(d)
    ensures Run(s, limit, [e] + events) == Run(d, limit, events)
  {
    hide Step;
    assert ([e] + events)[1..] == events;
  }

  /**
   The order of records and the end of the workers, exactly: in some run records come out of order if and
   only if there is room for one, in some run a worker is left asleep, and every such run has started a
   second worker.
   */
  lemma TwoWorkersExactly(limit: nat)
    ensures (exists s :: Reachable(limit, s) && Disordered(s)) <==> limit > 0
    ensures exists s :: Reachable(limit, s) && Abandoned(s)
    ensures forall s :: Reachable(limit, s) && (Disordered(s) || Abandoned(s)) ==> Twice(s)
  {
    hide Run, Step;
    if limit > 0 { var s := OrderIsLost(limit); }
    var a := WorkerIsAbandoned(limit);
    forall s | Reachable(limit, s) ensures (Disordered(s) || Abandoned(s) ==> Twice(s)) && (limit == 0 ==> !Disordered(s)) {
      var events :| Run(Initial, limit, events) == Some(s);
      if !Twice(s) { NoLostWakeUp(limit, events, s); }
      if limit == 0 { NothingWithoutRoom(events, s); }
    }
  }

  lemma NothingWithoutRoom(events: seq<Event>, s: State)
    requires Run(Initial, 0, events) == Some(s)
    ensures s.handled == []
  {
    hide Run;
    InitialKeeps(0);
    RunKeeps(Initial, 0, events);
    assert |multiset(s.handled)| <= |multiset(s.accepted)|;
  }

  // ---------------------------------------------------------------- a record that `stop` leaves

  /** The worker has found the deque empty; the record comes, `stop` runs, and the worker sees `closing`. */
  lemma RecordIsLeft(limit: nat) returns (s: State)
    requires limit > 0
    ensures Reachable(limit, s) && !Twice(s) && Undelivered(s) && s.records == [7] && s.deliver == Outside && s.stop == Join
  {
    hide Reachable, Step;
    InitialReachable(limit);
    var s0 := Initial.(records := [1], accepted := [1], late := [1], offered := 1, hasWorker := true, worker := Pop);
    assert [] + [1] == [1];
    Delivery(limit, Initial, 1, s0);
    var s1 := Empties(limit, s0, false);
    var s2 := LooksAndFindsNone(limit, s1);
    var s3 := DeliveredMeanwhile(limit, s2, 7);
    Stops(limit, s3);
    s := EndsAtOnce(limit, s3.(hasWorker := false, stop := SetClosing, due := |s3.accepted|));
  }

  lemma LooksAndFindsNone(limit: nat, s: State) returns (d: State)
    requires Reachable(limit, s) && s.worker == Pop && s.records == []
    ensures Reachable(limit, d) && d == s.(late := [], worker := CheckClosing)
  {
    hide Reachable;
    d := s.(late := [], worker := CheckClosing);
    On(limit, s, WorkerStep, d);
  }

  lemma DeliveredMeanwhile(limit: nat, s: State, r: Record) returns (d: State)
    requires Reachable(limit, s) && limit > 0 && s.deliver == Outside && s.records == [] && !s.idle && s.hasWorker
    ensures Reachable(limit, d) && d == s.(records := [r], accepted := s.accepted + [r], late := s.late + [r], offered := s.offered + 1)
  {
    hide Reachable;
    assert [r][..1] == [r] && [] + [r] == [r];
    var s1 := s.(offered := s.offered + 1, deliver := Extend([r]));
    d := s.(records := [r], accepted := s.accepted + [r], late := s.late + [r], offered := s.offered + 1);
    On(limit, s, Deliver([r]), s1);
    On(limit, s1, DeliverStep, d.(deliver := CheckIdle));
    On(limit, d.(deliver := CheckIdle), DeliverStep, d.(deliver := CheckWorker));
    On(limit, d.(deliver := CheckWorker), DeliverStep, d);
  }

  lemma EndsAtOnce(limit: nat, s: State) returns (d: State)
    requires Reachable(limit, s) && s.worker == CheckClosing && s.stop == SetClosing
    ensures Reachable(limit, d) && d == s.(closing := true, wake := true, stop := Join, worker := Exited)
  {
    hide Reachable;
    var s1 := s.(closing := true, stop := WakeWorker);
    var s2 := s1.(wake := true, stop := Join);
    d := s2.(worker := Exited);
    On(limit, s, StopStep, s1);
    On(limit, s1, StopStep, s2);
    On(limit, s2, WorkerStep, d);
  }

  /** With one worker, `stop` can leave a record that was queued before it was called, exactly when there is room for one. */
  lemma StopLeavesExactlyWhen(limit: nat)
    ensures (exists s :: Reachable(limit, s) && !Twice(s) && Undelivered(s)) <==> limit > 0
  {
    hide Run, Step;
    if limit > 0 {
      var s := RecordIsLeft(limit);
    } else {
      forall s | Reachable(limit, s) && !Twice(s) ensures !Undelivered(s) {
        var events :| Run(Initial, limit, events) == Some(s);
        if s.worker == Exited {
          StopDelivers(limit, events, s);
          NothingVanishes(limit, events, s);
        }
      }
    }
  }
}
