/**
 `RemoteLogHandler` of `rmote/protocol.py`: records gather in a list and travel in batches, inside a
 response or in a packet of their own. A record is the number of its emission, so the records of a run
 are 0, 1, 2, ... in the order they were written.
 */
module RemoteLog {
  import opened Prelude

  type Record = nat

  /** The fields of the handler. */
  datatype Handler = Handler(pending: seq<Record>, draining: bool, sending: bool, timer: bool, paused: bool)

  datatype Choice = Nothing | Schedule | ArmTimer | SendAlone

  /** `emit`: the record waits; the first one since the list was drained schedules `start`. */
  function Emitted(h: Handler, r: Record): (o: (Handler, Choice)) {
    var h' := h.(pending := h.pending + [r]);
    if h.draining then (h', Nothing) else (h'.(draining := true), Schedule)
  }

  /** `start` on an open connection. */
  function Started(h: Handler, responsesPending: bool): (o: (Handler, Choice)) {
    if h.paused then (h, Nothing)
    else if responsesPending && !h.timer then (h.(timer := true), ArmTimer)
    else (h.(timer := false), SendAlone)
  }

  /** `detach`: the batch a response takes with it; `small` says that it fits the response. */
  function Detached(h: Handler, small: bool): (o: (Handler, seq<Record>)) {
    if h.sending || h.pending == [] || !small then (h, [])
    else (h.(pending := [], sending := true, timer := false), h.pending)
  }

  /** `resume`: free the wire, put a batch back in front, and say whether to start again. */
  function Resumed(h: Handler, batch: seq<Record>): (o: (Handler, bool)) {
    var pending := batch + h.pending;
    var again := pending != [] && !h.draining;
    (h.(sending := false, pending := pending, draining := if pending == [] then false else true), again)
  }

  datatype Turn = Return | Send(batch: seq<Record>)

  /** The head of the loop in `drain`. */
  function Drained(h: Handler): (o: (Handler, Turn)) {
    if h.sending then (h.(draining := false), Return)
    else if h.pending == [] then (h.(draining := false), Return)
    else (h.(pending := [], sending := true), Send(h.pending))
  }

  class RemoteLogHandler {
    var pending: seq<Record>
    var draining: bool
    var sending: bool
    var timer: bool
    var paused: bool

    ghost function View(): (h: Handler)
      reads this
    {
      Handler(pending, draining, sending, timer, paused)
    }

    constructor (paused: bool)
      ensures View() == Handler([], false, false, false, paused)
    {
      pending, draining, sending, timer := [], false, false, false;
      this.paused := paused;
    }

    method Emit(r: Record) returns (c: Choice)
      modifies this
      ensures (View(), c) == Emitted(old(View()), r)
      ensures pending == old(pending) + [r] && draining && (c == Schedule <==> !old(draining)) && (c == Schedule || c == Nothing)
      ensures sending == old(sending) && timer == old(timer) && paused == old(paused)
    {
      pending := pending + [r];
      if draining {
        return Nothing;
      }
      draining := true;
      c := Schedule;
    }

    method Start(responsesPending: bool) returns (c: Choice)
      modifies this
      ensures (View(), c) == Started(old(View()), responsesPending)
      ensures pending == old(pending) && draining == old(draining) && sending == old(sending) && paused == old(paused)
      ensures c == Nothing <==> paused
      ensures c == ArmTimer <==> !paused && responsesPending && !old(timer)
      ensures c == ArmTimer ==> timer
      ensures c == SendAlone ==> !timer
    {
      if paused {
        return Nothing;
      }
      if responsesPending && !timer {
        timer := true;
        return ArmTimer;
      }
      timer := false;
      c := SendAlone;
    }

    method Detach(small: bool) returns (batch: seq<Record>)
      modifies this
      ensures (View(), batch) == Detached(old(View()), small)
      ensures batch + pending == old(pending) && (batch == [] || pending == [])
      ensures batch != [] <==> !old(sending) && old(pending) != [] && small
      ensures batch != [] ==> sending && !timer
      ensures draining == old(draining) && paused == old(paused)
    {
      if sending || pending == [] || !small {
        return [];
      }
      batch, pending := pending, [];
      sending := true;
      timer := false;
    }

    method Resume(batch: seq<Record>) returns (again: bool)
      modifies this
      ensures (View(), again) == Resumed(old(View()), batch)
      ensures pending == batch + old(pending) && !sending && (draining <==> pending != [])
      ensures again <==> pending != [] && !old(draining)
      ensures timer == old(timer) && paused == old(paused)
    {
      sending := false;
      if batch != [] {
        pending := batch + pending;
      } else {
        assert batch + pending == pending;
      }
      again := pending != [] && !draining;
      if again {
        draining := true;
      } else if pending == [] {
        draining := false;
      }
    }

    method DrainTurn() returns (t: Turn)
      modifies this
      ensures (View(), t) == Drained(old(View()))
      ensures t.Send? <==> !old(sending) && old(pending) != []
      ensures t.Send? ==> t.batch == old(pending) && pending == [] && sending && draining == old(draining)
      ensures t.Return? ==> pending == old(pending) && !draining && sending == old(sending)
      ensures timer == old(timer) && paused == old(paused)
    {
      if sending {
        draining := false;
        return Return;
      }
      if pending == [] {
        draining := false;
        return Return;
      }
      t := Send(pending);
      pending := [];
      sending := true;
    }
  }

  // ---------------------------------------------------------------- the handler in its surroundings

  datatype Flight = Attached(batch: seq<Record>) | Alone(batch: seq<Record>)

  /**
   `starts`, `timers` and `drains` count what the event loop still has to run: scheduled starts, armed
   timers, and drain tasks that stand at the head of their loop.
   */
  datatype State = State(h: Handler, emitted: nat, flights: seq<Flight>, delivered: seq<Record>, dropped: set<Record>,
                         starts: nat, timers: nat, drains: nat, closed: bool)

  datatype Event =
    | Emit             // a record on an open loop
    | EmitLate         // a record after the loop closed: scheduling raises
    | Start(responsesPending: bool)
    | TimerFires
    | Drain
    | AloneSent | AloneFails
    | Detach(small: bool)
    | AttachedSent | AttachedFails
    | Unpause(responsesPending: bool)
    | CloseConnection

  function InitialState(paused: bool): (s: State) {
    State(Handler([], false, false, false, paused), 0, [], [], {}, 0, 0, 0, false)
  }

  function ToSet(rs: seq<Record>): (x: set<Record>)
    ensures forall r :: r in x <==> r in rs
  {
    set r | r in rs
  }

  /** `start`, scheduled or called directly. */
  function StartNow(s: State, responsesPending: bool): (s': State) {
    if s.closed then s.(h := s.h.(draining := false, pending := []), dropped := s.dropped + ToSet(s.h.pending))
    else
      var (h, c) := Started(s.h, responsesPending);
      match c
      case ArmTimer => s.(h := h, timers := s.timers + 1)
      case SendAlone => s.(h := h, drains := s.drains + 1)
      case Nothing => s.(h := h)
      case Schedule => s.(h := h)
  }

  /** `sent` or `restore`, followed by `start` when records wait and nobody else sends them. */
  function ResumeNow(s: State, batch: seq<Record>, responsesPending: bool): (s': State) {
    var (h, again) := Resumed(s.h, batch);
    if again then StartNow(s.(h := h), responsesPending) else s.(h := h)
  }

  function Step(s: State, e: Event): (r: Option<State>) {
    match e
    case Emit =>
      var (h, c) := Emitted(s.h, s.emitted);
      Some(s.(h := h, emitted := s.emitted + 1, starts := if c.Schedule? then s.starts + 1 else s.starts))
    case EmitLate =>
      if s.h.draining then None
      else Some(s.(h := s.h.(draining := false, pending := []), emitted := s.emitted + 1,
                   dropped := s.dropped + ToSet(s.h.pending + [s.emitted])))
    case Start(responses) => if s.starts == 0 then None else Some(StartNow(s.(starts := s.starts - 1), responses))
    case TimerFires =>
      if s.timers == 0 then None
      else Some(s.(timers := s.timers - 1, drains := s.drains + 1, h := s.h.(timer := false)))
    case Drain =>
      if s.drains == 0 then None
      else
        var (h, t) := Drained(s.h);
        Some(if t.Return? then s.(h := h, drains := s.drains - 1)
             else s.(h := h, drains := s.drains - 1, flights := s.flights + [Alone(t.batch)]))
    case AloneSent =>
      if s.flights == [] || !s.flights[0].Alone? then None
      else Some(s.(h := s.h.(sending := false), flights := s.flights[1..], drains := s.drains + 1,
                   delivered := s.delivered + s.flights[0].batch))
    case AloneFails =>
      if s.flights == [] || !s.flights[0].Alone? then None
      else Some(s.(h := s.h.(sending := false, draining := false), flights := s.flights[1..],
                   dropped := s.dropped + ToSet(s.flights[0].batch)))
    case Detach(small) =>
      var (h, batch) := Detached(s.h, small);
      Some(if batch == [] then s.(h := h)
           else s.(h := h, flights := s.flights + [Attached(batch)],
                   timers := if s.h.timer && s.timers > 0 then s.timers - 1 else s.timers))
    case AttachedSent =>
      if s.flights == [] || !s.flights[0].Attached? then None
      // the response counts as owed until after this
      else Some(ResumeNow(s.(flights := s.flights[1..], delivered := s.delivered + s.flights[0].batch), [], true))
    case AttachedFails =>
      if s.flights == [] || !s.flights[0].Attached? then None
      else Some(ResumeNow(s.(flights := s.flights[1..]), s.flights[0].batch, true))
    case Unpause(responses) =>
      var s' := s.(h := s.h.(paused := false));
      Some(if s.h.pending == [] then s' else StartNow(s', responses))
    case CloseConnection => Some(s.(closed := true))
  }

  /** Events that may lose records: a failed send, a closed connection, a closed loop. */
  predicate MayLose(e: Event) { e.AloneFails? || e.CloseConnection? || e.EmitLate? }

  // ---------------------------------------------------------------- order

  /** The records emitted so far without the dropped ones, in order. */
  function Kept(n: nat, dropped: set<Record>): (rs: seq<Record>) {
    if n == 0 then [] else Kept(n - 1, dropped) + (if n - 1 in dropped then [] else [n - 1])
  }

  function Under(s: State): (rs: seq<Record>) { if s.flights == [] then [] else s.flights[0].batch }

  function Without(rs: seq<Record>, x: set<Record>): (r: seq<Record>) {
    if rs == [] then [] else (if rs[0] in x then [] else [rs[0]]) + Without(rs[1..], x)
  }

  lemma {:induction false} WithoutSplit(a: seq<Record>, b: seq<Record>, x: set<Record>)
    ensures Without(a + b, x) == Without(a, x) + Without(b, x)
    decreases |a|
  {
    if a == [] {
      assert a + b == b;
    } else {
      assert (a + b)[1..] == a[1..] + b;
      WithoutSplit(a[1..], b, x);
    }
  }

  lemma {:induction false} WithoutAll(rs: seq<Record>, x: set<Record>)
    ensures (forall r :: r in rs ==> r in x) ==> Without(rs, x) == []
    ensures (forall r :: r in rs ==> r !in x) ==> Without(rs, x) == rs
    decreases |rs|
  {
    if rs != [] {
      WithoutAll(rs[1..], x);
    }
  }

  lemma {:induction false} KeptWithout(n: nat, dropped: set<Record>, x: set<Record>)
    ensures Kept(n, dropped + x) == Without(Kept(n, dropped), x)
    decreases n
  {
    if n > 0 {
      KeptWithout(n - 1, dropped, x);
      var last := if n - 1 in dropped then [] else [n - 1];
      WithoutSplit(Kept(n - 1, dropped), last, x);
      if last != [] {
        assert last[1..] == [];
      }
    }
  }

  predicate Increasing(rs: seq<Record>) { forall i, j :: 0 <= i < j < |rs| ==> rs[i] < rs[j] }

  lemma {:induction false} KeptIncreases(n: nat, dropped: set<Record>)
    ensures Increasing(Kept(n, dropped))
    ensures forall i :: 0 <= i < |Kept(n, dropped)| ==> Kept(n, dropped)[i] < n
    decreases n
  {
    if n > 0 {
      KeptIncreases(n - 1, dropped);
      var before, after := Kept(n - 1, dropped), Kept(n, dropped);
      assert forall i :: 0 <= i < |before| ==> after[i] == before[i];
    }
  }

  lemma IncreasingParts(a: seq<Record>, b: seq<Record>)
    requires Increasing(a + b)
    ensures forall r :: r in a ==> r !in b
  {
    forall r | r in a ensures r !in b {
      var i :| 0 <= i < |a| && a[i] == r;
      assert (a + b)[i] == r;
      forall j | 0 <= j < |b| ensures b[j] != r {
        assert (a + b)[|a| + j] == b[j];
      }
    }
  }

  lemma IncreasingPart(a: seq<Record>, b: seq<Record>, c: seq<Record>)
    requires Increasing(a + b + c)
    ensures Increasing(a + b) && Increasing(b + c)
  {
    var all := a + b + c;
    assert forall i :: 0 <= i < |a + b| ==> (a + b)[i] == all[i];
    assert forall i :: 0 <= i < |b + c| ==> (b + c)[i] == all[|a| + i];
  }

  /** Dropping a stretch of the kept records leaves the others in their order. */
  lemma DropStretch(n: nat, dropped: set<Record>, a: seq<Record>, b: seq<Record>, c: seq<Record>)
    requires a + b + c == Kept(n, dropped)
    ensures a + c == Kept(n, dropped + ToSet(b))
    ensures forall r :: r in ToSet(b) ==> r < n
  {
    var x := ToSet(b);
    hide Kept, Without;
    forall r | r in b ensures r < n {
      var i :| 0 <= i < |b| && b[i] == r;
      assert (a + b + c)[|a| + i] == r;
      KeptIncreases(n, dropped);
    }
    KeptWithout(n, dropped, x);
    KeptIncreases(n, dropped);
    IncreasingPart(a, b, c);
    IncreasingParts(a, b);
    IncreasingParts(b, c);
    WithoutSplit(a + b, c, x);
    WithoutSplit(a, b, x);
    WithoutAll(a, x);
    WithoutAll(b, x);
    WithoutAll(c, x);
  }

  /** One batch at a time is on the wire, and every record is delivered, under way, waiting or dropped. */
  ghost predicate Ordered(s: State) {
    && |s.flights| <= 1
    && (s.h.sending <==> s.flights != [])
    && s.delivered + Under(s) + s.h.pending == Kept(s.emitted, s.dropped)
    && (forall r :: r in s.dropped ==> r < s.emitted)
    && (forall i :: 0 <= i < |s.flights| ==> s.flights[i].batch != [])
    && (s.h.pending == [] && s.flights == [] && s.drains == 0 ==> !s.h.draining)
  }

  lemma StartOrdered(s: State, responses: bool)
    requires Ordered(s)
    ensures Ordered(StartNow(s, responses))
  {
    if s.closed {
      DropStretch(s.emitted, s.dropped, s.delivered + Under(s), s.h.pending, []);
    }
  }

  lemma EmitOrdered(s: State)
    requires Ordered(s)
    ensures Ordered(Step(s, Emit).value)
  {
    var s' := Step(s, Emit).value;
    assert s'.delivered + Under(s') + s'.h.pending == (s.delivered + Under(s) + s.h.pending) + [s.emitted];
  }

  lemma EmitLateOrdered(s: State)
    requires Ordered(s) && Step(s, EmitLate).Some?
    ensures Ordered(Step(s, EmitLate).value)
  {
    EmitOrdered(s);
    var s1 := Step(s, Emit).value;
    DropStretch(s1.emitted, s1.dropped, s1.delivered + Under(s1), s1.h.pending, []);
    assert s1.h.pending == s.h.pending + [s.emitted];
  }

  lemma DrainOrdered(s: State)
    requires Ordered(s) && Step(s, Drain).Some?
    ensures Ordered(Step(s, Drain).value)
  {
  }

  lemma AloneOrdered(s: State, fails: bool)
    requires Ordered(s) && s.flights != [] && s.flights[0].Alone?
    ensures Ordered(Step(s, if fails then AloneFails else AloneSent).value)
  {
    assert s.flights[1..] == [];
    if fails {
      DropStretch(s.emitted, s.dropped, s.delivered, s.flights[0].batch, s.h.pending);
    }
  }

  lemma AttachedOrdered(s: State, fails: bool)
    requires Ordered(s) && s.flights != [] && s.flights[0].Attached?
    ensures Ordered(Step(s, if fails then AttachedFails else AttachedSent).value)
  {
    assert s.flights[1..] == [];
    var batch := s.flights[0].batch;
    var s1 := if fails then s.(flights := []) else s.(flights := [], delivered := s.delivered + batch);
    var back := if fails then batch else [];
    var (h, again) := Resumed(s1.h, back);
    var s2 := s1.(h := h);
    assert s2.delivered + Under(s2) + s2.h.pending == s.delivered + Under(s) + s.h.pending;
    StartOrdered(s2, true);
  }

  lemma StepOrdered(s: State, e: Event)
    requires Ordered(s)
    ensures Step(s, e).Some? ==> Ordered(Step(s, e).value)
  {
    if Step(s, e).Some? {
      match e
      case TimerFires => OtherOrdered(s, e);
      case Detach(small) => OtherOrdered(s, e);
      case CloseConnection => OtherOrdered(s, e);
      case _ => FlightOrdered(s, e);
    }
  }

  lemma OtherOrdered(s: State, e: Event)
    requires Ordered(s) && Step(s, e).Some? && (e.TimerFires? || e.Detach? || e.CloseConnection?)
    ensures Ordered(Step(s, e).value)
  {
  }

  lemma FlightOrdered(s: State, e: Event)
    requires Ordered(s) && Step(s, e).Some? && !e.TimerFires? && !e.Detach? && !e.CloseConnection?
    ensures Ordered(Step(s, e).value)
  {
    hide Kept;
    match e
    case Emit => EmitOrdered(s);
    case EmitLate => EmitLateOrdered(s);
    case Start(responses) => StartOrdered(s.(starts := s.starts - 1), responses);
    case Drain => DrainOrdered(s);
    case AloneSent => AloneOrdered(s, false);
    case AloneFails => AloneOrdered(s, true);
    case AttachedSent => AttachedOrdered(s, false);
    case AttachedFails => AttachedOrdered(s, true);
    case Unpause(responses) => StartOrdered(s.(h := s.h.(paused := false)), responses);
  }

  function Run(s: State, events: seq<Event>): (r: Option<State>)
    decreases |events|
  {
    if events == [] then Some(s)
    else
      var s' := Step(s, events[0]);
      if s'.None? then None else Run(s'.value, events[1..])
  }

  lemma {:induction false} RunOrdered(s: State, events: seq<Event>)
    requires Ordered(s)
    ensures Run(s, events).Some? ==> Ordered(Run(s, events).value)
    decreases |events|
  {
    if events != [] {
      StepOrdered(s, events[0]);
      if Step(s, events[0]).Some? {
        RunOrdered(Step(s, events[0]).value, events[1..]);
      }
    }
  }

  /** Nothing is dropped as long as no send fails and neither connection nor loop closes. */
  lemma {:induction false} NothingLost(s: State, events: seq<Event>)
    requires !s.closed && s.dropped == {} && forall i :: 0 <= i < |events| ==> !MayLose(events[i])
    ensures Run(s, events).Some? ==> Run(s, events).value.dropped == {}
    decreases |events|
  {
    if events != [] {
      assert !MayLose(events[0]);
      var r := Step(s, events[0]);
      if r.Some? {
        NothingLost(r.value, events[1..]);
      }
    }
  }

  /**
   Log order: in every run at most one batch is on the wire, and delivered, travelling and waiting records
   are the emitted ones in their order, without those that were dropped; and records are dropped only by
   a failed send or after the connection or the loop closed.
   */
  lemma LogOrder(paused: bool, events: seq<Event>, s: State)
    requires Run(InitialState(paused), events) == Some(s)
    ensures |s.flights| <= 1
    ensures s.delivered + Under(s) + s.h.pending == Kept(s.emitted, s.dropped)
    ensures (forall i :: 0 <= i < |events| ==> !MayLose(events[i])) ==> s.dropped == {}
  {
    RunOrdered(InitialState(paused), events);
    if forall i :: 0 <= i < |events| ==> !MayLose(events[i]) {
      NothingLost(InitialState(paused), events);
    }
  }

  // ---------------------------------------------------------------- scheduling

  /** Something will still send the records that wait. */
  predicate Scheduled(s: State) {
    s.h.pending == [] || s.h.paused || s.flights != [] || s.starts > 0 || s.timers > 0 || s.drains > 0
  }

  /**
   A batch ends with nothing else scheduled while records wait behind it: in a response, when `draining`
   claims that somebody will send them; alone, when its send failed.
   */
  predicate Forgotten(s: State, e: Event) {
    && s.starts == 0 && s.timers == 0 && s.drains == 0 && !s.h.paused
    && match e
       case AttachedSent => s.h.draining && s.h.pending != []
       case AttachedFails => s.h.draining
       case AloneFails => s.h.pending != []
       case _ => false
  }

  /**
   Records that wait always have something that will send them, except exactly after the ends of a
   batch that `Forgotten` names.
   */
  lemma ScheduledExactlyUnless(s: State, e: Event)
    requires Ordered(s) && Scheduled(s) && Step(s, e).Some?
    ensures Scheduled(Step(s, e).value) <==> !Forgotten(s, e)
  {
    hide Ordered, Scheduled, Forgotten, Step;
    if e.AloneSent? || e.AloneFails? || e.AttachedSent? || e.AttachedFails? {
      EndsScheduled(s, e);
    } else {
      OthersSchedule(s, e);
    }
  }

  lemma EndsScheduled(s: State, e: Event)
    requires Ordered(s) && Scheduled(s) && Step(s, e).Some? && (e.AloneSent? || e.AloneFails? || e.AttachedSent? || e.AttachedFails?)
    ensures Scheduled(Step(s, e).value) <==> !Forgotten(s, e)
  {
    hide Kept;
    assert s.flights[1..] == [];
  }

  lemma OthersSchedule(s: State, e: Event)
    requires Ordered(s) && Scheduled(s) && Step(s, e).Some? && !(e.AloneSent? || e.AloneFails? || e.AttachedSent? || e.AttachedFails?)
    ensures Scheduled(Step(s, e).value) && !Forgotten(s, e)
  {
    hide Kept;
  }

  lemma RunFirst(s: State, e: Event, rest: seq<Event>, d: State)
    requires Step(s, e) == Some(d)
    ensures Run(s, [e] + rest) == Run(d, rest)
  {
    hide Step;
    assert ([e] + rest)[1..] == rest;
  }

  lemma RunOfOne(s: State, e: Event, d: State)
    requires Step(s, e) == Some(d)
    ensures Run(s, [e]) == Some(d)
  {
    hide Step;
    assert [e][1..] == [];
  }

  lemma RunOfFour(s: State, a: Event, b: Event, c: Event, e: Event, s1: State, s2: State, s3: State, s4: State)
    requires Step(s, a) == Some(s1) && Step(s1, b) == Some(s2) && Step(s2, c) == Some(s3) && Step(s3, e) == Some(s4)
    ensures Run(s, [a, b, c, e]) == Some(s4)
  {
    hide Step, Run;
    assert [a, b, c, e] == [a] + ([b] + ([c] + [e]));
    RunFirst(s, a, [b] + ([c] + [e]), s1);
    RunFirst(s1, b, [c] + [e], s2);
    RunFirst(s2, c, [e], s3);
    RunOfOne(s3, e, s4);
  }

  /** A record goes with a response: its batch is on the wire, and `draining` stays set. */
  lemma OneAttached() returns (s1: State, s2: State, s3: State)
    ensures Step(InitialState(false), Emit) == Some(s1) && Step(s1, Start(true)) == Some(s2) && Step(s2, Detach(true)) == Some(s3)
    ensures s3 == State(Handler([], true, true, false, false), 1, [Attached([0])], [], {}, 0, 0, 0, false)
  {
    assert [] + [0] == [0] && [] + [Attached([0])] == [Attached([0])];
    s1 := State(Handler([0], true, false, false, false), 1, [], [], {}, 1, 0, 0, false);
    s2 := State(Handler([0], true, false, true, false), 1, [], [], {}, 0, 1, 0, false);
    s3 := State(Handler([], true, true, false, false), 1, [Attached([0])], [], {}, 0, 0, 0, false);
  }

  /** A record goes alone, and another one is written meanwhile. */
  lemma OneAlone() returns (s1: State, s2: State, s3: State, s4: State)
    ensures Step(InitialState(false), Emit) == Some(s1) && Step(s1, Start(false)) == Some(s2)
    ensures Step(s2, Drain) == Some(s3) && Step(s3, Emit) == Some(s4)
    ensures s4 == State(Handler([1], true, true, false, false), 2, [Alone([0])], [], {}, 0, 0, 0, false)
  {
    assert [] + [0] == [0] && [] + [1] == [1] && [] + [Alone([0])] == [Alone([0])];
    s1 := State(Handler([0], true, false, false, false), 1, [], [], {}, 1, 0, 0, false);
    s2 := State(Handler([0], true, false, false, false), 1, [], [], {}, 0, 0, 1, false);
    s3 := State(Handler([], true, true, false, false), 1, [Alone([0])], [], {}, 0, 0, 0, false);
    s4 := State(Handler([1], true, true, false, false), 2, [Alone([0])], [], {}, 0, 0, 0, false);
  }

  /** The exception is reachable at all three ends. First: a record written while a response carries the ones before it. */
  lemma RecordForgotten()
    ensures exists s :: Run(InitialState(false), [Emit, Start(true), Detach(true), Emit, AttachedSent]) == Some(s) && !Scheduled(s)
  {
    var s1, s2, s3 := OneAttached();
    var s4 := s3.(h := Handler([1], true, true, false, false), emitted := 2);
    var s5 := State(Handler([1], true, false, false, false), 2, [], [0], {}, 0, 0, 0, false);
    assert [] + [1] == [1] && [] + [0] == [0] && [Attached([0])][1..] == [];
    assert Step(s3, Emit) == Some(s4) && Step(s4, AttachedSent) == Some(s5);
    hide Run, Step;
    var rest := [Start(true), Detach(true), Emit, AttachedSent];
    RunOfFour(s1, Start(true), Detach(true), Emit, AttachedSent, s2, s3, s4, s5);
    assert [Emit, Start(true), Detach(true), Emit, AttachedSent] == [Emit] + rest;
    RunFirst(InitialState(false), Emit, rest, s1);
  }

  /** Second: a response fails, and the records that it carried are restored. */
  lemma RestoredForgotten()
    ensures exists s :: Run(InitialState(false), [Emit, Start(true), Detach(true), AttachedFails]) == Some(s) && !Scheduled(s)
  {
    var s1, s2, s3 := OneAttached();
    var s4 := State(Handler([0], true, false, false, false), 1, [], [], {}, 0, 0, 0, false);
    assert [0] + [] == [0] && [Attached([0])][1..] == [];
    assert Step(s3, AttachedFails) == Some(s4);
    hide Run, Step;
    RunOfFour(InitialState(false), Emit, Start(true), Detach(true), AttachedFails, s1, s2, s3, s4);
  }

  /** Third: a send of records alone fails, and one was written meanwhile. */
  lemma FailedForgotten()
    ensures exists s :: Run(InitialState(false), [Emit, Start(false), Drain, Emit, AloneFails]) == Some(s) && !Scheduled(s)
  {
    var s1, s2, s3, s4 := OneAlone();
    var s5 := State(Handler([1], false, false, false, false), 2, [], [], ToSet([0]), 0, 0, 0, false);
    assert [Alone([0])][1..] == [] && {} + ToSet([0]) == ToSet([0]);
    assert Step(s4, AloneFails) == Some(s5);
    hide Run, Step, ToSet;
    var rest := [Start(false), Drain, Emit, AloneFails];
    RunOfFour(s1, Start(false), Drain, Emit, AloneFails, s2, s3, s4, s5);
    assert [Emit, Start(false), Drain, Emit, AloneFails] == [Emit] + rest;
    RunFirst(InitialState(false), Emit, rest, s1);
  }

  // ---------------------------------------------------------------- what becomes of forgotten records

  /** Records wait and nothing that is under way will send them. */
  predicate Unattended(s: State) {
    s.h.pending != [] && !s.h.paused && s.flights == [] && s.starts == 0 && s.timers == 0 && s.drains == 0
  }

  /** Not even a new record will: each of them believes that a send is scheduled. */
  predicate Stranded(s: State) { Unattended(s) && s.h.draining }

  /** After a response the records are stranded; after a failed send of their own the next record helps them. */
  lemma ForgottenMeans(s: State, e: Event)
    requires Ordered(s) && Forgotten(s, e) && Step(s, e).Some?
    ensures var d := Step(s, e).value; Unattended(d) && (Stranded(d) <==> !e.AloneFails?)
  {
    hide Kept;
    assert s.flights[1..] == [];
  }

  /** What can still send stranded records: a response that takes them, or the end of the pause. */
  predicate Rescues(e: Event) { e == Detach(true) || e.Unpause? }

  /**
   Over a whole run: as long as no response takes them, stranded records stay, whatever else happens, and
   so do all records written after them.
   */
  lemma {:induction false} StrandedStay(s: State, events: seq<Event>)
    requires Stranded(s) && forall i | 0 <= i < |events| :: !Rescues(events[i])
    ensures var d := Run(s, events);
            d.Some? ==> Stranded(d.value) && s.h.pending <= d.value.h.pending && d.value.delivered == s.delivered
                        && |d.value.h.pending| - |s.h.pending| == d.value.emitted - s.emitted
    decreases |events|
  {
    if events != [] {
      assert !Rescues(events[0]);
      var d := Step(s, events[0]);
      if d.Some? { StrandedStay(d.value, events[1..]); }
    }
  }

  /** The next response that may take records takes all of them. */
  lemma ResponseRescues(s: State)
    requires Stranded(s) && !s.h.sending
    ensures var d := Step(s, Detach(true)).value; d.h.pending == [] && d.flights == [Attached(s.h.pending)]
  {
  }

  /** After a failed send the next record schedules one for all. */
  lemma RecordRescues(s: State)
    requires Unattended(s) && !s.h.draining
    ensures var d := Step(s, Emit).value; d.starts == 1 && d.h.pending == s.h.pending + [s.emitted]
  {
  }
}
