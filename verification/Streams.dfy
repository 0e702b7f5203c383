/**
 One streaming response of `rmote/protocol.py`: a producer that pays for every item, a writer that
 batches what gathered, a consumer with a bounded queue, and permission that travels back lazily.
 Each event is the code between two awaits; every interleaving of events is a run.
 */
module Streams {
  import opened Prelude

  /** A pickled item. */
  type Item = Data

  const HEADER: nat := 4

  datatype Limits = Limits(window: nat, backlog: nat, maxItem: nat)
  {
    predicate Valid() { 0 < window <= maxItem && 0 < backlog }
  }

  /** What the first `k` items cost: their bytes and one header each. */
  function CostTo(items: seq<Item>, k: nat): (n: nat)
    requires k <= |items|
  {
    if k == 0 then 0 else CostTo(items, k - 1) + |items[k - 1]| + HEADER
  }

  function Cost(items: seq<Item>): (n: nat) { CostTo(items, |items|) }

  // ---------------------------------------------------------------- permission

  datatype Credit = Credit(bytes: nat, items: nat, released: bool)

  predicate Fits(l: Limits, c: Credit, size: nat) {
    c.items < l.backlog && (c.bytes == 0 || c.bytes + size <= l.window)
  }

  /** `give_back`: None is the ValueError of a peer that returns more than is in flight. */
  function GiveBack(c: Credit, size: int, items: int): (r: Option<Credit>) {
    if size < 0 || items < 0 || size > c.bytes || items > c.items then None
    else Some(c.(bytes := c.bytes - size, items := c.items - items))
  }

  // ---------------------------------------------------------------- the two sides and the wire

  datatype Message = Packet(items: seq<Item>, size: nat) | End | Failure

  datatype Permission = Permit(bytes: nat, items: nat) | Gone

  datatype Ending = Normal | Error | Cancelled

  datatype Phase = Running | Draining(how: Ending) | Ended

  datatype Mode = Reading | Completed | Broken | Left

  datatype State = State(
    // producer
    phase: Phase, offered: Option<Item>, exhausted: bool, credit: Credit, frames: seq<Item>,
    produced: seq<Item>,  // every item that was paid for, in order
    // wire
    wire: seq<Message>, back: seq<Permission>,
    // consumer
    mode: Mode, queue: seq<Message>, buffered: nat, overBudget: bool,
    current: Option<Message>, taken: nat, owedBytes: nat, owedItems: nat,
    yielded: seq<Item>,   // every item the caller received, in order
    // how many items were put on the wire, reached the queue, and are covered by permissions sent back
    flushed: nat, arrived: nat, permitted: nat
  )

  const Initial := State(Running, None, false, Credit(0, 0, false), [], [], [], [],
                         Reading, [], 0, false, None, 0, 0, 0, [], 0, 0, 0)

  datatype Event =
    | Offer(item: Item)    // the method yields an item, which is pickled
    | Pay                  // `spend` succeeds and the item reaches the buffer
    | Exhaust              // the method has no more items
    | Stop                 // `spend` reports that the sender must stop
    | Flush(envelope: nat) // the writer sends what gathered; a source manifest adds bytes
    | Close                // the ordinary response, or the failure, ends the stream
    | Deliver              // `handle_stream_item` and the handlers of the terminal packet
    | Take                 // `queue.get` returns
    | Yield                // one item reaches the caller
    | Settle               // the batch is consumed; permission may go back
    | Leave                // the caller closes the iterator
    | Return               // `handle_stream_credit`

  function Offered(l: Limits, s: State, item: Item): (r: Option<State>) {
    if s.phase != Running || s.offered.Some? then None
    else if |item| > l.maxItem then Some(s.(phase := Draining(Error)))
    else Some(s.(offered := Some(item)))
  }

  function PayFor(l: Limits, s: State): (r: Option<State>) {
    if s.phase != Running || s.offered.None? || s.credit.released then None
    else
      var size := |s.offered.value| + HEADER;
      if !Fits(l, s.credit, size) then None
      else Some(s.(offered := None,
                   credit := s.credit.(bytes := s.credit.bytes + size, items := s.credit.items + 1),
                   frames := s.frames + [s.offered.value],
                   produced := s.produced + [s.offered.value]))
  }

  function Flushed(s: State, envelope: nat): (r: Option<State>) {
    if s.frames == [] then None
    else Some(s.(wire := s.wire + [Packet(s.frames, Cost(s.frames) + envelope)], frames := [],
                 flushed := s.flushed + |s.frames|))
  }

  function Closed(s: State): (r: Option<State>) {
    if !s.phase.Draining? || s.frames != [] then None
    else
      var last := match s.phase.how case Normal => [End] case Error => [Failure] case Cancelled => [];
      Some(s.(phase := Ended, wire := s.wire + last))
  }

  function Taken(s: State): (r: Option<State>) {
    if s.mode != Reading || s.current.Some? || s.queue == [] then None
    else
      match s.queue[0]
      case Packet(items, size) =>
        Some(s.(queue := s.queue[1..], buffered := Max(0, s.buffered - size), current := Some(s.queue[0]), taken := 0))
      case End => Some(s.(queue := s.queue[1..], mode := Completed))
      case Failure => Some(s.(queue := s.queue[1..], mode := Broken))
  }

  function ItemsOf(current: Option<Message>): (items: seq<Item>) {
    if current.Some? && current.value.Packet? then current.value.items else []
  }

  function Yielded(s: State): (r: Option<State>) {
    if s.mode != Reading || s.taken >= |ItemsOf(s.current)| then None
    else Some(s.(yielded := s.yielded + [ItemsOf(s.current)[s.taken]], taken := s.taken + 1))
  }

  function SettleUp(l: Limits, s: State): (r: Option<State>) {
    if s.mode != Reading || s.current.None? || !s.current.value.Packet? || s.taken < |ItemsOf(s.current)| then None
    else
      var bytes, items := s.owedBytes + s.current.value.size, s.owedItems + |ItemsOf(s.current)|;
      if bytes * 2 >= l.window || items * 2 >= l.backlog
      then Some(s.(current := None, taken := 0, owedBytes := 0, owedItems := 0,
                   back := s.back + [Permit(bytes, items)], permitted := s.permitted + items))
      else Some(s.(current := None, taken := 0, owedBytes := bytes, owedItems := items))
  }

  /** One event, or None when it is not possible in this state. */
  function Step(l: Limits, s: State, e: Event): (r: Option<State>) {
    match e
    case Offer(item) => Offered(l, s, item)
    case Pay => PayFor(l, s)
    case Exhaust =>
      if s.phase != Running || s.offered.Some? then None
      else Some(s.(phase := Draining(Normal), exhausted := true))
    case Stop =>
      if s.phase != Running || s.offered.None? || !s.credit.released then None
      else Some(s.(phase := Draining(Normal), offered := None))
    case Flush(envelope) => Flushed(s, envelope)
    case Close => Closed(s)
    case Deliver => if s.wire == [] then None else Some(Arrive(l, s.(wire := s.wire[1..]), s.wire[0]))
    case Take => Taken(s)
    case Yield => Yielded(s)
    case Settle => SettleUp(l, s)
    case Leave => if s.mode != Reading then None else Some(s.(mode := Left, back := s.back + [Gone]))
    case Return => if s.back == [] then None else Some(Permitted(s.(back := s.back[1..]), s.back[0]))
  }

  /** A packet reaches the consumer's side. */
  function Arrive(l: Limits, s: State, m: Message): (r: State) {
    if s.mode != Reading then s
    else if m.Packet? then
      if s.overBudget then s
      else
        var buffered := s.buffered + m.size;
        var fits := buffered <= l.window || s.queue == [];
        if |s.queue| >= l.backlog || m.size > l.maxItem || !fits
        then s.(overBudget := true, queue := s.queue + [Failure])
        else s.(buffered := buffered, queue := s.queue + [m], arrived := s.arrived + |m.items|)
    else if |s.queue| < l.backlog + 1 then s.(queue := s.queue + [m])
    else s
  }

  /** A permission reaches the producer's side; a finished producer has no credit any more. */
  function Permitted(s: State, p: Permission): (r: State) {
    if s.phase != Running then s
    else if p.Gone? then s.(credit := s.credit.(released := true), phase := Draining(Cancelled), offered := None)
    else
      var c := GiveBack(s.credit, p.bytes, p.items);
      s.(credit := if c.Some? then c.value else s.credit.(released := true))
  }

  /** The state after a run, or None when an event was not possible. */
  function Run(l: Limits, s: State, events: seq<Event>): (r: Option<State>)
    decreases |events|
  {
    if events == [] then Some(s)
    else
      var s' := Step(l, s, events[0]);
      if s'.None? then None else Run(l, s'.value, events[1..])
  }

  // ---------------------------------------------------------------- conforming runs

  /** No source manifest is wrapped around a packet, and every item leaves room for its header. */
  predicate Conforming(l: Limits, e: Event) {
    && (e.Flush? ==> e.envelope == 0)
    && (e.Offer? ==> |e.item| + HEADER <= l.maxItem || |e.item| > l.maxItem)
  }

  predicate ConformingRun(l: Limits, events: seq<Event>) {
    forall i :: 0 <= i < |events| ==> Conforming(l, events[i])
  }
}
