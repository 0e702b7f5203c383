/**
 The parts of a stream that work on their own state: the permission a producer spends, and the
 payload that carries a batch of items, each behind its length.
 */
module StreamParts {
  import opened Prelude
  import opened Streams

  // ---------------------------------------------------------------- StreamCredit

  datatype Spent = Granted | Stopped | Waiting

  class StreamCredit {
    const limits: Limits
    var bytesInFlight: nat
    var itemsInFlight: nat
    var released: bool
    var ready: bool

    ghost function View(): (c: Credit)
      reads this
    {
      Credit(bytesInFlight, itemsInFlight, released)
    }

    constructor (limits: Limits)
      ensures View() == Credit(0, 0, false) && ready && this.limits == limits
    {
      this.limits := limits;
      bytesInFlight, itemsInFlight, released, ready := 0, 0, false, true;
    }

    /** One turn of `spend`: it pays, gives up, or clears the event and waits for the next change. */
    method Spend(size: nat) returns (r: Spent)
      modifies this
      ensures r.Stopped? <==> old(released)
      ensures r.Granted? <==> !old(released) && Streams.Fits(limits, old(View()), size)
      ensures View() == if r.Granted?
                        then old(View()).(bytes := old(bytesInFlight) + size, items := old(itemsInFlight) + 1)
                        else old(View())
      ensures ready == (old(ready) && !r.Waiting?)
    {
      if released {
        return Stopped;
      }
      var fits := itemsInFlight < limits.backlog && (bytesInFlight == 0 || bytesInFlight + size <= limits.window);
      if !fits {
        ready := false;
        return Waiting;
      }
      bytesInFlight := bytesInFlight + size;
      itemsInFlight := itemsInFlight + 1;
      r := Granted;
    }

    /** A refused permission changes nothing; an accepted one wakes the sender. */
    method GiveBack(size: int, items: int) returns (ok: bool)
      modifies this
      ensures var c := Streams.GiveBack(old(View()), size, items);
              ok == c.Some? && View() == (if ok then c.value else old(View()))
      ensures ready == (old(ready) || ok)
    {
      if size < 0 || items < 0 || size > bytesInFlight || items > itemsInFlight {
        return false;
      }
      bytesInFlight := bytesInFlight - size;
      itemsInFlight := itemsInFlight - items;
      ready := true;
      ok := true;
    }

    method Release()
      modifies this
      ensures View() == old(View()).(released := true) && ready
    {
      released := true;
      ready := true;
    }
  }

  // ---------------------------------------------------------------- batch and split

  const LIMIT: nat := 0x1_0000_0000

  /** The big-endian 32-bit length in front of an item. */
  function Header(n: nat): (h: Data)
    requires n < LIMIT
    ensures |h| == HEADER && Length(h) == n
  {
    var upper := n / 256;
    var high := upper / 256;
    [(high / 256) as byte, (high % 256) as byte, (upper % 256) as byte, (n % 256) as byte]
  }

  function Length(h: Data): (n: nat)
    requires |h| == HEADER
    ensures n < LIMIT
  {
    ((h[0] as int * 256 + h[1] as int) * 256 + h[2] as int) * 256 + h[3] as int
  }

  /** The bytes of the length, the most significant first. */
  lemma HeaderIsBigEndian(n: nat)
    requires n < LIMIT
    ensures var h := Header(n);
            && h[0] as int == n / 0x100_0000 && h[1] as int == n / 0x1_0000 % 0x100
            && h[2] as int == n / 0x100 % 0x100 && h[3] as int == n % 0x100
  {
    assert n / 256 / 256 == n / 0x1_0000 && n / 256 / 256 / 256 == n / 0x100_0000;
  }

  lemma LastDigit(q: nat, d: nat)
    requires d < 256
    ensures (q * 256 + d) / 256 == q && (q * 256 + d) % 256 == d
  {
  }

  lemma HeaderOfLength(h: Data)
    requires |h| == HEADER
    ensures Header(Length(h)) == h
  {
    var high := h[0] as int * 256 + h[1] as int;
    var upper := high * 256 + h[2] as int;
    LastDigit(high, h[2] as int);
    LastDigit(upper, h[3] as int);
    LastDigit(h[0] as int, h[1] as int);
  }

  predicate Sized(items: seq<Item>) { forall i :: 0 <= i < |items| ==> |items[i]| < LIMIT }

  /** The payload of a batch. */
  function Joined(items: seq<Item>): (payload: Data)
    requires Sized(items)
  {
    if items == [] then [] else Header(|items[0]|) + items[0] + Joined(items[1..])
  }

  /** The items a payload describes, or None when its lengths do not fit it. */
  function Parsed(payload: Data): (items: Option<seq<Item>>)
    decreases |payload|
  {
    if payload == [] then Some([])
    else if |payload| < HEADER then None
    else
      var end := HEADER + Length(payload[..HEADER]);
      if |payload| < end then None
      else
        var rest := Parsed(payload[end..]);
        if rest.None? then None else Some([payload[HEADER..end]] + rest.value)
  }

  /** Splitting undoes joining. */
  lemma {:induction false} ParsedJoined(items: seq<Item>)
    requires Sized(items)
    ensures Parsed(Joined(items)) == Some(items)
    decreases |items|
  {
    if items != [] {
      var payload := Joined(items);
      var end := HEADER + |items[0]|;
      assert payload[..HEADER] == Header(|items[0]|);
      assert payload[HEADER..end] == items[0];
      assert payload[end..] == Joined(items[1..]);
      ParsedJoined(items[1..]);
      assert items == [items[0]] + items[1..];
    }
  }

  /** Whatever splits is the batch of its own items, so no two batches share a payload. */
  lemma {:induction false} JoinedParsed(payload: Data)
    requires Parsed(payload).Some?
    ensures Sized(Parsed(payload).value) && Joined(Parsed(payload).value) == payload
    decreases |payload|
  {
    if payload != [] {
      var end := HEADER + Length(payload[..HEADER]);
      JoinedParsed(payload[end..]);
      HeaderOfLength(payload[..HEADER]);
      var items := Parsed(payload).value;
      assert items[1..] == Parsed(payload[end..]).value;
      assert payload == payload[..HEADER] + payload[HEADER..end] + payload[end..];
    }
  }

  /** The consumer gives back exactly what the producer paid: the payload is as long as its items cost. */
  lemma {:induction false} JoinedLength(items: seq<Item>)
    requires Sized(items)
    ensures |Joined(items)| == Cost(items)
    decreases |items|
  {
    if items != [] {
      JoinedLength(items[1..]);
      CostHead(items, |items|);
    }
  }

  lemma {:induction false} CostHead(items: seq<Item>, k: nat)
    requires 0 < k <= |items|
    ensures CostTo(items, k) == |items[0]| + HEADER + CostTo(items[1..], k - 1)
    decreases k
  {
    if k > 1 {
      CostHead(items, k - 1);
    }
  }

  lemma {:induction false} JoinedAppend(items: seq<Item>, item: Item)
    requires Sized(items + [item])
    ensures Sized(items) && |item| < LIMIT && Joined(items + [item]) == Joined(items) + (Header(|item|) + item)
    decreases |items|
  {
    hide Header;
    assert (items + [item])[|items|] == item;
    assert forall i :: 0 <= i < |items| ==> (items + [item])[i] == items[i];
    if items != [] {
      assert (items + [item])[0] == items[0];
      assert (items + [item])[1..] == items[1..] + [item];
      JoinedAppend(items[1..], item);
    } else {
      assert items + [item] == [item] && [item][1..] == [];
    }
  }

  method Batch(items: seq<Item>) returns (payload: Data)
    requires Sized(items)
    ensures payload == Joined(items)
  {
    payload := [];
    for k := 0 to |items|
      invariant payload == Joined(items[..k])
    {
      assert items[..k + 1] == items[..k] + [items[k]];
      JoinedAppend(items[..k], items[k]);
      payload := payload + (Header(|items[k]|) + items[k]);
    }
    assert items[..|items|] == items;
  }

  /** Reading has come as far as `position` with these items. */
  ghost predicate Reading(payload: Data, items: seq<Item>, position: nat) {
    && position <= |payload|
    && Parsed(payload) == Prepended(items, Parsed(payload[position..]))
  }

  function Prepended(items: seq<Item>, rest: Option<seq<Item>>): (r: Option<seq<Item>>) {
    if rest.None? then None else Some(items + rest.value)
  }

  method Split(payload: Data) returns (r: Option<seq<Item>>)
    ensures r == Parsed(payload)
  {
    hide Parsed, Length, Reading;
    var items: seq<Item> := [];
    var position := 0;
    ReadingStarts(payload);
    while position < |payload|
      invariant position <= |payload| && Reading(payload, items, position)
    {
      ReadingOn(payload, items, position);
      if position + HEADER > |payload| {
        return None;
      }
      var length := Length(payload[position..position + HEADER]);
      position := position + HEADER;
      if position + length > |payload| {
        return None;
      }
      items := items + [payload[position..position + length]];
      position := position + length;
    }
    ReadingEnds(payload, items);
    r := Some(items);
  }

  lemma ReadingStarts(payload: Data)
    ensures Reading(payload, [], 0)
  {
    hide Parsed;
    assert payload[0..] == payload;
    if Parsed(payload).Some? { assert [] + Parsed(payload).value == Parsed(payload).value; }
  }

  lemma ReadingEnds(payload: Data, items: seq<Item>)
    requires Reading(payload, items, |payload|)
    ensures Parsed(payload) == Some(items)
  {
    hide Parsed;
    assert payload[|payload|..] == [] && items + [] == items;
    NothingLeft();
  }

  /** One turn of the loop: it fails where the payload is cut short, or has read one more item. */
  lemma ReadingOn(payload: Data, items: seq<Item>, position: nat)
    requires position < |payload| && Reading(payload, items, position)
    ensures if position + HEADER > |payload| then Parsed(payload).None?
            else
              var start := position + HEADER;
              var end := start + Length(payload[position..start]);
              if end > |payload| then Parsed(payload).None? else Reading(payload, items + [payload[start..end]], end)
  {
    hide Parsed, Length;
    ParsedStep(payload, position);
    if position + HEADER <= |payload| {
      var start := position + HEADER;
      var end := start + Length(payload[position..start]);
      if end <= |payload| { PrependedTwice(items, payload[start..end], Parsed(payload[end..])); }
    }
  }

  lemma PrependedTwice(items: seq<Item>, item: Item, rest: Option<seq<Item>>)
    ensures Prepended(items, Prepended([item], rest)) == Prepended(items + [item], rest)
  {
    if rest.Some? { assert items + ([item] + rest.value) == items + [item] + rest.value; }
  }

  lemma NothingLeft()
    ensures Parsed([]) == Some([])
  {
  }

  lemma ParsedStep(payload: Data, position: nat)
    requires position < |payload|
    ensures var rest := Parsed(payload[position..]);
            if position + HEADER > |payload| then rest.None?
            else
              var start := position + HEADER;
              var end := start + Length(payload[position..start]);
              if end > |payload| then rest.None? else rest == Prepended([payload[start..end]], Parsed(payload[end..]))
  {
    hide Length;
    var rest := payload[position..];
    if position + HEADER <= |payload| {
      assert rest[..HEADER] == payload[position..position + HEADER];
      var start, length := position + HEADER, Length(rest[..HEADER]);
      if start + length <= |payload| {
        assert rest[HEADER..HEADER + length] == payload[start..start + length];
        assert rest[HEADER + length..] == payload[start + length..];
      }
    }
  }
}
