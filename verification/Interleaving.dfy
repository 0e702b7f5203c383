/**
 Any number of packets under way at once in one direction: their frames reach the wire in any order,
 through one codec, and the receiver gets exactly the payloads that were sent, in the order of their
 final frames. Packets that are open at the same time must carry different ids.
 */
module Interleaving {
  import opened Prelude
  import opened Framing
  import opened Reception

  /** A packet being written: its bytes up to `offset` are on the wire. */
  datatype Outgoing = Outgoing(payload: Data, flags: Flags, offset: nat)

  datatype Sender = Sender(open: map<nat, Outgoing>, history: seq<Data>, completed: seq<Packet>, wire: seq<Frame>)

  const NewSender := Sender(map[], [], [], [])

  datatype Event =
    | Open(id: nat, payload: Data, flags: Flags)
    | Write(id: nat, packed: bool)   // one turn of `send_payload`; the codec takes the body or passes it by

  function Chunk(l: Limits, o: Outgoing): (chunk: Data)
    requires o.offset <= |o.payload|
  {
    o.payload[o.offset..Min(o.offset + l.fragmentSize, |o.payload|)]
  }

  predicate Final(l: Limits, o: Outgoing) { o.offset + l.fragmentSize >= |o.payload| }

  predicate Plain(flags: Flags) { !flags.compressed && !flags.fragment }

  function FrameOf(c: Codec, l: Limits, s: Sender, id: nat, packed: bool): (f: Frame)
    requires id in s.open && s.open[id].offset <= |s.open[id].payload|
  {
    var o := s.open[id];
    Frame(if packed then c.pack(s.history, Chunk(l, o)) else Chunk(l, o),
          o.flags.(compressed := packed, fragment := !Final(l, o)), id)
  }

  /** Offsets of the packets that are partly on the wire. */
  function Started(open: map<nat, Outgoing>): (m: map<nat, nat>) {
    map id | id in open && open[id].offset > 0 :: open[id].offset
  }

  /** The limits of the receiver leave room for one more fragment. */
  ghost predicate Room(l: Limits, s: Sender, id: nat)
    requires id in s.open && s.open[id].offset <= |s.open[id].payload|
  {
    && (id in Started(s.open) || |Started(s.open)| < l.maxPackets)
    && Sum(Started(s.open)) + |Chunk(l, s.open[id])| <= l.maxBytes
  }

  ghost predicate Enabled(l: Limits, s: Sender, e: Event) {
    match e
    case Open(id, payload, flags) => id !in s.open && Plain(flags)
    case Write(id, _) =>
      && id in s.open && s.open[id].offset <= |s.open[id].payload|
      && (Final(l, s.open[id]) || Room(l, s, id))
  }

  ghost function Sent(c: Codec, l: Limits, s: Sender, e: Event): (s': Sender)
    requires Enabled(l, s, e)
  {
    match e
    case Open(id, payload, flags) => s.(open := s.open[id := Outgoing(payload, flags, 0)])
    case Write(id, packed) =>
      var o := s.open[id];
      s.(wire := s.wire + [FrameOf(c, l, s, id, packed)],
         history := if packed then s.history + [Chunk(l, o)] else s.history,
         open := if Final(l, o) then s.open - {id} else Advanced(l, s.open, id),
         completed := if Final(l, o) then s.completed + [Packet(o.payload, o.flags, id)] else s.completed)
  }

  /** The packets a receiver gets out of a sequence of frames, and the state it is left in. */
  datatype Collected = Collected(d: Direction, packets: seq<Packet>, ok: bool)

  function Collect(c: Codec, l: Limits, d: Direction, frames: seq<Frame>): (r: Collected)
    decreases |frames|
  {
    if frames == [] then Collected(d, [], true)
    else
      var before := Collect(c, l, d, frames[..|frames| - 1]);
      var f := frames[|frames| - 1];
      if !before.ok || !Acceptable(l, before.d.history.Some?, f) then before.(ok := false)
      else
        match Handle(c, l, before.d, f)
        case Stored(d') => before.(d := d')
        case Complete(d', packet) => before.(d := d', packets := before.packets + [packet])
        case Failed(_) => before.(ok := false)
  }

  /** The receiver holds exactly what is partly on the wire. */
  ghost predicate Linked(l: Limits, s: Sender, d: Direction) {
    && d.history == Some(s.history)
    && Consistent(l, d.fragments)
    && AllUnder(s.open)
    && Parts(s.open, d.fragments.buffers)
  }

  ghost predicate Parts(open: map<nat, Outgoing>, buffers: map<nat, seq<Data>>)
    requires AllUnder(open)
  {
    && buffers.Keys == Started(open).Keys
    && (forall id :: id in buffers ==> Concat(buffers[id]) == open[id].payload[..open[id].offset])
  }

  predicate AllUnder(open: map<nat, Outgoing>) { forall id :: id in open ==> Under(open[id]) }

  predicate Under(o: Outgoing) {
    Plain(o.flags) && o.offset <= |o.payload| && (o.offset > 0 ==> o.offset < |o.payload|)
  }

  /** A codec that is lossless and whose overhead stays within what the receiver allows. */
  ghost predicate Sound(c: Codec) {
    c.Lossless() && forall history, body :: |c.pack(history, body)| <= |body| + |body| / 4096 + |body| / 16384 + 32
  }

  lemma SizesAreOffsets(l: Limits, s: Sender, d: Direction)
    requires Linked(l, s, d)
    ensures d.fragments.sizes == Started(s.open)
    ensures d.fragments.total == Sum(Started(s.open)) && |d.fragments.buffers| == |Started(s.open)|
  {
    forall id | id in Started(s.open)
      ensures d.fragments.sizes[id] == Started(s.open)[id]
    {
      assert id in d.fragments.buffers;
    }
    assert |d.fragments.buffers| == |d.fragments.buffers.Keys| == |Started(s.open).Keys|;
  }

  lemma FrameAccepted(c: Codec, l: Limits, s: Sender, id: nat, packed: bool)
    requires Sound(c) && id in s.open && Under(s.open[id])
    ensures Acceptable(l, true, FrameOf(c, l, s, id, packed))
  {
    var chunk := Chunk(l, s.open[id]);
    assert |chunk| <= l.fragmentSize;
    assert |c.pack(s.history, chunk)| <= |chunk| + |chunk| / 4096 + |chunk| / 16384 + 32;
  }

  /** The frame of a `Write` reaches the receiver as the plain chunk, whether it was packed or not. */
  lemma HandleUnpacks(c: Codec, l: Limits, s: Sender, d: Direction, id: nat, packed: bool)
    requires Sound(c) && Linked(l, s, d) && id in s.open && Under(s.open[id])
    ensures var o := s.open[id];
            Handle(c, l, d, FrameOf(c, l, s, id, packed))
            == Deliver(c, l, d.(history := Some(if packed then s.history + [Chunk(l, o)] else s.history)),
                       Frame(Chunk(l, o), o.flags.(fragment := !Final(l, o)), id))
  {
    var chunk := Chunk(l, s.open[id]);
    assert c.unpack(s.history, c.pack(s.history, chunk)) == Some(chunk);
  }

  lemma BegunPart(open: map<nat, Outgoing>, f: Fragments, id: nat)
    requires AllUnder(open) && Parts(open, f.buffers) && id in open
    ensures Concat(Begin(f, id).buffers[id]) == open[id].payload[..open[id].offset]
    ensures Begin(f, id).buffers.Keys == Started(open).Keys + {id}
  {
    if id !in f.buffers {
      assert id !in Started(open);
    }
  }

  function Advanced(l: Limits, open: map<nat, Outgoing>, id: nat): (r: map<nat, Outgoing>)
    requires id in open && open[id].offset <= |open[id].payload|
  {
    open[id := open[id].(offset := open[id].offset + |Chunk(l, open[id])|)]
  }

  lemma AdvancedUnder(l: Limits, open: map<nat, Outgoing>, id: nat)
    requires l.Valid() && AllUnder(open) && id in open && !Final(l, open[id])
    ensures AllUnder(Advanced(l, open, id))
    ensures Started(Advanced(l, open, id)).Keys == Started(open).Keys + {id}
    ensures open[id].payload[..open[id].offset] + Chunk(l, open[id])
         == open[id].payload[..Advanced(l, open, id)[id].offset]
  {
  }

  lemma PartsGrow(l: Limits, open: map<nat, Outgoing>, f: Fragments, id: nat)
    requires l.Valid() && AllUnder(open) && Parts(open, f.buffers) && id in open && !Final(l, open[id])
    ensures var open' := Advanced(l, open, id);
            AllUnder(open') && Parts(open', Grow(Begin(f, id), id, Chunk(l, open[id])).buffers)
  {
    hide Concat, Final, Chunk, Started;
    var chunk := Chunk(l, open[id]);
    var open' := Advanced(l, open, id);
    var buffers := Grow(Begin(f, id), id, chunk).buffers;
    AdvancedUnder(l, open, id);
    BegunPart(open, f, id);
    ConcatAppend(Begin(f, id).buffers[id], chunk);
  }

  lemma WriteFragment(c: Codec, l: Limits, s: Sender, d: Direction, id: nat, packed: bool)
    requires Sound(c) && l.Valid() && Linked(l, s, d)
    requires Enabled(l, s, Write(id, packed)) && !Final(l, s.open[id])
    ensures var h := Handle(c, l, d, FrameOf(c, l, s, id, packed));
            h.Stored? && Linked(l, Sent(c, l, s, Write(id, packed)), h.d)
  {
    hide Consistent, Sum, Concat, Parts;
    HandleUnpacks(c, l, s, d, id, packed);
    SizesAreOffsets(l, s, d);
    RoomInBuffer(l, s, d, id);
    StoreConsistent(l, d.fragments, id, Chunk(l, s.open[id]));
    PartsGrow(l, s.open, d.fragments, id);
  }

  /** Room by the sender's count is room by the receiver's. */
  lemma RoomInBuffer(l: Limits, s: Sender, d: Direction, id: nat)
    requires Linked(l, s, d) && id in s.open && Room(l, s, id)
    ensures id in d.fragments.buffers || |d.fragments.buffers| < l.maxPackets
    ensures d.fragments.total + |Chunk(l, s.open[id])| <= l.maxBytes
  {
    SizesAreOffsets(l, s, d);
  }

  lemma PartsTake(l: Limits, open: map<nat, Outgoing>, f: Fragments, id: nat)
    requires AllUnder(open) && Parts(open, f.buffers) && id in open && Final(l, open[id])
    ensures AllUnder(open - {id}) && Parts(open - {id}, Take(f, id, Chunk(l, open[id])).0.buffers)
    ensures Take(f, id, Chunk(l, open[id])).1 == open[id].payload
  {
    var o := open[id];
    var chunk := Chunk(l, o);
    assert o.payload[..o.offset] + chunk == o.payload;
    assert Started(open - {id}).Keys == Started(open).Keys - {id};
    if id in f.buffers {
      ConcatAppend(f.buffers[id], chunk);
    } else {
      assert id !in Started(open) && o.offset == 0;
    }
  }

  lemma WriteLast(c: Codec, l: Limits, s: Sender, d: Direction, id: nat, packed: bool)
    requires Sound(c) && l.Valid() && Linked(l, s, d)
    requires Enabled(l, s, Write(id, packed)) && Final(l, s.open[id])
    ensures var h := Handle(c, l, d, FrameOf(c, l, s, id, packed));
            && h.Complete? && h.packet == Packet(s.open[id].payload, s.open[id].flags, id)
            && Linked(l, Sent(c, l, s, Write(id, packed)), h.d)
  {
    hide Consistent, Sum, Concat, Parts;
    HandleUnpacks(c, l, s, d, id, packed);
    TakeConsistent(l, d.fragments, id, Chunk(l, s.open[id]));
    PartsTake(l, s.open, d.fragments, id);
    assert s.open[id].flags.(fragment := false) == s.open[id].flags;
  }

  /** A run of the sender: packets are opened and their frames written in any order. */
  ghost predicate IsRun(c: Codec, l: Limits, events: seq<Event>, s: Sender)
    decreases |events|
  {
    if events == [] then s == NewSender
    else
      var last := events[|events| - 1];
      exists before ::
        IsRun(c, l, events[..|events| - 1], before) && Enabled(l, before, last) && s == Sent(c, l, before, last)
  }

  /**
   Interleaving safety: for every run, the receiver accepts every frame, returns exactly the packets whose
   final frame was written, in that order and with their payloads, and keeps exactly the parts of the others.
   */
  lemma {:induction false} Reassembled(c: Codec, l: Limits, events: seq<Event>, s: Sender)
    requires Sound(c) && l.Valid() && IsRun(c, l, events, s)
    ensures var r := Collect(c, l, Direction(Some([]), NoFragments), s.wire);
            r.ok && r.packets == s.completed && Linked(l, s, r.d)
    decreases |events|
  {
    if events != [] {
      var last := events[|events| - 1];
      var before :| IsRun(c, l, events[..|events| - 1], before) && Enabled(l, before, last) && s == Sent(c, l, before, last);
      Reassembled(c, l, events[..|events| - 1], before);
      var d := Collect(c, l, Direction(Some([]), NoFragments), before.wire).d;
      if last.Open? {
        OpenLinked(l, before, d, last);
      } else {
        var f := FrameOf(c, l, before, last.id, last.packed);
        assert s.wire[..|s.wire| - 1] == before.wire;
        FrameAccepted(c, l, before, last.id, last.packed);
        if Final(l, before.open[last.id]) {
          WriteLast(c, l, before, d, last.id, last.packed);
        } else {
          WriteFragment(c, l, before, d, last.id, last.packed);
        }
      }
    }
  }

  // ---------------------------------------------------------------- which packets those are

  /** The packets that were opened under an id, in order. */
  function OpensOf(events: seq<Event>, id: nat): (ps: seq<Packet>) {
    if events == [] then []
    else
      var e := events[|events| - 1];
      OpensOf(events[..|events| - 1], id) + if e.Open? && e.id == id then [Packet(e.payload, e.flags, id)] else []
  }

  function PacketsUnder(packets: seq<Packet>, id: nat): (ps: seq<Packet>) {
    if packets == [] then []
    else
      var q := packets[|packets| - 1];
      PacketsUnder(packets[..|packets| - 1], id) + if q.id == id then [q] else []
  }

  function OpenOne(s: Sender, id: nat): (ps: seq<Packet>) {
    if id in s.open then [Packet(s.open[id].payload, s.open[id].flags, id)] else []
  }

  /**
   Under each id the packets come out that were opened there, in order and unchanged, except for the last
   one as long as it is not written to its end.
   */
  lemma {:induction false} OpenedComeOut(c: Codec, l: Limits, events: seq<Event>, s: Sender, id: nat)
    requires IsRun(c, l, events, s)
    ensures OpensOf(events, id) == PacketsUnder(s.completed, id) + OpenOne(s, id)
    decreases |events|
  {
    hide FrameOf, Chunk, Room;
    if events == [] {
      assert PacketsUnder([], id) == [];
    } else {
      var last := events[|events| - 1];
      var before :| IsRun(c, l, events[..|events| - 1], before) && Enabled(l, before, last) && s == Sent(c, l, before, last);
      OpenedComeOut(c, l, events[..|events| - 1], before, id);
      OneEvent(c, l, before, last, id);
    }
  }

  lemma OneEvent(c: Codec, l: Limits, before: Sender, e: Event, id: nat)
    requires Enabled(l, before, e)
    ensures var s := Sent(c, l, before, e);
            PacketsUnder(s.completed, id) + OpenOne(s, id)
            == PacketsUnder(before.completed, id) + OpenOne(before, id) + if e.Open? && e.id == id then [Packet(e.payload, e.flags, id)] else []
  {
    hide FrameOf, Chunk, Room;
    var s := Sent(c, l, before, e);
    if e.Write? && Final(l, before.open[e.id]) {
      var q := Packet(before.open[e.id].payload, before.open[e.id].flags, e.id);
      assert s.completed == before.completed + [q] && s.completed[..|s.completed| - 1] == before.completed;
    }
  }

  // ---------------------------------------------------------------- before the codec is there

  /** The frames of one packet whose payload was compressed as a whole. */
  function MarkedFrames(chunks: seq<Data>, flags: Flags, id: nat, k: nat): (frames: seq<Frame>)
    requires k <= |chunks|
    ensures |frames| == k
  {
    seq(k, i requires 0 <= i < k => Frame(chunks[i], flags.(compressed := true, fragment := i < |chunks| - 1), id))
  }

  /** What the receiver holds after some of them. */
  function Part(chunks: seq<Data>, id: nat, k: nat): (f: Fragments)
    requires k <= |chunks|
  {
    if k == 0 then NoFragments
    else Fragments(map[id := chunks[..k]], map[id := |Concat(chunks[..k])|], |Concat(chunks[..k])|)
  }

  lemma PartGrows(l: Limits, chunks: seq<Data>, id: nat, k: nat)
    requires k < |chunks| && 0 < l.maxPackets && |Concat(chunks[..k + 1])| <= l.maxBytes
    ensures Store(l, Part(chunks, id, k), id, chunks[k]) == (Part(chunks, id, k + 1), true)
  {
    hide Concat;
    assert chunks[..k + 1] == chunks[..k] + [chunks[k]];
    ConcatAppend(chunks[..k], chunks[k]);
    var part, size := chunks[..k + 1], |Concat(chunks[..k + 1])|;
    if k == 0 {
      NoChunks();
      assert chunks[..0] == [] && [] + [chunks[0]] == chunks[..1];
      assert map[id := []][id := part] == map[id := part] && map[id := 0][id := size] == map[id := size];
    } else {
      assert map[id := chunks[..k]][id := part] == map[id := part];
      assert map[id := |Concat(chunks[..k])|][id := size] == map[id := size];
    }
  }

  lemma NoChunks()
    ensures Concat([]) == []
  {
  }

  lemma {:induction false} ConcatShorter(chunks: seq<Data>, k: nat)
    requires k <= |chunks|
    ensures |Concat(chunks[..k])| <= |Concat(chunks)|
    decreases |chunks| - k
  {
    if k < |chunks| {
      assert chunks[..k + 1] == chunks[..k] + [chunks[k]];
      ConcatAppend(chunks[..k], chunks[k]);
      ConcatShorter(chunks, k + 1);
    } else {
      assert chunks[..k] == chunks;
    }
  }

  lemma {:induction false} MarkedCollects(c: Codec, l: Limits, chunks: seq<Data>, flags: Flags, id: nat, k: nat)
    requires k < |chunks| && 0 < l.maxPackets && |Concat(chunks)| <= l.maxBytes
    requires forall i | 0 <= i < |chunks| :: |chunks[i]| <= l.fragmentSize
    ensures Collect(c, l, Direction(None, NoFragments), MarkedFrames(chunks, flags, id, k)) == Collected(Direction(None, Part(chunks, id, k)), [], true)
    decreases k
  {
    hide Concat, Store;
    if k > 0 {
      var frames := MarkedFrames(chunks, flags, id, k);
      assert frames[..k - 1] == MarkedFrames(chunks, flags, id, k - 1);
      MarkedCollects(c, l, chunks, flags, id, k - 1);
      ConcatShorter(chunks, k);
      PartGrows(l, chunks, id, k - 1);
    }
  }

  /**
   Before a codec is installed a packet is compressed as a whole: the receiver joins its frames as they are
   and inflates the payload once, at the end; it fails when that fails.
   */
  lemma InflatedAsAWhole(c: Codec, l: Limits, chunks: seq<Data>, flags: Flags, id: nat)
    requires 0 < |chunks| && 0 < l.maxPackets && |Concat(chunks)| <= l.maxBytes
    requires forall i | 0 <= i < |chunks| :: |chunks[i]| <= l.fragmentSize
    ensures var plain := c.inflate(Concat(chunks));
            var r := Collect(c, l, Direction(None, NoFragments), MarkedFrames(chunks, flags, id, |chunks|));
            if plain.None? then !r.ok
            else r == Collected(Direction(None, NoFragments), [Packet(plain.value, flags.(compressed := true, fragment := false), id)], true)
  {
    hide Concat, Handle, Part;
    var n := |chunks| - 1;
    var frames := MarkedFrames(chunks, flags, id, |chunks|);
    assert frames[..n] == MarkedFrames(chunks, flags, id, n);
    MarkedCollects(c, l, chunks, flags, id, n);
    LastMarked(c, l, chunks, flags, id);
  }

  lemma LastMarked(c: Codec, l: Limits, chunks: seq<Data>, flags: Flags, id: nat)
    requires 0 < |chunks| && forall i | 0 <= i < |chunks| :: |chunks[i]| <= l.fragmentSize
    ensures var n := |chunks| - 1;
            var plain, d := c.inflate(Concat(chunks)), Direction(None, NoFragments);
            var marks := flags.(compressed := true, fragment := false);
            Handle(c, l, Direction(None, Part(chunks, id, n)), Frame(chunks[n], marks, id))
            == if plain.None? then Failed(d) else Complete(d, Packet(plain.value, marks, id))
  {
    hide Concat, Part, Take;
    PartTakes(chunks, id);
  }

  lemma PartTakes(chunks: seq<Data>, id: nat)
    requires 0 < |chunks|
    ensures var n := |chunks| - 1; Take(Part(chunks, id, n), id, chunks[n]) == (NoFragments, Concat(chunks))
  {
    var n := |chunks| - 1;
    assert chunks == chunks[..n] + [chunks[n]];
    if n == 0 {
      assert chunks[1..] == [] && chunks[0] + [] == chunks[0];
    } else {
      hide Concat;
      assert map[id := chunks[..n]] - {id} == map[] && map[id := |Concat(chunks[..n])|] - {id} == map[];
    }
  }

  /** A frame that is longer than a fragment, and than what deflate may add to one if a codec packed it, is refused unread. */
  lemma LongFrameIsRefused(c: Codec, l: Limits, d: Direction, f: Frame, rest: seq<Frame>)
    requires |f.body| > l.fragmentSize
    requires f.flags.compressed && d.history.Some? ==> |f.body| > l.fragmentSize + l.fragmentSize / 4096 + l.fragmentSize / 16384 + 32
    ensures ReceiveInline(c, l, d, [f] + rest) == Broken(d)
    ensures !Collect(c, l, d, [f] + rest).ok
  {
    hide Handle, Collect;
    CollectCons(c, l, d, f, rest);
  }

  lemma OpenLinked(l: Limits, s: Sender, d: Direction, e: Event)
    requires Linked(l, s, d) && e.Open? && Enabled(l, s, e)
    ensures Linked(l, s.(open := s.open[e.id := Outgoing(e.payload, e.flags, 0)]), d)
  {
    hide Consistent, Concat;
    var s' := s.(open := s.open[e.id := Outgoing(e.payload, e.flags, 0)]);
    assert Started(s'.open) == Started(s.open);
  }

  /** Collecting is receiving again and again: the first packet, then the rest of the frames. */
  lemma {:induction false} CollectIsReceive(c: Codec, l: Limits, d: Direction, frames: seq<Frame>)
    ensures match ReceiveInline(c, l, d, frames)
            case Interrupted(d') => Collect(c, l, d, frames) == Collected(d', [], true)
            case Got(d', packet, rest) =>
              var more := Collect(c, l, d', rest);
              Collect(c, l, d, frames) == more.(packets := [packet] + more.packets)
            case Broken(_) => !Collect(c, l, d, frames).ok
    decreases |frames|
  {
    if frames != [] {
      var f, rest := frames[0], frames[1..];
      assert frames == [f] + rest;
      CollectCons(c, l, d, f, rest);
      if Acceptable(l, d.history.Some?, f) {
        var h := Handle(c, l, d, f);
        if h.Stored? {
          CollectIsReceive(c, l, h.d, rest);
        }
      }
    }
  }

  lemma {:induction false} CollectCons(c: Codec, l: Limits, d: Direction, f: Frame, rest: seq<Frame>)
    ensures var h := Handle(c, l, d, f);
            if !Acceptable(l, d.history.Some?, f) || h.Failed? then !Collect(c, l, d, [f] + rest).ok
            else
              var more := Collect(c, l, h.d, rest);
              Collect(c, l, d, [f] + rest)
              == if h.Complete? then more.(packets := [h.packet] + more.packets) else more
    decreases |rest|
  {
    var all := [f] + rest;
    if rest == [] {
      assert all == [f] && all[..0] == [];
    } else {
      var head := rest[..|rest| - 1];
      assert all[..|all| - 1] == [f] + head;
      assert all[|all| - 1] == rest[|rest| - 1];
      CollectCons(c, l, d, f, head);
    }
  }

  /** Why open packets need different ids: two packets with one id come out as neither of them. */
  lemma SameIdMixes(c: Codec, l: Limits, first: Data, other: Data, tail: Data, flags: Flags, id: nat)
    requires l.Valid() && l.maxPackets > 0 && Plain(flags)
    requires |first| <= l.fragmentSize && |first| <= l.maxBytes && |other| <= l.fragmentSize
    ensures var r := ReceiveInline(c, l, Direction(Some([]), NoFragments),
                                   [Frame(first, flags.(fragment := true), id), Frame(other, flags, id), Frame(tail, flags, id)]);
            r.Got? && r.packet == Packet(first + other, flags, id)
  {
    var d := Direction(Some([]), NoFragments);
    var frames := [Frame(first, flags.(fragment := true), id), Frame(other, flags, id), Frame(tail, flags, id)];
    var h := Handle(c, l, d, frames[0]);
    assert h.Stored? && h.d.fragments.buffers[id] == [first];
    assert frames[1..] == [frames[1], frames[2]];
    assert [first] + [other] == [first, other] && [first, other][1..] == [other] && [other][1..] == [];
    assert Concat([other]) == other && Concat([first, other]) == first + other;
  }

  /** `send_payload`: the frames of one packet when nothing interleaves. */
  method SendPayload(l: Limits, payload: Data, flags: Flags, id: nat) returns (frames: seq<Frame>)
    requires l.Valid() && Plain(flags)
    ensures |frames| > 0 && Concat(Bodies(frames)) == payload
    ensures forall i :: 0 <= i < |frames| ==>
              frames[i].id == id && |frames[i].body| <= l.fragmentSize && frames[i].flags == flags.(fragment := i < |frames| - 1)
    ensures forall i :: 0 <= i < |frames| - 1 ==> frames[i].body != []
  {
    frames := [];
    var offset := 0;
    assert payload[..0] == [];
    while true
      invariant 0 <= offset <= |payload| && Concat(Bodies(frames)) == payload[..offset]
      invariant forall i :: 0 <= i < |frames| ==>
                  frames[i].id == id && 0 < |frames[i].body| <= l.fragmentSize && frames[i].flags == flags.(fragment := true)
      decreases |payload| - offset
    {
      var chunk := payload[offset..Min(offset + l.fragmentSize, |payload|)];
      BodiesAppend(frames, Frame(chunk, flags, id));
      BodiesAppend(frames, Frame(chunk, flags.(fragment := true), id));
      ConcatAppend(Bodies(frames), chunk);
      assert payload[..offset] + chunk == payload[..offset + |chunk|];
      offset := offset + |chunk|;
      if offset >= |payload| {
        assert payload[..offset] == payload && flags.(fragment := false) == flags;
        frames := frames + [Frame(chunk, flags, id)];
        return;
      }
      frames := frames + [Frame(chunk, flags.(fragment := true), id)];
    }
  }

  function Bodies(frames: seq<Frame>): (r: seq<Data>)
    ensures |r| == |frames|
  {
    seq(|frames|, i requires 0 <= i < |frames| => frames[i].body)
  }

  lemma BodiesAppend(frames: seq<Frame>, f: Frame)
    ensures Bodies(frames + [f]) == Bodies(frames) + [f.body]
  {
  }
}
