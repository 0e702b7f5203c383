/**
 Two packets whose frames share the wire in any order. They come out as they were sent if and only if they
 carry different ids, or no frame of one arrives while the other is partly sent.
 */
module Weaving {
  import opened Prelude
  import opened Framing
  import opened Reception
  import opened Interleaving

  /** A packet cut into chunks, as `send_payload` cuts it: all but the last are full, so none of them is empty. */
  datatype Parcel = Parcel(chunks: seq<Data>, flags: Flags, id: nat)
  {
    predicate Valid(l: Limits) {
      && Plain(flags) && 0 < |chunks|
      && forall i | 0 <= i < |chunks| :: |chunks[i]| <= l.fragmentSize && (i < |chunks| - 1 ==> chunks[i] != [])
    }

    function FrameAt(i: nat): (f: Frame)
      requires i < |chunks|
    {
      Frame(chunks[i], flags.(fragment := i < |chunks| - 1), id)
    }

    /** What the receiver should get. */
    function Whole(): (p: Packet) { Packet(Concat(chunks), flags, id) }

    predicate Partly(n: nat) { 0 < n < |chunks| }

    /** The bytes of the first `n` chunks. */
    function Bytes(n: nat): (k: nat)
      requires n <= |chunks|
    {
      |Concat(chunks[..n])|
    }
  }

  // ---------------------------------------------------------------- the order of the frames

  /** How many of the turns belong to the first packet. */
  function Firsts(turns: seq<bool>): (n: nat)
    ensures n <= |turns|
  {
    if turns == [] then 0 else Firsts(turns[..|turns| - 1]) + if turns[|turns| - 1] then 1 else 0
  }

  function Seconds(turns: seq<bool>): (n: nat) { |turns| - Firsts(turns) }

  /** The turns take frames that the packets have. */
  predicate Within(p: Parcel, q: Parcel, turns: seq<bool>) {
    Firsts(turns) <= |p.chunks| && Seconds(turns) <= |q.chunks|
  }

  function Init(turns: seq<bool>): (r: seq<bool>)
    requires turns != []
  {
    turns[..|turns| - 1]
  }

  predicate Last(turns: seq<bool>)
    requires turns != []
  {
    turns[|turns| - 1]
  }

  /** The frames on the wire. */
  function Woven(p: Parcel, q: Parcel, turns: seq<bool>): (frames: seq<Frame>)
    requires Within(p, q, turns)
    decreases |turns|
  {
    if turns == [] then []
    else
      var u := Init(turns);
      Woven(p, q, u) + [if Last(turns) then p.FrameAt(Firsts(u)) else q.FrameAt(Seconds(u))]
  }

  /** The packets whose final frame is on the wire, in that order. */
  function Finished(p: Parcel, q: Parcel, turns: seq<bool>): (packets: seq<Packet>)
    requires Within(p, q, turns)
    decreases |turns|
  {
    if turns == [] then []
    else
      var u := Init(turns);
      Finished(p, q, u) +
        if Last(turns) && Firsts(turns) == |p.chunks| then [p.Whole()]
        else if !Last(turns) && Seconds(turns) == |q.chunks| then [q.Whole()]
        else []
  }

  /** No frame of one arrives while the other is partly sent. */
  predicate Apart(p: Parcel, q: Parcel, turns: seq<bool>)
    requires Within(p, q, turns)
    decreases |turns|
  {
    turns == [] || (
      && Apart(p, q, Init(turns))
      && (if Last(turns) then !q.Partly(Seconds(Init(turns))) else !p.Partly(Firsts(Init(turns)))))
  }

  // ---------------------------------------------------------------- when they come out

  function Buffer(p: Parcel, n: nat): (m: map<nat, seq<Data>>)
    requires n <= |p.chunks|
  {
    if p.Partly(n) then map[p.id := p.chunks[..n]] else map[]
  }

  function Size(p: Parcel, n: nat): (m: map<nat, nat>)
    requires n <= |p.chunks|
  {
    if p.Partly(n) then map[p.id := p.Bytes(n)] else map[]
  }

  function Total(p: Parcel, n: nat): (k: nat)
    requires n <= |p.chunks|
  {
    if p.Partly(n) then p.Bytes(n) else 0
  }

  /** What the receiver holds: the parts of both. */
  function Both(p: Parcel, a: nat, q: Parcel, b: nat): (f: Fragments)
    requires a <= |p.chunks| && b <= |q.chunks|
  {
    Fragments(Buffer(p, a) + Buffer(q, b), Size(p, a) + Size(q, b), Total(p, a) + Total(q, b))
  }

  predicate Separate(p: Parcel, a: nat, q: Parcel, b: nat) { p.id != q.id || !p.Partly(a) || !q.Partly(b) }

  lemma Swap(p: Parcel, a: nat, q: Parcel, b: nat)
    requires a <= |p.chunks| && b <= |q.chunks| && Separate(p, a, q, b)
    ensures Both(p, a, q, b) == Both(q, b, p, a)
  {
    assert Buffer(p, a) + Buffer(q, b) == Buffer(q, b) + Buffer(p, a);
    assert Size(p, a) + Size(q, b) == Size(q, b) + Size(p, a);
  }

  lemma NextBytes(p: Parcel, n: nat)
    requires n < |p.chunks|
    ensures p.chunks[..n + 1] == p.chunks[..n] + [p.chunks[n]]
    ensures Concat(p.chunks[..n + 1]) == Concat(p.chunks[..n]) + p.chunks[n]
    ensures p.Bytes(n + 1) == p.Bytes(n) + |p.chunks[n]|
  {
    ConcatAppend(p.chunks[..n], p.chunks[n]);
  }

  lemma {:induction false} BytesGrow(p: Parcel, m: nat, n: nat)
    requires m <= n <= |p.chunks|
    ensures p.Bytes(m) <= p.Bytes(n)
    decreases n - m
  {
    if m < n {
      NextBytes(p, n - 1);
      BytesGrow(p, m, n - 1);
    }
  }

  ghost predicate Room(l: Limits, p: Parcel, q: Parcel) {
    l.Valid() && p.Valid(l) && q.Valid(l) && 2 <= l.maxPackets && |Concat(p.chunks)| + |Concat(q.chunks)| <= l.maxBytes
  }

  lemma WholeBytes(p: Parcel)
    ensures p.Bytes(|p.chunks|) == |Concat(p.chunks)|
  {
    assert p.chunks[..|p.chunks|] == p.chunks;
  }

  /** A fragment of `p` joins its part. */
  lemma StoresPart(l: Limits, p: Parcel, a: nat, q: Parcel, b: nat)
    requires Room(l, p, q) && a + 1 < |p.chunks| && b <= |q.chunks| && (p.id == q.id ==> !q.Partly(b))
    ensures Store(l, Both(p, a, q, b), p.id, p.chunks[a]) == (Both(p, a + 1, q, b), true)
  {
    hide Both;
    GrowsPart(p, a, q, b);
    FitsPart(l, p, a, q, b);
  }

  lemma GrowsPart(p: Parcel, a: nat, q: Parcel, b: nat)
    requires a + 1 < |p.chunks| && b <= |q.chunks| && (p.id == q.id ==> !q.Partly(b))
    ensures Grow(Begin(Both(p, a, q, b), p.id), p.id, p.chunks[a]) == Both(p, a + 1, q, b)
  {
    hide Concat;
    var f, g := Both(p, a, q, b), Both(p, a + 1, q, b);
    var h := Grow(Begin(f, p.id), p.id, p.chunks[a]);
    NextBytes(p, a);
    NoBytes(p);
    if a == 0 {
      assert p.chunks[..1] == [] + [p.chunks[0]];
      assert f.buffers == Buffer(q, b) && f.sizes == Size(q, b);
      assert h.buffers == Buffer(q, b)[p.id := p.chunks[..1]];
    }
    assert h.buffers == g.buffers;
    assert h.sizes == g.sizes;
  }

  lemma FitsPart(l: Limits, p: Parcel, a: nat, q: Parcel, b: nat)
    requires Room(l, p, q) && a + 1 < |p.chunks| && b <= |q.chunks| && (p.id == q.id ==> !q.Partly(b))
    ensures var f := Both(p, a, q, b);
            (p.id in f.buffers || |f.buffers| < l.maxPackets) && f.total + |p.chunks[a]| <= l.maxBytes
  {
    hide Concat;
    NextBytes(p, a);
    NoBytes(p);
    BytesGrow(p, a + 1, |p.chunks|);
    BytesGrow(q, b, |q.chunks|);
    WholeBytes(p);
    WholeBytes(q);
    assert |Buffer(q, b)| <= 1;
    var f := Both(p, a, q, b);
    if p.id !in f.buffers { assert f.buffers == Buffer(q, b); }
  }

  lemma NoBytes(p: Parcel)
    ensures p.Bytes(0) == 0
  {
    assert p.chunks[..0] == [];
  }

  /** The last chunk of `p` completes it. */
  lemma TakesWhole(l: Limits, p: Parcel, q: Parcel, b: nat)
    requires Room(l, p, q) && b <= |q.chunks| && (p.id == q.id ==> !q.Partly(b))
    ensures var n := |p.chunks|;
            Take(Both(p, n - 1, q, b), p.id, p.chunks[n - 1]) == (Both(p, n, q, b), Concat(p.chunks))
  {
    var n := |p.chunks|;
    assert p.chunks[..n] == p.chunks;
    NextBytes(p, n - 1);
    if n == 1 {
      assert p.chunks[..0] == [] && Concat([]) == [] && [] + p.chunks[0] == p.chunks[0];
      NoPart(p, q, b);
    } else {
      hide Both, Concat;
      LastPart(p, q, b);
    }
  }

  lemma NoPart(p: Parcel, q: Parcel, b: nat)
    requires |p.chunks| == 1 && b <= |q.chunks| && (p.id == q.id ==> !q.Partly(b))
    ensures p.id !in Both(p, 0, q, b).buffers && Both(p, 0, q, b) == Both(p, 1, q, b)
  {
    hide Concat;
  }

  lemma LastPart(p: Parcel, q: Parcel, b: nat)
    requires 1 < |p.chunks| && b <= |q.chunks| && (p.id == q.id ==> !q.Partly(b))
    ensures var n := |p.chunks|;
            var f, g := Both(p, n - 1, q, b), Both(p, n, q, b);
            && p.id in f.buffers && f.buffers[p.id] == p.chunks[..n - 1] && f.buffers - {p.id} == g.buffers
            && p.id in f.sizes && f.sizes - {p.id} == g.sizes && f.total - f.sizes[p.id] == g.total
  {
    hide Concat;
  }

  function At(f: Fragments): (d: Direction) { Direction(Some([]), f) }

  /** One frame of `p` at the receiver. */
  lemma OneFrame(c: Codec, l: Limits, p: Parcel, a: nat, q: Parcel, b: nat)
    requires Room(l, p, q) && a < |p.chunks| && b <= |q.chunks| && (p.id == q.id ==> !q.Partly(b))
    ensures Acceptable(l, true, p.FrameAt(a))
    ensures Handle(c, l, At(Both(p, a, q, b)), p.FrameAt(a)) ==
            if a + 1 == |p.chunks| then Complete(At(Both(p, a + 1, q, b)), p.Whole()) else Stored(At(Both(p, a + 1, q, b)))
  {
    hide Store, Take, Both, Concat;
    if a + 1 == |p.chunks| {
      TakesWhole(l, p, q, b);
      assert p.flags.(fragment := false) == p.flags;
    } else {
      StoresPart(l, p, a, q, b);
    }
  }

  /** One more frame of `p`, for a receiver that holds the parts of both. */
  lemma OneTurn(c: Codec, l: Limits, p: Parcel, a: nat, q: Parcel, b: nat, frames: seq<Frame>, packets: seq<Packet>)
    requires Room(l, p, q) && a < |p.chunks| && b <= |q.chunks| && (p.id == q.id ==> !q.Partly(b))
    requires Collect(c, l, At(NoFragments), frames) == Collected(At(Both(p, a, q, b)), packets, true)
    ensures Collect(c, l, At(NoFragments), frames + [p.FrameAt(a)]) ==
            Collected(At(Both(p, a + 1, q, b)), packets + if a + 1 == |p.chunks| then [p.Whole()] else [], true)
  {
    hide Handle, Both, Collect, Acceptable, Room;
    OneFrame(c, l, p, a, q, b);
    CollectMore(c, l, frames, p.FrameAt(a));
  }

  /** What the receiver has after the turns, as long as the packets do not disturb each other. */
  lemma {:induction false} ComesOut(c: Codec, l: Limits, p: Parcel, q: Parcel, turns: seq<bool>)
    requires Room(l, p, q) && Within(p, q, turns) && (p.id != q.id || Apart(p, q, turns))
    ensures Separate(p, Firsts(turns), q, Seconds(turns))
    ensures Collect(c, l, At(NoFragments), Woven(p, q, turns)) ==
            Collected(At(Both(p, Firsts(turns), q, Seconds(turns))), Finished(p, q, turns), true)
    decreases |turns|
  {
    hide Both, Collect, Woven, Room, Finished, Concat;
    if turns == [] {
      StartsEmpty(c, l, p, q);
    } else {
      FinishedLast(p, q, turns);
      var u := Init(turns);
      var a, b := Firsts(u), Seconds(u);
      ComesOut(c, l, p, q, u);
      WovenLast(p, q, turns, if Last(turns) then p.FrameAt(a) else q.FrameAt(b));
      if Last(turns) {
        OneTurn(c, l, p, a, q, b, Woven(p, q, u), Finished(p, q, u));
      } else {
        Swap(p, a, q, b);
        Swap(p, a, q, b + 1);
        RoomSwaps(l, p, q);
        OneTurn(c, l, q, b, p, a, Woven(p, q, u), Finished(p, q, u));
      }
    }
  }

  lemma CollectMore(c: Codec, l: Limits, frames: seq<Frame>, f: Frame)
    requires var before := Collect(c, l, At(NoFragments), frames);
             before.ok && Acceptable(l, before.d.history.Some?, f) && !Handle(c, l, before.d, f).Failed?
    ensures var before := Collect(c, l, At(NoFragments), frames);
            var h := Handle(c, l, before.d, f);
            Collect(c, l, At(NoFragments), frames + [f]) ==
            Collected(h.d, before.packets + if h.Complete? then [h.packet] else [], true)
  {
    hide Handle, Acceptable;
    assert (frames + [f])[..|frames|] == frames;
  }

  lemma StartsEmpty(c: Codec, l: Limits, p: Parcel, q: Parcel)
    ensures Collect(c, l, At(NoFragments), Woven(p, q, [])) == Collected(At(Both(p, 0, q, 0)), Finished(p, q, []), true)
  {
    NothingYet(p, q);
  }

  lemma FinishedLast(p: Parcel, q: Parcel, turns: seq<bool>)
    requires turns != [] && Within(p, q, turns)
    ensures Finished(p, q, turns) == Finished(p, q, Init(turns)) +
            if Last(turns) then (if Firsts(Init(turns)) + 1 == |p.chunks| then [p.Whole()] else [])
            else (if Seconds(Init(turns)) + 1 == |q.chunks| then [q.Whole()] else [])
  {
    hide Concat;
  }

  lemma RoomSwaps(l: Limits, p: Parcel, q: Parcel)
    requires Room(l, p, q)
    ensures Room(l, q, p)
  {
  }

  lemma NothingYet(p: Parcel, q: Parcel)
    ensures Both(p, 0, q, 0) == NoFragments
  {
  }

  // ---------------------------------------------------------------- when they mix

  lemma PartHasBytes(l: Limits, p: Parcel, n: nat)
    requires p.Valid(l) && p.Partly(n)
    ensures p.Bytes(n) > 0
  {
    NextBytes(p, 0);
    NoBytes(p);
    BytesGrow(p, 1, n);
  }

  lemma {:induction false} NoneFinished(p: Parcel, q: Parcel, turns: seq<bool>)
    requires Within(p, q, turns) && Firsts(turns) < |p.chunks| && Seconds(turns) < |q.chunks|
    ensures Finished(p, q, turns) == []
    decreases |turns|
  {
    if turns != [] { NoneFinished(p, q, Init(turns)); }
  }

  /** The buffer of the id holds as many bytes as both parts together. */
  predicate Heap(d: Direction, id: nat, bytes: nat) { id in d.fragments.buffers && |Concat(d.fragments.buffers[id])| == bytes }

  /** A frame of `p` that finds a part of `q` under its id joins it, or completes a packet with too many bytes. */
  lemma FrameMixes(c: Codec, l: Limits, d: Direction, p: Parcel, a: nat, q: Parcel, b: nat)
    requires p.Valid(l) && q.Valid(l) && p.id == q.id && a < |p.chunks| && q.Partly(b) && Heap(d, p.id, p.Bytes(a) + q.Bytes(b))
    ensures var h := Handle(c, l, d, p.FrameAt(a));
            || h.Failed?
            || (a + 1 < |p.chunks| && h.Stored? && Heap(h.d, p.id, p.Bytes(a + 1) + q.Bytes(b)))
            || (a + 1 == |p.chunks| && h.Complete? && |h.packet.payload| > |p.Whole().payload|)
  {
    ConcatAppend(d.fragments.buffers[p.id], p.chunks[a]);
    NextBytes(p, a);
    WholeBytes(p);
    PartHasBytes(l, q, b);
  }

  /** What is left of two packets that met under one id. */
  ghost predicate Mixed(l: Limits, p: Parcel, q: Parcel, turns: seq<bool>, r: Collected)
    requires Within(p, q, turns)
  {
    var a, b := Firsts(turns), Seconds(turns);
    || !r.ok
    || (if a < |p.chunks| && b < |q.chunks|
        then p.Partly(a) && q.Partly(b) && r.packets == [] && Heap(r.d, p.id, p.Bytes(a) + q.Bytes(b))
        else Longer(r.packets, Finished(p, q, turns)))
  }

  /** The first packet is longer than it should be. */
  predicate Longer(packets: seq<Packet>, expected: seq<Packet>) {
    packets != [] && expected != [] && |packets[0].payload| > |expected[0].payload|
  }

  lemma LongerStays(packets: seq<Packet>, expected: seq<Packet>, more: seq<Packet>, others: seq<Packet>)
    requires Longer(packets, expected)
    ensures Longer(packets + more, expected + others)
  {
  }

  lemma CollectLast(c: Codec, l: Limits, frames: seq<Frame>, f: Frame)
    ensures var before, r := Collect(c, l, At(NoFragments), frames), Collect(c, l, At(NoFragments), frames + [f]);
            var h := Handle(c, l, before.d, f);
            && (r.ok ==> before.ok && !h.Failed? && r.d == h.d && r.packets == before.packets + if h.Complete? then [h.packet] else [])
  {
    hide Handle;
    assert (frames + [f])[..|frames|] == frames;
  }

  lemma {:induction false} MeetingMixes(c: Codec, l: Limits, p: Parcel, q: Parcel, turns: seq<bool>)
    requires Room(l, p, q) && p.id == q.id && Within(p, q, turns) && !Apart(p, q, turns)
    ensures Mixed(l, p, q, turns, Collect(c, l, At(NoFragments), Woven(p, q, turns)))
    decreases |turns|
  {
    hide Handle, Collect, Heap, Concat, Both, Woven;
    var u := Init(turns);
    var before := Collect(c, l, At(NoFragments), Woven(p, q, u));
    var f := if Last(turns) then p.FrameAt(Firsts(u)) else q.FrameAt(Seconds(u));
    WovenLast(p, q, turns, f);
    CollectLast(c, l, Woven(p, q, u), f);
    if Apart(p, q, u) {
      ComesOut(c, l, p, q, u);
      NoneFinished(p, q, u);
      FirstMeeting(l, p, Firsts(u), q, Seconds(u));
    } else {
      MeetingMixes(c, l, p, q, u);
    }
    var r := Collect(c, l, At(NoFragments), Woven(p, q, turns));
    if r.ok {
      if Firsts(u) < |p.chunks| && Seconds(u) < |q.chunks| {
        NoneFinished(p, q, u);
        if Last(turns) {
          FrameMixes(c, l, before.d, p, Firsts(u), q, Seconds(u));
        } else {
          FrameMixes(c, l, before.d, q, Seconds(u), p, Firsts(u));
        }
      } else {
        LongerStays(before.packets, Finished(p, q, u), r.packets[|before.packets|..], Finished(p, q, turns)[|Finished(p, q, u)|..]);
        assert r.packets == before.packets + r.packets[|before.packets|..];
        assert Finished(p, q, turns) == Finished(p, q, u) + Finished(p, q, turns)[|Finished(p, q, u)|..];
      }
    }
  }

  lemma WovenLast(p: Parcel, q: Parcel, turns: seq<bool>, f: Frame)
    requires turns != [] && Within(p, q, turns)
    requires f == if Last(turns) then p.FrameAt(Firsts(Init(turns))) else q.FrameAt(Seconds(Init(turns)))
    ensures Woven(p, q, turns) == Woven(p, q, Init(turns)) + [f]
  {
  }

  /** At the first meeting one of them has a part and the other has not begun. */
  lemma FirstMeeting(l: Limits, p: Parcel, a: nat, q: Parcel, b: nat)
    requires p.id == q.id && a <= |p.chunks| && b <= |q.chunks| && Separate(p, a, q, b)
    ensures p.Partly(a) && b == 0 ==> Heap(At(Both(p, a, q, b)), p.id, p.Bytes(a) + q.Bytes(b))
    ensures q.Partly(b) && a == 0 ==> Heap(At(Both(p, a, q, b)), p.id, p.Bytes(a) + q.Bytes(b))
  {
    NoBytes(p);
    NoBytes(q);
    hide Concat;
  }

  // ---------------------------------------------------------------- frames that the codec packs

  /** What is on the wire, and what the codec has carried. */
  datatype Encoding = Encoding(wire: seq<Frame>, history: seq<Data>)

  /** The frames as they are written: the codec takes some of the bodies, in wire order, and passes the others by. */
  function Encoded(c: Codec, frames: seq<Frame>, packs: seq<bool>): (e: Encoding)
    requires |packs| == |frames|
    decreases |frames|
  {
    if frames == [] then Encoding([], [])
    else
      var n := |frames| - 1;
      var before, f := Encoded(c, frames[..n], packs[..n]), frames[n];
      if packs[n] then Encoding(before.wire + [Frame(c.pack(before.history, f.body), f.flags.(compressed := true), f.id)], before.history + [f.body])
      else before.(wire := before.wire + [f])
  }

  predicate PlainFrames(l: Limits, frames: seq<Frame>) {
    forall i | 0 <= i < |frames| :: !frames[i].flags.compressed && |frames[i].body| <= l.fragmentSize
  }

  /** The receiver gets the same from the frames as they are written and from the plain ones. */
  lemma {:induction false} EncodedIsPlain(c: Codec, l: Limits, frames: seq<Frame>, packs: seq<bool>)
    requires Sound(c) && |packs| == |frames| && PlainFrames(l, frames)
    ensures var e, r := Encoded(c, frames, packs), Collect(c, l, At(NoFragments), frames);
            var w := Collect(c, l, At(NoFragments), e.wire);
            w.ok == r.ok && w.packets == r.packets && (r.ok ==> r.d.history == Some([]) && w.d == r.d.(history := Some(e.history)))
    decreases |frames|
  {
    hide Sound, Acceptable, Handle;
    if frames != [] {
      var n := |frames| - 1;
      var before, e := Encoded(c, frames[..n], packs[..n]), Encoded(c, frames, packs);
      EncodedIsPlain(c, l, frames[..n], packs[..n]);
      assert e.wire[..|e.wire| - 1] == before.wire;
      var r := Collect(c, l, At(NoFragments), frames[..n]);
      if r.ok { FrameIsPlain(c, l, r.d, before.history, frames[n], packs[n]); }
    }
  }

  lemma FrameIsPlain(c: Codec, l: Limits, d: Direction, history: seq<Data>, f: Frame, packed: bool)
    requires Sound(c) && !f.flags.compressed && |f.body| <= l.fragmentSize && d.history == Some([])
    ensures var g := if packed then Frame(c.pack(history, f.body), f.flags.(compressed := true), f.id) else f;
            var h, w := Handle(c, l, d, f), Handle(c, l, d.(history := Some(history)), g);
            var d' := h.d.(history := Some(if packed then history + [f.body] else history));
            && Acceptable(l, true, f) && Acceptable(l, true, g) && h.d.history == Some([])
            && w == match h case Stored(_) => Stored(d') case Complete(_, packet) => Complete(d', packet) case Failed(_) => Failed(d')
  {
    hide Store, Take;
    if packed {
      assert c.unpack(history, c.pack(history, f.body)) == Some(f.body);
      assert |c.pack(history, f.body)| <= |f.body| + |f.body| / 4096 + |f.body| / 16384 + 32;
      assert f.(body := f.body, flags := f.flags.(compressed := true).(compressed := false)) == f;
    }
  }

  lemma {:induction false} WovenPlain(l: Limits, p: Parcel, q: Parcel, turns: seq<bool>)
    requires p.Valid(l) && q.Valid(l) && Within(p, q, turns)
    ensures PlainFrames(l, Woven(p, q, turns)) && |Woven(p, q, turns)| == |turns|
    decreases |turns|
  {
    if turns != [] { WovenPlain(l, p, q, Init(turns)); }
  }

  /**
   Two packets, in any order of their frames, whichever of them the codec packs: the receiver returns both
   as they were sent, in the order of their final frames, if and only if they have different ids or no frame
   of one arrives while the other is partly sent.
   */
  lemma IntactExactlyWhen(c: Codec, l: Limits, p: Parcel, q: Parcel, turns: seq<bool>, packs: seq<bool>)
    requires Sound(c) && Room(l, p, q) && Firsts(turns) == |p.chunks| && Seconds(turns) == |q.chunks|
    requires |packs| == |Woven(p, q, turns)|
    ensures var r := Collect(c, l, At(NoFragments), Encoded(c, Woven(p, q, turns), packs).wire);
            r.ok && r.packets == Finished(p, q, turns) <==> p.id != q.id || Apart(p, q, turns)
    ensures |Finished(p, q, turns)| == 2 && p.Whole() in Finished(p, q, turns) && q.Whole() in Finished(p, q, turns)
  {
    hide Collect, Finished, Woven, Encoded, Apart, Sound;
    BothFinish(p, q, turns);
    WovenPlain(l, p, q, turns);
    EncodedIsPlain(c, l, Woven(p, q, turns), packs);
    if p.id != q.id || Apart(p, q, turns) {
      ComesOut(c, l, p, q, turns);
    } else {
      MeetingMixes(c, l, p, q, turns);
    }
  }

  /** Both packets are among those finished. */
  lemma {:induction false} BothFinish(p: Parcel, q: Parcel, turns: seq<bool>)
    requires 0 < |p.chunks| && 0 < |q.chunks| && Within(p, q, turns)
    ensures |Finished(p, q, turns)| == (if Firsts(turns) == |p.chunks| then 1 else 0) + (if Seconds(turns) == |q.chunks| then 1 else 0)
    ensures Firsts(turns) == |p.chunks| ==> p.Whole() in Finished(p, q, turns)
    ensures Seconds(turns) == |q.chunks| ==> q.Whole() in Finished(p, q, turns)
    decreases |turns|
  {
    if turns != [] { BothFinish(p, q, Init(turns)); }
  }
}
