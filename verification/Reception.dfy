/**
 Reading packets: the simple way, one frame at a time, and `receive` as it is written, which hands
 groups of frames to a worker once a packet is large. Both give the same packets and leave the same
 codec and buffers behind, for every threshold.
 */
module Reception {
  import opened Prelude
  import opened Framing

  datatype Packet = Packet(payload: Data, flags: Flags, id: nat)

  /** The receiving side of a direction. The history is absent until the codec is installed. */
  datatype Direction = Direction(history: Option<seq<Data>>, fragments: Fragments)

  datatype Handled = Stored(d: Direction) | Complete(d: Direction, packet: Packet) | Failed(d: Direction)

  /** Raw bodies obey the fragment size; a marked body may carry the overhead of its deflate block. */
  predicate Acceptable(l: Limits, codec: bool, f: Frame) {
    |f.body| <= l.fragmentSize + if f.flags.compressed && codec then l.fragmentSize / 4096 + l.fragmentSize / 16384 + 32 else 0
  }

  /** What follows once the body is plain: keep a fragment, or complete the packet. */
  function Deliver(c: Codec, l: Limits, d: Direction, f: Frame): (h: Handled) {
    if f.flags.fragment then
      var (fragments, ok) := Store(l, d.fragments, f.id, f.body);
      if ok then Stored(d.(fragments := fragments)) else Failed(d.(fragments := fragments))
    else
      var (fragments, payload) := Take(d.fragments, f.id, f.body);
      var d' := d.(fragments := fragments);
      if f.flags.compressed then
        var plain := c.inflate(payload);
        if plain.None? then Failed(d') else Complete(d', Packet(plain.value, f.flags, f.id))
      else Complete(d', Packet(payload, f.flags, f.id))
  }

  /** One frame: the codec moves first, in wire order. */
  function Handle(c: Codec, l: Limits, d: Direction, f: Frame): (h: Handled) {
    if f.flags.compressed && d.history.Some? then
      var plain := c.unpack(d.history.value, f.body);
      if plain.None? then Failed(d)
      else Deliver(c, l, d.(history := Some(d.history.value + [plain.value])), f.(body := plain.value, flags := f.flags.(compressed := false)))
    else Deliver(c, l, d, f)
  }

  datatype Reception = Got(d: Direction, packet: Packet, rest: seq<Frame>) | Interrupted(d: Direction) | Broken(d: Direction)

  /** Read frames one at a time until one packet is complete. */
  function ReceiveInline(c: Codec, l: Limits, d: Direction, input: seq<Frame>): (r: Reception)
    decreases |input|
  {
    if input == [] then Interrupted(d)
    else if !Acceptable(l, d.history.Some?, input[0]) then Broken(d)
    else
      match Handle(c, l, d, input[0])
      case Stored(d') => ReceiveInline(c, l, d', input[1..])
      case Complete(d', packet) => Got(d', packet, input[1..])
      case Failed(d') => Broken(d')
  }

  /** Frames of a group in wire order, until one of them completes a packet or fails. */
  function DecodeGroup(c: Codec, l: Limits, d: Direction, group: seq<Frame>): (h: Handled)
    decreases |group|
  {
    if group == [] then Stored(d)
    else
      var h := Handle(c, l, d, group[0]);
      if h.Stored? then DecodeGroup(c, l, h.d, group[1..]) else h
  }

  /** Frames that were accepted when they were read, of which only the last may end a packet. */
  predicate Group(l: Limits, codec: bool, group: seq<Frame>) {
    && (forall i :: 0 <= i < |group| ==> Acceptable(l, codec, group[i]))
    && (forall i :: 0 <= i < |group| - 1 ==> group[i].flags.fragment)
  }

  /** Frames that wait for their group to be complete: none of them ends a packet. */
  predicate Held(l: Limits, codec: bool, pending: seq<Frame>) {
    forall i :: 0 <= i < |pending| ==> Acceptable(l, codec, pending[i]) && pending[i].flags.fragment
  }

  lemma HeldAppend(l: Limits, codec: bool, pending: seq<Frame>, f: Frame)
    requires Held(l, codec, pending) && Acceptable(l, codec, f)
    ensures Group(l, codec, pending + [f]) && (f.flags.fragment ==> Held(l, codec, pending + [f]))
  {
  }

  lemma HandleKeepsCodec(c: Codec, l: Limits, d: Direction, f: Frame)
    ensures Handle(c, l, d, f).d.history.Some? == d.history.Some?
    ensures f.flags.fragment ==> !Handle(c, l, d, f).Complete?
  {
  }

  /** Decoding a group at once is reading its frames one at a time. */
  lemma {:induction false} GroupIsInline(c: Codec, l: Limits, d: Direction, group: seq<Frame>, rest: seq<Frame>)
    requires Group(l, d.history.Some?, group)
    ensures ReceiveInline(c, l, d, group + rest) ==
            match DecodeGroup(c, l, d, group)
            case Stored(d') => ReceiveInline(c, l, d', rest)
            case Complete(d', packet) => Got(d', packet, rest)
            case Failed(d') => Broken(d')
    ensures DecodeGroup(c, l, d, group).d.history.Some? == d.history.Some?
    ensures Held(l, d.history.Some?, group) ==> !DecodeGroup(c, l, d, group).Complete?
    decreases |group|
  {
    if group == [] {
      assert group + rest == rest;
    } else {
      assert (group + rest)[1..] == group[1..] + rest;
      HandleKeepsCodec(c, l, d, group[0]);
      var h := Handle(c, l, d, group[0]);
      if h.Stored? {
        GroupIsInline(c, l, h.d, group[1..], rest);
      } else if h.Complete? {
        assert |group| == 1 && group[1..] == [] && [] + rest == rest;
      }
    }
  }

  lemma InlineEnds(c: Codec, l: Limits, d: Direction, input: seq<Frame>)
    ensures input == [] ==> ReceiveInline(c, l, d, input) == Interrupted(d)
    ensures input != [] && !Acceptable(l, d.history.Some?, input[0]) ==> ReceiveInline(c, l, d, input) == Broken(d)
  {
  }

  lemma GroupOfOne(c: Codec, l: Limits, d: Direction, f: Frame)
    ensures DecodeGroup(c, l, d, [f]) == Handle(c, l, d, f)
  {
    assert [f][1..] == [];
  }

  lemma HandleConsistent(c: Codec, l: Limits, d: Direction, f: Frame)
    requires Consistent(l, d.fragments)
    ensures Consistent(l, Handle(c, l, d, f).d.fragments)
  {
    hide Consistent;
    forall chunk {
      StoreConsistent(l, d.fragments, f.id, chunk);
    }
    forall tail {
      TakeConsistent(l, d.fragments, f.id, tail);
    }
  }

  datatype Received = Returned(packet: Packet) | Waiting | Raised

  /** The reading side of a connection. `input` holds the frames the transport has delivered. */
  class FrameReader {
    const codec: Codec
    const limits: Limits
    const threshold: int
    const fragments: FragmentBuffer
    var history: Option<seq<Data>>
    var input: seq<Frame>

    ghost function View(): (d: Direction)
      reads this, fragments
    {
      Direction(history, fragments.View())
    }

    ghost predicate Valid()
      reads this, fragments
    {
      limits.Valid() && fragments.limits == limits && Consistent(limits, fragments.View())
    }

    constructor (codec: Codec, limits: Limits, threshold: int, installed: bool, input: seq<Frame>)
      requires limits.Valid()
      ensures Valid() && fresh(fragments)
      ensures View() == Direction(if installed then Some([]) else None, NoFragments) && this.input == input
      ensures this.codec == codec && this.limits == limits && this.threshold == threshold
    {
      this.codec, this.limits, this.threshold := codec, limits, threshold;
      fragments := new FragmentBuffer(limits);
      history := if installed then Some([]) else None;
      this.input := input;
    }

    /** Inflate one frame in its place, then store it or complete its packet. */
    method HandleFrame(f: Frame) returns (r: Received)
      requires Valid()
      modifies this`history, fragments
      ensures Valid() && input == old(input)
      ensures Agrees(r, Handle(codec, limits, old(View()), f))
    {
      HandleConsistent(codec, limits, View(), f);
      var body, flags := f.body, f.flags;
      if flags.compressed && history.Some? {
        var plain := codec.unpack(history.value, body);
        if plain.None? {
          return Raised;
        }
        history := Some(history.value + [plain.value]);
        body, flags := plain.value, flags.(compressed := false);
      }
      if flags.fragment {
        var ok := fragments.StoreChunk(f.id, body);
        return if ok then Waiting else Raised;
      }
      var payload := fragments.TakePacket(f.id, body);
      if flags.compressed {
        var plain := codec.inflate(payload);
        if plain.None? {
          return Raised;
        }
        payload := plain.value;
      }
      r := Returned(Packet(payload, flags, f.id));
    }

    /** The outcome and the state are those of the specification. */
    ghost predicate Agrees(r: Received, h: Handled)
      reads this, fragments
    {
      && View() == h.d
      && match h
         case Stored(_) => r == Waiting
         case Complete(_, packet) => r == Returned(packet)
         case Failed(_) => r == Raised
    }

    /** What an outcome means for a reader whose specification was `expected` before. */
    ghost predicate Follows(r: Received, expected: Reception)
      reads this, fragments
    {
      match r
      case Waiting => ReceiveInline(codec, limits, View(), input) == expected
      case Returned(packet) => expected == Got(View(), packet, input)
      case Raised => expected == Broken(View())
    }

    /** `decode_frames`: the group is decoded as if its frames were read one at a time. */
    method DecodeFrames(group: seq<Frame>) returns (r: Received)
      requires Valid() && Group(limits, history.Some?, group)
      modifies this`history, fragments
      ensures Valid() && input == old(input) && history.Some? == old(history.Some?)
      ensures Follows(r, ReceiveInline(codec, limits, old(View()), group + input))
      ensures Held(limits, history.Some?, group) ==> !r.Returned?
    {
      GroupIsInline(codec, limits, View(), group, input);
      hide ReceiveInline, Group;
      assert group[0..] == group;
      for k := 0 to |group|
        invariant Valid() && input == old(input)
        invariant DecodeGroup(codec, limits, old(View()), group) == DecodeGroup(codec, limits, View(), group[k..])
      {
        assert group[k..][1..] == group[k + 1..];
        r := HandleFrame(group[k]);
        if !r.Waiting? {
          return;
        }
      }
      r := Waiting;
    }

    /** One frame handled where it was read. */
    method HandleInline(f: Frame) returns (r: Received)
      requires Valid() && Acceptable(limits, history.Some?, f)
      modifies this`history, fragments
      ensures Valid() && input == old(input) && history.Some? == old(history.Some?)
      ensures Follows(r, ReceiveInline(codec, limits, old(View()), [f] + input))
    {
      GroupIsInline(codec, limits, View(), [f], input);
      GroupOfOne(codec, limits, View(), f);
      hide ReceiveInline;
      r := HandleFrame(f);
    }

    /** One turn of the loop: read a frame, then group it or handle it. */
    method Turn(pending: seq<Frame>) returns (r: Received, held: seq<Frame>)
      requires Valid() && input != [] && Held(limits, history.Some?, pending)
      requires threshold == -1 ==> pending == []
      modifies this, fragments
      ensures Valid() && (!r.Raised? ==> input == old(input)[1..])
      ensures r.Waiting? ==> Held(limits, history.Some?, held) && (threshold == -1 ==> held == [])
      ensures var expected := ReceiveInline(codec, limits, old(View()), pending + old(input));
              if r.Waiting? then ReceiveInline(codec, limits, View(), held + input) == expected else Follows(r, expected)
    {
      hide Handle, Deliver, DecodeGroup, ReceiveInline, Consistent;
      var f := input[0];
      held := [];
      if !Acceptable(limits, history.Some?, f) {
        r := DecodeFrames(pending);
        InlineEnds(codec, limits, View(), input);
        return Raised, held;
      }
      HeldAppend(limits, history.Some?, pending, f);
      assert pending + input == (pending + [f]) + input[1..];
      input := input[1..];
      assert [] + input == input;
      var large := f.id in fragments.sizes && fragments.sizes[f.id] > threshold;
      if threshold != -1 && (pending != [] || large) {
        if f.flags.fragment && |pending| + 1 < limits.groupFrames {
          return Waiting, pending + [f];
        }
        r := DecodeFrames(pending + [f]);
      } else {
        assert pending + [f] == [f];
        r := HandleInline(f);
      }
    }

    /**
     `receive`: whatever the threshold, the same frames are consumed, the same packet is returned and the
     same state is left as by reading frame by frame; also when reading stops between two frames.
     */
    method Receive() returns (r: Received)
      requires Valid()
      modifies this, fragments
      ensures Valid()
      ensures match ReceiveInline(codec, limits, old(View()), old(input))
              case Got(d, packet, rest) => r == Returned(packet) && View() == d && input == rest
              case Interrupted(d) => r == Waiting && View() == d && input == []
              case Broken(d) => r == Raised && View() == d
    {
      var pending: seq<Frame> := [];
      assert [] + input == input;
      while input != []
        invariant Valid() && Held(limits, history.Some?, pending) && (threshold == -1 ==> pending == [])
        invariant ReceiveInline(codec, limits, View(), pending + input) == ReceiveInline(codec, limits, old(View()), old(input))
        decreases |input|
      {
        r, pending := Turn(pending);
        if !r.Waiting? {
          return;
        }
      }
      r := DecodeFrames(pending);
    }
  }
}
