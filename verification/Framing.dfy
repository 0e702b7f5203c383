/**
 Frames and packets of `rmote/protocol.py`: a packet is cut into frames, frames of different packets
 interleave, one stateful codec serves the direction, and the receiver joins what belongs together.
 */
module Framing {
  import opened Prelude

  datatype Flags = Flags(compressed: bool, fragment: bool, modules: bool, rest: nat)

  datatype Frame = Frame(body: Data, flags: Flags, id: nat)

  /**
   The codec of one direction. Its state is the history of the bodies it carried, because the
   dictionary is a function of them; nothing else is known about the bytes it writes.
   */
  datatype Codec = Codec(pack: (seq<Data>, Data) -> Data, unpack: (seq<Data>, Data) -> Option<Data>, inflate: Data -> Option<Data>)
  {
    /** Decoding undoes encoding when both sides carried the same bodies. */
    ghost predicate Lossless() {
      forall history, body :: unpack(history, pack(history, body)) == Some(body)
    }
  }

  datatype Limits = Limits(fragmentSize: nat, maxBytes: nat, maxPackets: nat, groupFrames: nat)
  {
    predicate Valid() { 0 < fragmentSize && 0 < groupFrames }
  }

  // ---------------------------------------------------------------- reassembly

  function Concat(chunks: seq<Data>): (data: Data) {
    if chunks == [] then [] else chunks[0] + Concat(chunks[1..])
  }

  datatype Fragments = Fragments(buffers: map<nat, seq<Data>>, sizes: map<nat, nat>, total: int)

  const NoFragments := Fragments(map[], map[], 0)

  function Begin(f: Fragments, id: nat): (r: Fragments) {
    if id in f.buffers then f else f.(buffers := f.buffers[id := []], sizes := f.sizes[id := 0])
  }

  function Grow(f: Fragments, id: nat, chunk: Data): (r: Fragments)
    requires id in f.buffers
  {
    Fragments(f.buffers[id := f.buffers[id] + [chunk]],
              f.sizes[id := (if id in f.sizes then f.sizes[id] else 0) + |chunk|],
              f.total + |chunk|)
  }

  /** `store`: a refused fragment may still have opened an empty buffer. */
  function Store(l: Limits, f: Fragments, id: nat, chunk: Data): (r: (Fragments, bool)) {
    if id !in f.buffers && |f.buffers| >= l.maxPackets then (f, false)
    else if f.total + |chunk| > l.maxBytes then (Begin(f, id), false)
    else (Grow(Begin(f, id), id, chunk), true)
  }

  /** `take`: the stored fragments with the final chunk; the buffer is released. */
  function Take(f: Fragments, id: nat, tail: Data): (r: (Fragments, Data)) {
    if id !in f.buffers then (f, tail)
    else (Fragments(f.buffers - {id}, f.sizes - {id}, f.total - (if id in f.sizes then f.sizes[id] else 0)),
          Concat(f.buffers[id] + [tail]))
  }

  // ---------------------------------------------------------------- the sum of all sizes

  ghost function Sum(m: map<nat, nat>): (n: nat)
    decreases |m|
  {
    if m == map[] then 0
    else
      var k :| k in m;
      m[k] + Sum(m - {k})
  }

  lemma {:induction false} SumWithout(m: map<nat, nat>, k: nat)
    requires k in m
    ensures Sum(m) == m[k] + Sum(m - {k})
    decreases |m|
  {
    var j :| j in m && Sum(m) == m[j] + Sum(m - {j});
    if j != k {
      SumWithout(m - {j}, k);
      SumWithout(m - {k}, j);
      assert (m - {j}) - {k} == (m - {k}) - {j};
    }
  }

  lemma SumUpdate(m: map<nat, nat>, k: nat, v: nat)
    ensures Sum(m[k := v]) == v + (if k in m then Sum(m) - m[k] else Sum(m))
  {
    SumWithout(m[k := v], k);
    if k in m {
      SumWithout(m, k);
      assert m[k := v] - {k} == m - {k};
    } else {
      assert m[k := v] - {k} == m;
    }
  }

  /** Sizes, total and limits agree with what is stored. */
  ghost predicate Consistent(l: Limits, f: Fragments) {
    && f.buffers.Keys == f.sizes.Keys
    && (forall id :: id in f.buffers ==> f.sizes[id] == |Concat(f.buffers[id])|)
    && f.total == Sum(f.sizes)
    && f.total <= l.maxBytes
    && |f.buffers| <= l.maxPackets
  }

  lemma {:induction false} ConcatAppend(chunks: seq<Data>, chunk: Data)
    ensures Concat(chunks + [chunk]) == Concat(chunks) + chunk
    decreases |chunks|
  {
    if chunks == [] {
      assert chunks + [chunk] == [chunk];
    } else {
      assert (chunks + [chunk])[1..] == chunks[1..] + [chunk];
      ConcatAppend(chunks[1..], chunk);
    }
  }

  lemma BeginConsistent(l: Limits, f: Fragments, id: nat)
    requires Consistent(l, f) && (id in f.buffers || |f.buffers| < l.maxPackets)
    ensures Consistent(l, Begin(f, id))
  {
    if id !in f.buffers {
      SumUpdate(f.sizes, id, 0);
      assert Begin(f, id).buffers.Keys == f.buffers.Keys + {id};
    }
  }

  lemma GrowConsistent(l: Limits, f: Fragments, id: nat, chunk: Data)
    requires Consistent(l, f) && id in f.buffers && f.total + |chunk| <= l.maxBytes
    ensures Consistent(l, Grow(f, id, chunk))
  {
    hide Concat, Sum;
    var f' := Grow(f, id, chunk);
    ConcatAppend(f.buffers[id], chunk);
    SumUpdate(f.sizes, id, f.sizes[id] + |chunk|);
    assert f'.buffers.Keys == f.buffers.Keys;
  }

  lemma StoreConsistent(l: Limits, f: Fragments, id: nat, chunk: Data)
    requires Consistent(l, f)
    ensures Consistent(l, Store(l, f, id, chunk).0)
  {
    hide Consistent;
    if id in f.buffers || |f.buffers| < l.maxPackets {
      BeginConsistent(l, f, id);
      if f.total + |chunk| <= l.maxBytes {
        GrowConsistent(l, Begin(f, id), id, chunk);
      }
    }
  }

  lemma TakeConsistent(l: Limits, f: Fragments, id: nat, tail: Data)
    requires Consistent(l, f)
    ensures Consistent(l, Take(f, id, tail).0)
    ensures id in f.buffers ==> Take(f, id, tail).1 == Concat(f.buffers[id]) + tail
  {
    if id in f.buffers {
      SumWithout(f.sizes, id);
      ConcatAppend(f.buffers[id], tail);
    }
  }

  datatype Operation = StoreOp(id: nat, chunk: Data) | TakeOp(id: nat, tail: Data) | ClearOp

  ghost function Operate(l: Limits, f: Fragments, op: Operation): (r: Fragments)
    requires Consistent(l, f)
    ensures Consistent(l, r)
  {
    match op
    case StoreOp(id, chunk) => StoreConsistent(l, f, id, chunk); Store(l, f, id, chunk).0
    case TakeOp(id, tail) => TakeConsistent(l, f, id, tail); Take(f, id, tail).0
    case ClearOp => NoFragments
  }

  /** The buffer after any operations, refused stores included. */
  ghost function OperateAll(l: Limits, ops: seq<Operation>): (r: Fragments)
    ensures Consistent(l, r)
    decreases |ops|
  {
    if ops == [] then NoFragments else Operate(l, OperateAll(l, ops[..|ops| - 1]), ops[|ops| - 1])
  }

  class FragmentBuffer {
    const limits: Limits
    var buffers: map<nat, seq<Data>>
    var sizes: map<nat, nat>
    var totalBytes: int

    ghost function View(): (f: Fragments)
      reads this
    {
      Fragments(buffers, sizes, totalBytes)
    }

    constructor (limits: Limits)
      ensures View() == NoFragments && this.limits == limits
    {
      this.limits := limits;
      buffers, sizes, totalBytes := map[], map[], 0;
    }

    method StoreChunk(id: nat, chunk: Data) returns (ok: bool)
      requires Consistent(limits, View())
      modifies this
      ensures View() == Store(limits, old(View()), id, chunk).0
      ensures ok == Store(limits, old(View()), id, chunk).1
    {
      if id !in buffers && |buffers| >= limits.maxPackets {
        return false;
      }
      OpenBuffer(id);
      if totalBytes + |chunk| > limits.maxBytes {
        return false;
      }
      AppendChunk(id, chunk);
      ok := true;
    }

    method OpenBuffer(id: nat)
      requires id in buffers ==> id in sizes
      modifies this`buffers, this`sizes
      ensures View() == Begin(old(View()), id) && id in buffers && id in sizes
    {
      if id !in buffers {
        buffers := buffers[id := []];
        sizes := sizes[id := 0];
      }
    }

    method AppendChunk(id: nat, chunk: Data)
      requires id in buffers && id in sizes
      modifies this
      ensures View() == Grow(old(View()), id, chunk)
    {
      buffers := buffers[id := buffers[id] + [chunk]];
      sizes := sizes[id := sizes[id] + |chunk|];
      totalBytes := totalBytes + |chunk|;
    }

    method TakePacket(id: nat, tail: Data) returns (data: Data)
      requires Consistent(limits, View())
      modifies this
      ensures View() == Take(old(View()), id, tail).0 && data == Take(old(View()), id, tail).1
    {
      TakeConsistent(limits, View(), id, tail);
      if id !in buffers {
        return tail;
      }
      data := Concat(buffers[id] + [tail]);
      totalBytes := totalBytes - sizes[id];
      buffers := buffers - {id};
      sizes := sizes - {id};
    }

    method Clear()
      modifies this
      ensures View() == NoFragments
    {
      buffers, sizes, totalBytes := map[], map[], 0;
    }
  }
}
