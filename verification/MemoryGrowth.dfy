/**
 Runs in which the cache of the sender grows: past a window as soon as a batch of signatures is larger than
 the blocks of a window, and without any bound once it is more than twice as large.
 */
module MemoryGrowth {
  import opened Prelude
  import opened FileExchange
  import opened SenderMemory

  // ---------------------------------------------------------------- the bytes in the cache

  function Weight(c: Config, size: nat, x: nat): (n: nat)
    requires c.Valid()
    ensures n <= c.blockSize && (x + c.blockSize <= size ==> n == c.blockSize)
  {
    if x < size then Span(c, size, x) else 0
  }

  ghost function Held(c: Config, size: nat, kept: set<nat>): (n: nat)
    requires c.Valid()
    decreases |kept|
  {
    if kept == {} then 0 else var x :| x in kept; Weight(c, size, x) + Held(c, size, kept - {x})
  }

  lemma OneMore(n: nat, b: nat)
    ensures (n + 1) * b == n * b + b
  {
  }

  lemma Picked(c: Config, size: nat, kept: set<nat>) returns (x: nat)
    requires c.Valid() && kept != {}
    ensures x in kept && Held(c, size, kept) == Weight(c, size, x) + Held(c, size, kept - {x})
  {
    x :| x in kept && Held(c, size, kept) == Weight(c, size, x) + Held(c, size, kept - {x});
  }

  lemma {:induction false} HeldAtMost(c: Config, size: nat, kept: set<nat>)
    requires c.Valid()
    ensures Held(c, size, kept) <= |kept| * c.blockSize
    decreases |kept|
  {
    if kept != {} {
      var x := Picked(c, size, kept);
      HeldAtMost(c, size, kept - {x});
      OneMore(|kept - {x}|, c.blockSize);
    }
  }

  lemma {:induction false} HeldAtLeast(c: Config, size: nat, kept: set<nat>, some: set<nat>)
    requires c.Valid() && some <= kept && forall x | x in some :: x + c.blockSize <= size
    ensures Held(c, size, kept) >= |some| * c.blockSize
    decreases |kept|
  {
    hide Held, Weight;
    if kept != {} {
      var x := Picked(c, size, kept);
      HeldAtLeast(c, size, kept - {x}, some - {x});
      if x in some {
        OneMore(|some - {x}|, c.blockSize);
      } else {
        assert some - {x} == some;
      }
    }
  }

  /** The sum does not depend on the order in which blocks are taken. */
  lemma {:induction false} HeldWithout(c: Config, size: nat, kept: set<nat>, x: nat)
    requires c.Valid() && x in kept
    ensures Held(c, size, kept) == Weight(c, size, x) + Held(c, size, kept - {x})
    decreases |kept|
  {
    hide Held, Weight;
    var y := Picked(c, size, kept);
    if y != x {
      HeldWithout(c, size, kept - {y}, x);
      HeldWithout(c, size, kept - {x}, y);
      assert kept - {y} - {x} == kept - {x} - {y};
    }
  }

  /** The bytes that a cache of blocks takes. */
  ghost function CacheBytes(cache: map<nat, Data>): (n: nat)
    decreases |cache.Keys|
  {
    if cache == map[] then 0 else var x :| x in cache; |cache[x]| + CacheBytes(cache - {x})
  }

  lemma PickedCached(cache: map<nat, Data>) returns (x: nat)
    requires cache != map[]
    ensures x in cache && CacheBytes(cache) == |cache[x]| + CacheBytes(cache - {x})
  {
    x :| x in cache && CacheBytes(cache) == |cache[x]| + CacheBytes(cache - {x});
  }

  /** Where every cached block is as long as the block at its offset, the cache takes what its offsets hold. */
  lemma {:induction false} CacheBytesAreHeld(c: Config, size: nat, cache: map<nat, Data>)
    requires c.Valid() && forall k | k in cache :: |cache[k]| == Weight(c, size, k)
    ensures CacheBytes(cache) == Held(c, size, cache.Keys)
    decreases |cache.Keys|
  {
    hide CacheBytes, Weight;
    if cache == map[] {
      NothingCached();
    } else {
      var x := PickedCached(cache);
      assert (cache - {x}).Keys == cache.Keys - {x};
      CacheBytesAreHeld(c, size, cache - {x});
      HeldWithout(c, size, cache.Keys, x);
    }
  }

  lemma NothingCached()
    ensures CacheBytes(map[]) == 0
  {
  }

  // ---------------------------------------------------------------- whole blocks in order

  predicate Full(c: Config, blocks: seq<Block>) { forall i | 0 <= i < |blocks| :: blocks[i].length == c.blockSize }

  predicate Spread(blocks: seq<Block>) { forall i, j | 0 <= i < j < |blocks| :: blocks[i].offset < blocks[j].offset }

  predicate Before(blocks: seq<Block>, at: nat) { forall i | 0 <= i < |blocks| :: blocks[i].offset < at && blocks[i].offset + blocks[i].length <= at }

  predicate From(blocks: seq<Block>, at: nat) { forall i | 0 <= i < |blocks| :: at <= blocks[i].offset }

  lemma SpreadJoin(a: seq<Block>, b: seq<Block>, at: nat)
    requires Spread(a) && Spread(b) && Before(a, at) && From(b, at)
    ensures Spread(a + b)
  {
  }

  lemma {:induction false} SpreadCount(blocks: seq<Block>)
    requires Spread(blocks)
    ensures |Offsets(blocks)| == |blocks|
    decreases |blocks|
  {
    if blocks == [] {
      assert Offsets(blocks) == {};
    } else {
      var n := |blocks| - 1;
      SpreadCount(blocks[..n]);
      assert Offsets(blocks) == Offsets(blocks[..n]) + {blocks[n].offset};
      assert blocks[n].offset !in Offsets(blocks[..n]);
    }
  }

  lemma SpreadApart(blocks: seq<Block>, n: nat, m: nat)
    requires Spread(blocks) && n <= m <= |blocks|
    ensures Offsets(blocks[..n]) !! Offsets(blocks[m..]) && Spread(blocks[n..])
  {
    forall x | x in Offsets(blocks[..n]) ensures x !in Offsets(blocks[m..]) {
      var i :| 0 <= i < n && blocks[..n][i].offset == x;
      forall j | 0 <= j < |blocks| - m ensures blocks[m..][j].offset != x { assert blocks[i].offset < blocks[m + j].offset; }
    }
    forall i, j | 0 <= i < j < |blocks[n..]| ensures blocks[n..][i].offset < blocks[n..][j].offset {
      assert blocks[n + i].offset < blocks[n + j].offset;
    }
  }

  lemma {:induction false} SignedFull(c: Config, size: nat, at: nat, limit: nat, span: nat)
    requires c.Valid() && span == limit * c.blockSize && at + span <= size
    ensures var end := SignEnd(c, size, at, limit);
            var blocks := BlocksOf(c, size, at, end);
            && end == at + span && |blocks| == limit && Full(c, blocks) && Spread(blocks) && From(blocks, at) && Before(blocks, end)
    decreases limit
  {
    if limit > 0 {
      OneMore(limit - 1, c.blockSize);
      var next := at + c.blockSize;
      assert Span(c, size, at) == c.blockSize;
      SignedFull(c, size, next, limit - 1, span - c.blockSize);
      var end := SignEnd(c, size, next, limit - 1);
      var rest := BlocksOf(c, size, next, end);
      FirstBlock(c, size, at, end);
      hide SignEnd, BlocksOf;
      SpreadJoin([Block(at, c.blockSize)], rest, next);
    }
  }

  lemma FirstBlock(c: Config, size: nat, at: nat, end: nat)
    requires c.Valid() && at + c.blockSize <= end <= size
    ensures BlocksOf(c, size, at, end) == [Block(at, c.blockSize)] + BlocksOf(c, size, at + c.blockSize, end)
  {
  }

  lemma {:induction false} FillAtMost(c: Config, requests: seq<Block>, k: nat, total: nat)
    requires c.Valid() && Full(c, requests) && total == k * c.blockSize && k <= PerWindow(c)
    ensures Fill(c, requests, total, k > 0) <= PerWindow(c) - k
    decreases |requests|
  {
    if requests != [] {
      assert (k + 1) * c.blockSize == total + c.blockSize;
      if k == PerWindow(c) {
        WindowOfBlocks(c);
      } else {
        assert forall i | 0 <= i < |requests[1..]| :: requests[1..][i] == requests[i + 1];
        hide PerWindow;
        FillAtMost(c, requests[1..], k + 1, total + c.blockSize);
      }
    }
  }

  lemma FillFull(c: Config, requests: seq<Block>)
    requires c.Valid() && Full(c, requests)
    ensures Fill(c, requests, 0, false) == Min(|requests|, PerWindow(c))
  {
    hide Fill;
    FillAtLeast(c, requests, 0, 0, 0);
    FillAtMost(c, requests, 0, 0);
  }

  // ---------------------------------------------------------------- answers that are all alike

  function Same(n: nat, b: bool): (flags: seq<bool>)
    ensures |flags| == n && forall i | 0 <= i < n :: flags[i] == b
  {
    seq(n, _ => b)
  }

  lemma {:induction false} RejectedSame(sent: seq<Block>, b: bool)
    ensures Rejected(sent, Same(|sent|, b)) == if b then [] else sent
    ensures Matched(sent, Same(|sent|, false)) == {}
    decreases |sent|
  {
    if sent != [] {
      assert Same(|sent|, b)[1..] == Same(|sent[1..]|, b);
      RejectedSame(sent[1..], b);
      assert sent == [sent[0]] + sent[1..];
    }
  }

  // ---------------------------------------------------------------- the states of the run

  /** Blocks asked for, blocks signed and not answered, all whole and in order. */
  ghost predicate Orderly(c: Config, m: Memory) {
    var all := m.s.requests + m.s.sent;
    Full(c, all) && Spread(all) && Before(all, m.s.offset)
  }

  /** The window's worth of signed blocks is cached, and so are the last `q` of the `r` blocks asked for. */
  ghost predicate Ready(c: Config, m: Memory, r: nat, q: nat)
    requires c.Valid()
  {
    && Orderly(c, m) && !m.s.matching && |m.s.sent| == PerWindow(c) && |m.s.requests| == r && q <= r
    && Offsets((m.s.requests + m.s.sent)[r - q..]) <= m.kept
  }

  /** A batch of signatures has run ahead. */
  ghost predicate Running(c: Config, m: Memory, r: nat)
    requires c.Valid()
  {
    Orderly(c, m) && m.s.matching && |m.s.sent| == c.signatureBatch && |m.s.requests| == r
  }

  /** The session after a message: what it sends, signs and keeps. */
  lemma Emitted(c: Config, source: Data, m: Memory, message: Message, n: nat, end: nat, blocks: seq<Block>)
    requires c.Valid() && m.s.offset <= |source| && Taken(m.s, message)
    requires var heard := Heard(m.s, message);
             && heard.sent == [] && n == Fill(c, heard.requests, 0, false) && end == SignEnd(c, |source|, heard.offset, Ahead(c, heard.matching))
             && blocks == BlocksOf(c, |source|, heard.offset, end)
    ensures var heard, d := Heard(m.s, message), Step(c, source, m, message);
            && d.s.requests == heard.requests[n..] && d.s.sent == blocks && d.s.offset == end && d.s.matching == heard.matching
            && d.kept == (if message.Decisions? then m.kept - Matched(m.s.sent, message.flags) else m.kept)
                         - Offsets(heard.requests[..n]) + if heard.matching then {} else Offsets(blocks)
  {
    hide Fill, SignEnd, BlocksOf, SignaturesOf, Rejected, Matched, Offsets, Ahead;
    assert [] + blocks == blocks;
  }

  /** The session after one message that it takes, when the source is long enough. */
  lemma Stepped(c: Config, source: Data, m: Memory, message: Message, limit: nat)
    requires c.Valid() && m.s.offset <= |source| && Taken(m.s, message)
    requires var heard := Heard(m.s, message);
             && Full(c, heard.requests) && Spread(heard.requests) && Before(heard.requests, m.s.offset) && heard.sent == []
             && limit == Ahead(c, heard.matching) && m.s.offset + limit * c.blockSize <= |source|
    ensures var heard, d := Heard(m.s, message), Step(c, source, m, message);
            var n := Min(|heard.requests|, PerWindow(c));
            && Orderly(c, d) && d.s.matching == heard.matching && |d.s.sent| == limit && d.s.requests == heard.requests[n..]
            && d.s.offset == m.s.offset + limit * c.blockSize
            && d.kept == (if message.Decisions? then m.kept - Matched(m.s.sent, message.flags) else m.kept)
                         - Offsets(heard.requests[..n]) + if heard.matching then {} else Offsets(d.s.sent)
  {
    hide Fill, SignEnd, BlocksOf, Matched, PerWindow, Offsets, Ahead, Step, Full, Spread, Before, From;
    var heard := Heard(m.s, message);
    FillFull(c, heard.requests);
    SignedFull(c, |source|, heard.offset, limit, limit * c.blockSize);
    var n := Min(|heard.requests|, PerWindow(c));
    var end := SignEnd(c, |source|, heard.offset, limit);
    var blocks := BlocksOf(c, |source|, heard.offset, end);
    Emitted(c, source, m, message, n, end, blocks);
    Continues(c, heard.requests, n, blocks, heard.offset, end);
  }

  lemma Continues(c: Config, requests: seq<Block>, n: nat, blocks: seq<Block>, at: nat, end: nat)
    requires n <= |requests| && Full(c, requests) && Spread(requests) && Before(requests, at) && at <= end
    requires Full(c, blocks) && Spread(blocks) && From(blocks, at) && Before(blocks, end)
    ensures var all := requests[n..] + blocks; Full(c, all) && Spread(all) && Before(all, end)
  {
    var left := requests[n..];
    SpreadApart(requests, n, n);
    forall i | 0 <= i < |left| ensures left[i].length == c.blockSize && left[i].offset < at && left[i].offset + left[i].length <= at { assert left[i] == requests[n + i]; }
    SpreadJoin(left, blocks, at);
  }

  lemma Starts(c: Config, source: Data)
    requires c.Valid() && PerWindow(c) * c.blockSize <= |source|
    ensures var m := After(c, source, []);
            m.Some? && Ready(c, m.value, 0, 0) && m.value.s.offset == PerWindow(c) * c.blockSize
  {
    hide Kept, Emit;
    var m := Memory(NewSender, {});
    AheadIs(c);
    Stepped(c, source, m, Start, PerWindow(c));
    var d := Step(c, source, m, Start);
    assert (d.s.requests + d.s.sent)[0..] == d.s.sent;
    assert d.kept == Offsets(d.s.sent) by { assert {} - Offsets([]) + Offsets(d.s.sent) == Offsets(d.s.sent); }
  }

  /** All signed blocks differ: they are asked for, and as many go out. */
  lemma Refused(c: Config, source: Data, m: Memory, r: nat, q: nat)
    requires c.Valid() && Ready(c, m, r, q) && m.s.offset + PerWindow(c) * c.blockSize <= |source|
    ensures var message := Decisions(Same(PerWindow(c), false));
            && Taken(m.s, message)
            && (var d := Step(c, source, m, message);
                Ready(c, d, r, Min(r, q + PerWindow(c))) && d.s.offset == m.s.offset + PerWindow(c) * c.blockSize)
  {
    hide Kept, Emit, PerWindow, Offsets;
    var a := PerWindow(c);
    var flags := Same(a, false);
    var all := m.s.requests + m.s.sent;
    RejectedSame(m.s.sent, false);
    assert !All(flags) by { assert !flags[0]; }
    AheadIs(c);
    Stepped(c, source, m, Decisions(flags), a);
    var d := Step(c, source, m, Decisions(flags));
    assert d.s.requests == all[a..];
    Suffix(all, d.s.sent, a, r, q, m.kept);
    assert m.kept - {} == m.kept;
  }

  /** The cached end of the queue after a window of blocks left at its front. */
  lemma Suffix(all: seq<Block>, more: seq<Block>, a: nat, r: nat, q: nat, kept: set<nat>)
    requires Spread(all) && |all| == r + a && q <= r && Offsets(all[r - q..]) <= kept
    ensures Offsets((all[a..] + more)[r - Min(r, q + a)..]) <= kept - Offsets(all[..a]) + Offsets(more)
  {
    var k := r - Min(r, q + a);
    var rest := all[a + k..];
    assert (all[a..] + more)[k..] == rest + more;
    OffsetsJoin(rest, more);
    SpreadApart(all, a, a + k);
    assert all[r - q..] == all[r - q..a + k] + rest;
    OffsetsJoin(all[r - q..a + k], rest);
  }

  /** All signed blocks match: nothing is cached any more for them, and a batch of signatures runs ahead. */
  lemma AllMatch(c: Config, source: Data, m: Memory, r: nat, q: nat)
    requires c.Valid() && Ready(c, m, r, q) && m.s.offset + c.signatureBatch * c.blockSize <= |source|
    ensures var message := Decisions(Same(PerWindow(c), true));
            && Taken(m.s, message)
            && (var d := Step(c, source, m, message);
                Running(c, d, r - Min(r, PerWindow(c))) && d.s.offset == m.s.offset + c.signatureBatch * c.blockSize)
  {
    hide Kept, Emit, PerWindow, Offsets, Matched;
    var a := PerWindow(c);
    var flags := Same(a, true);
    RejectedSame(m.s.sent, true);
    assert All(flags) && flags != [];
    assert m.s.requests + [] == m.s.requests;
    Front(c, m);
    AheadIs(c);
    Stepped(c, source, m, Decisions(flags), c.signatureBatch);
  }

  lemma Front(c: Config, m: Memory)
    requires Orderly(c, m)
    ensures Full(c, m.s.requests) && Spread(m.s.requests) && Before(m.s.requests, m.s.offset)
  {
    var all := m.s.requests + m.s.sent;
    assert forall i | 0 <= i < |m.s.requests| :: m.s.requests[i] == all[i];
  }

  /** A whole batch of signatures differs: it is asked for, and one window of it goes out. */
  lemma BatchRefused(c: Config, source: Data, m: Memory, r: nat)
    requires c.Valid() && PerWindow(c) < c.signatureBatch && Running(c, m, r) && m.s.offset + PerWindow(c) * c.blockSize <= |source|
    ensures var message := Decisions(Same(c.signatureBatch, false));
            && Taken(m.s, message)
            && (var d := Step(c, source, m, message);
                Ready(c, d, r + c.signatureBatch - PerWindow(c), 0) && d.s.offset == m.s.offset + PerWindow(c) * c.blockSize)
  {
    hide Kept, Emit, PerWindow, Offsets;
    var flags := Same(c.signatureBatch, false);
    RejectedSame(m.s.sent, false);
    assert !All(flags) by { assert !flags[0]; }
    AheadIs(c);
    Stepped(c, source, m, Decisions(flags), PerWindow(c));
    var d := Step(c, source, m, Decisions(flags));
    assert (d.s.requests + d.s.sent)[|d.s.requests|..] == d.s.sent;
  }

  // ---------------------------------------------------------------- the runs

  /** More than any two steps sign. */
  function Stride(c: Config): (n: nat)
    requires c.Valid()
    ensures 2 * (PerWindow(c) * c.blockSize) <= n && PerWindow(c) * c.blockSize + c.signatureBatch * c.blockSize <= n
  {
    2 * (PerWindow(c) * c.blockSize) + c.signatureBatch * c.blockSize
  }

  lemma Next(c: Config, source: Data, answers: seq<seq<bool>>, m: Memory, flags: seq<bool>)
    requires c.Valid() && After(c, source, answers) == Some(m) && Taken(m.s, Decisions(flags))
    ensures After(c, source, answers + [flags]) == Some(Step(c, source, m, Decisions(flags)))
  {
    hide Step;
    assert (answers + [flags])[..|answers|] == answers;
  }

  /** One batch that matches, then one that differs. */
  lemma Cycle(c: Config, source: Data, answers: seq<seq<bool>>, m: Memory, r: nat, q: nat) returns (longer: seq<seq<bool>>, d: Memory)
    requires c.Valid() && PerWindow(c) < c.signatureBatch && After(c, source, answers) == Some(m) && Ready(c, m, r, q)
    requires m.s.offset + Stride(c) <= |source|
    ensures After(c, source, longer) == Some(d) && Ready(c, d, r - Min(r, PerWindow(c)) + c.signatureBatch - PerWindow(c), 0)
    ensures d.s.offset <= m.s.offset + Stride(c)
  {
    hide Ready, Running, Step, PerWindow;
    var yes, no := Same(PerWindow(c), true), Same(c.signatureBatch, false);
    AllMatch(c, source, m, r, q);
    Next(c, source, answers, m, yes);
    var m1 := Step(c, source, m, Decisions(yes));
    BatchRefused(c, source, m1, r - Min(r, PerWindow(c)));
    Next(c, source, answers + [yes], m1, no);
    longer, d := answers + [yes] + [no], Step(c, source, m1, Decisions(no));
  }

  /** Batches that differ: what is asked for is replaced, block by block, by what is cached. */
  lemma {:induction false} Convert(c: Config, source: Data, answers: seq<seq<bool>>, m: Memory, r: nat, q: nat, room: nat)
    returns (longer: seq<seq<bool>>, d: Memory)
    requires c.Valid() && After(c, source, answers) == Some(m) && Ready(c, m, r, q)
    requires room == (r - q) * Stride(c) && m.s.offset + room <= |source|
    ensures After(c, source, longer) == Some(d) && Ready(c, d, r, r)
    decreases r - q
  {
    hide Ready, Step, PerWindow, Stride;
    longer, d := answers, m;
    ReadyBound(c, m, r, q);
    if q < r {
      OneMore(r - q - 1, Stride(c));
      var no := Same(PerWindow(c), false);
      Refused(c, source, m, r, q);
      Next(c, source, answers, m, no);
      var m1 := Step(c, source, m, Decisions(no));
      var q1 := Min(r, q + PerWindow(c));
      Multiply(r - q1, r - q - 1, Stride(c));
      longer, d := Convert(c, source, answers + [no], m1, r, q1, (r - q1) * Stride(c));
    }
  }

  lemma ReadyBound(c: Config, m: Memory, r: nat, q: nat)
    requires c.Valid() && Ready(c, m, r, q)
    ensures q <= r
  {
  }

  lemma {:induction false} Cycles(c: Config, source: Data, k: nat, room: nat) returns (answers: seq<seq<bool>>, m: Memory, r: nat)
    requires c.Valid() && 2 * PerWindow(c) < c.signatureBatch && room == (k + 1) * Stride(c) && room <= |source|
    ensures After(c, source, answers) == Some(m) && Ready(c, m, r, 0) && m.s.offset <= room
    ensures k <= r <= k * c.signatureBatch
    decreases k
  {
    hide Ready, Step, PerWindow, Stride, After;
    OneMore(k, Stride(c));
    if k == 0 {
      Starts(c, source);
      answers, m, r := [], After(c, source, []).value, 0;
    } else {
      var before, m0, r0 := Cycles(c, source, k - 1, room - Stride(c));
      answers, m := Cycle(c, source, before, m0, r0, 0);
      r := r0 - Min(r0, PerWindow(c)) + c.signatureBatch - PerWindow(c);
      OneMore(k - 1, c.signatureBatch);
    }
  }

  /** The cache holds the signed blocks and those asked for that were cached. */
  lemma HeldWhenReady(c: Config, source: Data, m: Memory, r: nat, q: nat)
    requires c.Valid() && Ready(c, m, r, q) && m.s.offset <= |source|
    ensures Held(c, |source|, m.kept) >= (q + PerWindow(c)) * c.blockSize
  {
    hide PerWindow;
    var all := m.s.requests + m.s.sent;
    SpreadApart(all, r - q, r - q);
    SpreadCount(all[r - q..]);
    var cached := Offsets(all[r - q..]);
    forall x | x in cached ensures x + c.blockSize <= |source| {
      var i :| 0 <= i < |all[r - q..]| && all[r - q..][i].offset == x;
      assert all[r - q..][i] == all[r - q + i];
    }
    HeldAtLeast(c, |source|, m.kept, cached);
  }

  /** Past every bound, when a batch of signatures is more than twice the blocks of a window. */
  lemma CacheOutgrows(c: Config, bound: nat) returns (source: Data, answers: seq<seq<bool>>)
    requires c.Valid() && 2 * PerWindow(c) < c.signatureBatch
    ensures var m := After(c, source, answers); m.Some? && Held(c, |source|, m.value.kept) > bound
  {
    hide Ready, Step, PerWindow, Stride, Held;
    var k, w := bound, Stride(c);
    var first, second := (k + 1) * w, (k * c.signatureBatch) * w;
    source := seq(first + second, _ => 0);
    var before, m, r := Cycles(c, source, k, first);
    Multiply(r, k * c.signatureBatch, w);
    var d;
    answers, d := Convert(c, source, before, m, r, 0, r * w);
    HeldWhenReady(c, source, d, r, r);
    Enough(bound, r + PerWindow(c), c.blockSize);
  }

  lemma Enough(bound: nat, blocks: nat, size: nat)
    requires bound < blocks && 0 < size
    ensures blocks * size > bound
  {
  }

  /** Past one window, as soon as a batch of signatures is larger than the blocks of a window. */
  lemma CacheExceedsWindow(c: Config) returns (source: Data, answers: seq<seq<bool>>)
    requires c.Valid() && PerWindow(c) < c.signatureBatch
    ensures var m := After(c, source, answers); m.Some? && Held(c, |source|, m.value.kept) > Max(c.window, c.blockSize)
  {
    hide Ready, Step, PerWindow, Held;
    source := seq(3 * Stride(c), _ => 0);
    Starts(c, source);
    var m0 := After(c, source, []).value;
    var before, m := Cycle(c, source, [], m0, 0, 0);
    var r := c.signatureBatch - PerWindow(c);
    var no := Same(PerWindow(c), false);
    Refused(c, source, m, r, 0);
    Next(c, source, before, m, no);
    answers := before + [no];
    var d := Step(c, source, m, Decisions(no));
    var q := Min(r, 0 + PerWindow(c));
    HeldWhenReady(c, source, d, r, q);
    Multiply(PerWindow(c) + 1, q + PerWindow(c), c.blockSize);
    WindowOfBlocks(c);
  }

  // ---------------------------------------------------------------- exactly when

  /** The cache never holds more than `bound` bytes, whatever the file and the answers. */
  ghost predicate Within(c: Config, bound: nat)
    requires c.Valid()
  {
    forall source, answers :: After(c, source, answers).Some? ==> Held(c, |source|, After(c, source, answers).value.kept) <= bound
  }

  /**
   The documented bound, exactly: the sender caches at most one window, or one block if that is larger, if
   and only if a batch of signatures is at most the blocks of a window.
   */
  lemma WindowHoldsExactlyWhen(c: Config)
    requires c.Valid()
    ensures Within(c, Max(c.window, c.blockSize)) <==> c.signatureBatch <= PerWindow(c)
  {
    hide After, Held;
    if c.signatureBatch <= PerWindow(c) {
      forall source, answers | After(c, source, answers).Some?
        ensures Held(c, |source|, After(c, source, answers).value.kept) <= Max(c.window, c.blockSize)
      {
        BoundedBytes(c, source, answers);
        WindowOfBlocks(c);
      }
    } else {
      var source, answers := CacheExceedsWindow(c);
    }
  }

  lemma BoundedBytes(c: Config, source: Data, answers: seq<seq<bool>>)
    requires c.Valid() && c.signatureBatch <= 2 * PerWindow(c) && After(c, source, answers).Some?
    ensures Held(c, |source|, After(c, source, answers).value.kept) <= Max(PerWindow(c), c.signatureBatch) * c.blockSize
  {
    hide After, Held, PerWindow;
    CacheIsBounded(c, source, answers);
    var kept := After(c, source, answers).value.kept;
    HeldAtMost(c, |source|, kept);
    Multiply(|kept|, Max(PerWindow(c), c.signatureBatch), c.blockSize);
  }

  /**
   Any bound at all, exactly: the cache is bounded independently of the file if and only if a batch of
   signatures is at most twice the blocks of a window; it then holds at most the larger of the two, in blocks.
   */
  lemma BoundedExactlyWhen(c: Config)
    requires c.Valid()
    ensures (exists bound: nat :: Within(c, bound)) <==> c.signatureBatch <= 2 * PerWindow(c)
    ensures c.signatureBatch <= 2 * PerWindow(c) ==> Within(c, Max(PerWindow(c), c.signatureBatch) * c.blockSize)
  {
    hide After, Held, PerWindow;
    if c.signatureBatch <= 2 * PerWindow(c) {
      forall source, answers | After(c, source, answers).Some?
        ensures Held(c, |source|, After(c, source, answers).value.kept) <= Max(PerWindow(c), c.signatureBatch) * c.blockSize
      {
        BoundedBytes(c, source, answers);
      }
      assert Within(c, Max(PerWindow(c), c.signatureBatch) * c.blockSize);
    } else {
      forall bound: nat ensures !Within(c, bound) { var source, answers := CacheOutgrows(c, bound); }
    }
  }

  /** The constants of the repository with its default block of 4 MiB: no bound holds. */
  lemma DefaultsAreUnbounded(hash: Data -> Digest, seal: seq<Digest> -> Digest)
    ensures var c := Config(4 * 1024 * 1024, 8 * 1024 * 1024, 64, hash, seal);
            c.Valid() && !exists bound: nat :: Within(c, bound)
  {
    hide Within;
    var c := Config(4 * 1024 * 1024, 8 * 1024 * 1024, 64, hash, seal);
    BoundedExactlyWhen(c);
  }
}
