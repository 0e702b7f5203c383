/**
 How much content the sender of a file exchange keeps in memory. The documentation promises one window;
 what holds depends on how the batch of signatures compares with the blocks that fit a window.
 */
module SenderMemory {
  import opened Prelude
  import opened FileExchange

  // ---------------------------------------------------------------- which blocks are cached

  function Offsets(blocks: seq<Block>): (r: set<nat>) { set i | 0 <= i < |blocks| :: blocks[i].offset }

  function Matched(sent: seq<Block>, flags: seq<bool>): (r: set<nat>)
    requires |sent| == |flags|
  {
    set i | 0 <= i < |sent| && flags[i] :: sent[i].offset
  }

  /** A message that `send` takes. */
  predicate Taken(s: Sender, m: Message) {
    match m
    case Start => s.sent == []
    case Decisions(flags) => |flags| == |s.sent|
    case Batch(_, _, _) => false
  }

  function Heard(s: Sender, m: Message): (r: Sender)
    requires Taken(s, m)
  {
    if m.Decisions? then Answered(s, m.flags) else s
  }

  /** The offsets of the cached blocks after a message: matched and sent ones go, newly signed ones come unless all matched. */
  function Kept(c: Config, size: nat, s: Sender, kept: set<nat>, m: Message): (r: set<nat>)
    requires c.Valid() && s.offset <= size && Taken(s, m)
  {
    var heard := Heard(s, m);
    var left := (if m.Decisions? then kept - Matched(s.sent, m.flags) else kept)
                - Offsets(heard.requests[..Fill(c, heard.requests, 0, false)]);
    left + if heard.matching then {} else Offsets(BlocksOf(c, size, heard.offset, SignEnd(c, size, heard.offset, Ahead(c, heard.matching))))
  }

  /** The sender with its cache. */
  datatype Memory = Memory(s: Sender, kept: set<nat>)

  function Step(c: Config, source: Data, m: Memory, message: Message): (r: Memory)
    requires c.Valid() && m.s.offset <= |source| && Taken(m.s, message)
    ensures r.s.offset <= |source|
  {
    Memory(Emit(c, source, Heard(m.s, message)).0, Kept(c, |source|, m.s, m.kept, message))
  }

  /** The session after its first message and any answers, or None when an answer has another length than asked. */
  function After(c: Config, source: Data, answers: seq<seq<bool>>): (r: Option<Memory>)
    requires c.Valid()
    ensures r.Some? ==> r.value.s.offset <= |source|
    decreases |answers|
  {
    if answers == [] then Some(Step(c, source, Memory(NewSender, {}), Start))
    else
      var before := After(c, source, answers[..|answers| - 1]);
      var last := Decisions(answers[|answers| - 1]);
      if before.None? || !Taken(before.value.s, last) then None else Some(Step(c, source, before.value, last))
  }

  /** It is `send` that runs. */
  lemma StepIsSend(c: Config, source: Data, m: Memory, message: Message)
    requires c.Valid() && m.s.offset <= |source| && Taken(m.s, message)
    ensures Send(c, source, m.s, message).0 == Step(c, source, m, message).s && Send(c, source, m.s, message).1.Reply?
  {
  }

  // ---------------------------------------------------------------- counting

  /** The blocks that fit one window, at least one. */
  function PerWindow(c: Config): (n: nat)
    requires c.Valid()
    ensures n > 0
  {
    Max(1, c.window / c.blockSize)
  }

  lemma WindowOfBlocks(c: Config)
    requires c.Valid()
    ensures PerWindow(c) * c.blockSize <= Max(c.window, c.blockSize) < (PerWindow(c) + 1) * c.blockSize
  {
    var q := c.window / c.blockSize;
    assert c.window == q * c.blockSize + c.window % c.blockSize;
    if q == 0 { assert c.window < c.blockSize; }
  }

  lemma {:induction false} OffsetsCount(blocks: seq<Block>)
    ensures |Offsets(blocks)| <= |blocks|
    decreases |blocks|
  {
    if blocks != [] {
      var n := |blocks| - 1;
      OffsetsCount(blocks[..n]);
      assert Offsets(blocks) == Offsets(blocks[..n]) + {blocks[n].offset};
    } else {
      assert Offsets(blocks) == {};
    }
  }

  predicate Short(c: Config, blocks: seq<Block>) { forall i | 0 <= i < |blocks| :: blocks[i].length <= c.blockSize }

  lemma ShortTail(c: Config, blocks: seq<Block>, n: nat)
    requires Short(c, blocks) && n <= |blocks|
    ensures Short(c, blocks[n..])
  {
    forall i | 0 <= i < |blocks[n..]| ensures blocks[n..][i].length <= c.blockSize { assert blocks[n..][i] == blocks[n + i]; }
  }

  lemma ShortJoin(c: Config, a: seq<Block>, b: seq<Block>)
    requires Short(c, a) && Short(c, b)
    ensures Short(c, a + b)
  {
  }

  /** A block after `k` others still fits the window. */
  lemma OneMoreFits(c: Config, k: nat)
    requires c.Valid() && 0 < k < PerWindow(c)
    ensures k * c.blockSize + c.blockSize <= c.window
  {
    var q := c.window / c.blockSize;
    assert c.window >= q * c.blockSize;
    Multiply(k + 1, q, c.blockSize);
    assert (k + 1) * c.blockSize == k * c.blockSize + c.blockSize;
  }

  lemma Multiply(a: nat, b: nat, n: nat)
    requires a <= b
    ensures a * n <= b * n
  {
  }

  /** A message carries as many requested blocks as fit a window, or all of them. */
  lemma {:induction false} FillAtLeast(c: Config, requests: seq<Block>, total: nat, k: nat, cap: nat)
    requires c.Valid() && Short(c, requests) && total <= cap && cap == k * c.blockSize && k <= PerWindow(c)
    ensures Fill(c, requests, total, k > 0) >= Min(|requests|, PerWindow(c) - k)
    decreases |requests|
  {
    if requests != [] && k < PerWindow(c) {
      if k > 0 { OneMoreFits(c, k); }
      assert (k + 1) * c.blockSize == cap + c.blockSize;
      ShortTail(c, requests, 1);
      hide PerWindow;
      FillAtLeast(c, requests[1..], total + requests[0].length, k + 1, cap + c.blockSize);
    }
  }

  lemma {:induction false} SignedBlocks(c: Config, size: nat, at: nat, limit: nat)
    requires c.Valid() && at <= size
    ensures var bs := BlocksOf(c, size, at, SignEnd(c, size, at, limit)); |bs| <= limit && Short(c, bs)
    decreases limit
  {
    if limit > 0 && at < size {
      var next := at + Span(c, size, at);
      SignedBlocks(c, size, next, limit - 1);
      var rest := BlocksOf(c, size, next, SignEnd(c, size, next, limit - 1));
      assert BlocksOf(c, size, at, SignEnd(c, size, at, limit)) == [Block(at, Span(c, size, at))] + rest;
    }
  }

  lemma {:induction false} RejectedShort(c: Config, sent: seq<Block>, flags: seq<bool>)
    requires |sent| == |flags| && Short(c, sent)
    ensures Short(c, Rejected(sent, flags)) && (All(flags) ==> Rejected(sent, flags) == [])
    ensures Offsets(sent) <= Matched(sent, flags) + Offsets(Rejected(sent, flags))
    decreases |sent|
  {
    if sent != [] {
      ShortTail(c, sent, 1);
      RejectedShort(c, sent[1..], flags[1..]);
      if All(flags) { assert forall i :: 0 <= i < |flags[1..]| ==> flags[1..][i] == flags[i + 1]; }
      ShortJoin(c, if flags[0] then [] else [sent[0]], Rejected(sent[1..], flags[1..]));
    }
    forall x | x in Offsets(sent) ensures x in Matched(sent, flags) + Offsets(Rejected(sent, flags)) {
      var i :| 0 <= i < |sent| && sent[i].offset == x;
      if !flags[i] { RejectedIn(sent, flags, i); }
    }
  }

  lemma {:induction false} RejectedIn(sent: seq<Block>, flags: seq<bool>, i: nat)
    requires |sent| == |flags| && i < |sent| && !flags[i]
    ensures sent[i].offset in Offsets(Rejected(sent, flags))
    decreases i
  {
    var head := if flags[0] then [] else [sent[0]];
    OffsetsJoin(head, Rejected(sent[1..], flags[1..]));
    if i == 0 { assert head[0] == sent[0]; } else { RejectedIn(sent[1..], flags[1..], i - 1); }
  }

  lemma OffsetsJoin(a: seq<Block>, b: seq<Block>)
    ensures Offsets(a + b) == Offsets(a) + Offsets(b)
  {
    forall x | x in Offsets(a) + Offsets(b) ensures x in Offsets(a + b) {
      if x in Offsets(a) {
        var i :| 0 <= i < |a| && a[i].offset == x;
        assert (a + b)[i] == a[i];
      } else {
        var i :| 0 <= i < |b| && b[i].offset == x;
        assert (a + b)[|a| + i] == b[i];
      }
    }
    forall x | x in Offsets(a + b) ensures x in Offsets(a) + Offsets(b) {
      var i :| 0 <= i < |a + b| && (a + b)[i].offset == x;
      assert i < |a| ==> a[i].offset == x;
      assert i >= |a| ==> b[i - |a|].offset == x;
    }
  }

  // ---------------------------------------------------------------- the bound that holds

  /** What is left over when a batch of signatures is larger than a window of blocks. */
  function Surplus(c: Config): (n: nat)
    requires c.Valid()
  {
    Max(0, c.signatureBatch - PerWindow(c))
  }

  /** How many blocks are asked for, signed and cached, between two messages. */
  ghost predicate Bounded(c: Config, m: Memory)
    requires c.Valid()
  {
    && Short(c, m.s.requests) && Short(c, m.s.sent)
    && |m.s.sent| <= (if m.s.matching then c.signatureBatch else PerWindow(c))
    && |m.s.requests| <= (if m.s.matching then 0 else Surplus(c))
    && m.kept <= Offsets(m.s.requests) + if m.s.matching then {} else Offsets(m.s.sent)
  }

  /** After the answers, before anything is sent. */
  lemma HeardBounded(c: Config, m: Memory, flags: seq<bool>)
    requires c.Valid() && Bounded(c, m) && |flags| == |m.s.sent|
    ensures var heard := Answered(m.s, flags);
            && Short(c, heard.requests) && m.kept - Matched(m.s.sent, flags) <= Offsets(heard.requests)
            && |heard.requests| <= Surplus(c) + if heard.matching then 0 else PerWindow(c)
  {
    RejectedShort(c, m.s.sent, flags);
    ShortJoin(c, m.s.requests, Rejected(m.s.sent, flags));
    OffsetsJoin(m.s.requests, Rejected(m.s.sent, flags));
  }

  lemma StepBounded(c: Config, source: Data, m: Memory, message: Message)
    requires c.Valid() && c.signatureBatch <= 2 * PerWindow(c) && m.s.offset <= |source| && Taken(m.s, message)
    requires if message.Start? then m == Memory(NewSender, {}) else Bounded(c, m)
    ensures Bounded(c, Step(c, source, m, message))
  {
    hide PerWindow, Fill, SignEnd, BlocksOf, SignaturesOf, Matched, Rejected;
    var heard := Heard(m.s, message);
    var left := if message.Decisions? then m.kept - Matched(m.s.sent, message.flags) else m.kept;
    if message.Decisions? { HeardBounded(c, m, message.flags); }
    assert Short(c, heard.requests) && left <= Offsets(heard.requests);
    var n := Fill(c, heard.requests, 0, false);
    FillAtLeast(c, heard.requests, 0, 0, 0);
    assert heard.requests == heard.requests[..n] + heard.requests[n..];
    OffsetsJoin(heard.requests[..n], heard.requests[n..]);
    ShortTail(c, heard.requests, n);
    SignedBlocks(c, |source|, heard.offset, Ahead(c, heard.matching));
    AheadIs(c);
    var signed := BlocksOf(c, |source|, heard.offset, SignEnd(c, |source|, heard.offset, Ahead(c, heard.matching)));
    assert heard.sent == [] && [] + signed == signed;
  }

  lemma AheadIs(c: Config)
    requires c.Valid()
    ensures Ahead(c, true) == c.signatureBatch && Ahead(c, false) == PerWindow(c)
  {
  }

  lemma {:induction false} AfterBounded(c: Config, source: Data, answers: seq<seq<bool>>)
    requires c.Valid() && c.signatureBatch <= 2 * PerWindow(c)
    ensures var m := After(c, source, answers); m.Some? ==> Bounded(c, m.value)
    decreases |answers|
  {
    hide Bounded, Step, PerWindow;
    if answers == [] {
      StepBounded(c, source, Memory(NewSender, {}), Start);
    } else {
      var before := After(c, source, answers[..|answers| - 1]);
      AfterBounded(c, source, answers[..|answers| - 1]);
      var last := Decisions(answers[|answers| - 1]);
      if before.Some? && Taken(before.value.s, last) { StepBounded(c, source, before.value, last); }
    }
  }

  /**
   While a batch of signatures is at most twice the blocks of a window, the cache never holds more blocks
   than the larger of the two, whatever the answers.
   */
  lemma CacheIsBounded(c: Config, source: Data, answers: seq<seq<bool>>)
    requires c.Valid() && c.signatureBatch <= 2 * PerWindow(c)
    ensures var m := After(c, source, answers); m.Some? ==> |m.value.kept| <= Max(PerWindow(c), c.signatureBatch)
  {
    AfterBounded(c, source, answers);
    var m := After(c, source, answers);
    if m.Some? {
      var s, kept := m.value.s, m.value.kept;
      OffsetsCount(s.requests);
      OffsetsCount(s.sent);
      var all := Offsets(s.requests) + if s.matching then {} else Offsets(s.sent);
      Subset(kept, all);
      Union(Offsets(s.requests), if s.matching then {} else Offsets(s.sent));
    }
  }

  lemma {:induction false} Subset(a: set<nat>, b: set<nat>)
    requires a <= b
    ensures |a| <= |b|
    decreases |a|
  {
    if a != {} {
      var x :| x in a;
      Subset(a - {x}, b - {x});
    }
  }

  lemma Union(a: set<nat>, b: set<nat>)
    ensures |a + b| <= |a| + |b|
  {
    assert a + b == a + (b - a);
    Subset(b - a, b);
  }
}
