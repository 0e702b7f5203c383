/**
 A receiver against any peer: whatever messages arrive, in whatever order and after whatever
 errors, a result is returned only for a complete file whose own block signatures produce the
 digest the peer sent.
 */
module ReceiverSafety {
  import opened Prelude
  import opened FileExchange

  /** The signatures of the blocks of `data` from `from` on. */
  function ChainFrom(c: Config, data: Data, from: nat): (r: seq<Digest>)
    requires c.Valid()
    decreases |data| - from
  {
    if from >= |data| then []
    else
      var n := Span(c, |data|, from);
      [c.hash(data[from..from + n])] + ChainFrom(c, data, from + n)
  }

  function PlanLength(plan: seq<Planned>): (n: nat) {
    if plan == [] then 0 else plan[0].length + PlanLength(plan[1..])
  }

  /** Bytes of the plan whose content still has to arrive. */
  function Outstanding(plan: seq<Planned>): (n: nat) {
    if plan == [] then 0 else (if plan[0].matched then 0 else plan[0].length) + Outstanding(plan[1..])
  }

  /** Every planned block has its place in the file, and a matched one is in the destination. */
  ghost predicate PlanSafe(c: Config, t: Target, plan: seq<Planned>, at: nat)
    requires c.Valid()
    decreases |plan|
  {
    plan == [] ||
    (&& at < t.size
     && plan[0].length == Span(c, t.size, at)
     && (plan[0].matched ==> Matches(c, t, at, plan[0].length, plan[0].signature))
     && PlanSafe(c, t, plan[1..], at + plan[0].length))
  }

  ghost predicate Safe(c: Config, t: Target, r: Receiver)
    requires c.Valid()
  {
    && r.offset <= r.decided <= t.size
    && Walk(c, t.size, 0, r.offset)
    && PlanSafe(c, t, r.plan, r.offset)
    && r.offset + PlanLength(r.plan) == r.decided
    && |Committed(t, r)| == r.offset
    && r.chain == ChainFrom(c, Committed(t, r), 0)
    && r.transferred + r.reused + Outstanding(r.plan) == r.decided
    && (r.output.Some? ==> Changed(t, r))
  }

  lemma {:induction false} WalkStep(c: Config, size: nat, from: nat, at: nat)
    requires c.Valid() && from <= at < size && Walk(c, size, from, at)
    ensures Walk(c, size, from, at + Span(c, size, at))
    decreases at - from
  {
    if from < at {
      WalkStep(c, size, from + Span(c, size, from), at);
    } else {
      assert Walk(c, size, at + Span(c, size, at), at + Span(c, size, at));
    }
  }

  /** Appending the next block appends its signature: block borders do not move. */
  lemma {:induction false} ChainAppend(c: Config, size: nat, data: Data, block: Data, from: nat)
    requires c.Valid() && from <= |data| < size && Walk(c, size, from, |data|)
    requires |block| == Span(c, size, |data|)
    ensures ChainFrom(c, data + block, from) == ChainFrom(c, data, from) + [c.hash(block)]
    decreases |data| - from
  {
    var both := data + block;
    if from == |data| {
      assert both[from..|both|] == block;
      assert ChainFrom(c, both, |both|) == [];
    } else {
      var n := Span(c, size, from);
      assert n == c.blockSize == Span(c, |data|, from) == Span(c, |both|, from);
      assert both[from..from + n] == data[from..from + n];
      ChainAppend(c, size, data, block, from + n);
    }
  }

  lemma KeepSafe(c: Config, t: Target, r: Receiver)
    requires c.Valid() && Safe(c, t, r) && r.plan != [] && r.plan[0].matched
    ensures Safe(c, t, Keep(t, r))
    ensures Committed(t, Keep(t, r)) == Committed(t, r) + t.Read(r.offset, r.plan[0].length)
  {
    var p := r.plan[0];
    var block := t.Read(r.offset, p.length);
    assert Committed(t, Keep(t, r)) == Committed(t, r) + block;
    ChainAppend(c, t.size, Committed(t, r), block, 0);
    WalkStep(c, t.size, 0, r.offset);
  }

  lemma {:induction false} CommitSafe(c: Config, t: Target, r: Receiver)
    requires c.Valid() && Safe(c, t, r)
    ensures Safe(c, t, Commit(t, r))
    decreases |r.plan|
  {
    if r.plan != [] && r.plan[0].matched {
      KeepSafe(c, t, r);
      CommitSafe(c, t, Keep(t, r));
    }
  }

  lemma WriteSafe(c: Config, t: Target, r: Receiver, data: Data)
    requires c.Valid() && Safe(c, t, r)
    ensures Safe(c, t, Write(c, t, r, data).0)
  {
    var (r', e) := Write(c, t, r, data);
    if e.None? {
      assert Committed(t, r') == Committed(t, r) + data;
      ChainAppend(c, t.size, Committed(t, r), data, 0);
      WalkStep(c, t.size, 0, r.offset);
    }
  }

  lemma {:induction false} WriteAllSafe(c: Config, t: Target, r: Receiver, blocks: seq<Data>)
    requires c.Valid() && Safe(c, t, r)
    ensures Safe(c, t, WriteAll(c, t, r, blocks).0)
    decreases |blocks|
  {
    if blocks != [] {
      var (r', e) := Write(c, t, r, blocks[0]);
      WriteSafe(c, t, r, blocks[0]);
      if e.None? {
        CommitSafe(c, t, r');
        WriteAllSafe(c, t, Commit(t, r'), blocks[1..]);
      }
    }
  }

  lemma {:induction false} PlanAppend(c: Config, t: Target, plan: seq<Planned>, p: Planned, at: nat)
    requires c.Valid() && PlanSafe(c, t, plan, at)
    ensures PlanLength(plan + [p]) == PlanLength(plan) + p.length
    ensures Outstanding(plan + [p]) == Outstanding(plan) + (if p.matched then 0 else p.length)
    ensures PlanSafe(c, t, [p], at + PlanLength(plan)) ==> PlanSafe(c, t, plan + [p], at)
    decreases |plan|
  {
    if plan == [] {
      assert plan + [p] == [p];
    } else {
      assert (plan + [p])[1..] == plan[1..] + [p];
      PlanAppend(c, t, plan[1..], p, at + plan[0].length);
    }
  }

  lemma DecideSafe(c: Config, t: Target, r: Receiver, s: Signature)
    requires c.Valid() && Safe(c, t, r)
    ensures Safe(c, t, Decide(c, t, r, s).0)
  {
    var (r', flag) := Decide(c, t, r, s);
    if flag.Some? {
      var p := Planned(s.length, s.digest, flag.value);
      assert r'.plan == r.plan + [p];
      assert PlanSafe(c, t, [p], r.decided);
      PlanAppend(c, t, r.plan, p, r.offset);
    }
  }

  lemma {:induction false} DecideAllSafe(c: Config, t: Target, r: Receiver, signatures: seq<Signature>)
    requires c.Valid() && Safe(c, t, r)
    ensures Safe(c, t, DecideAll(c, t, r, signatures).0)
    decreases |signatures|
  {
    if signatures != [] {
      DecideSafe(c, t, r, signatures[0]);
      DecideAllSafe(c, t, Decide(c, t, r, signatures[0]).0, signatures[1..]);
    }
  }

  /** What a returned result guarantees about the file on disk. */
  ghost predicate Sound(c: Config, t: Target, r: Receiver, digest: Digest, result: SyncResult)
    requires c.Valid()
  {
    && r.plan == []
    && Installed(t, r, result).Some?
    && var file := Installed(t, r, result).value;
    && |file| == result.size == t.size
    && c.seal(ChainFrom(c, file, 0)) == digest
    && result.transferred + result.reused == t.size
  }

  lemma FinishSafe(c: Config, t: Target, r: Receiver, digest: Digest)
    requires c.Valid() && Safe(c, t, r)
    ensures var (r', o) := Finish(c, t, r, digest);
            Safe(c, t, r') && (o.Done? ==> Sound(c, t, r', digest, o.result))
  {
    var (r', o) := Finish(c, t, r, digest);
    assert Committed(t, r') == Committed(t, r);
    if o.Done? {
      PlanEmpty(c, t, r.plan, r.offset);
      assert Installed(t, r', o.result).value == Committed(t, r);
    }
  }

  lemma ReceiveSafe(c: Config, t: Target, r: Receiver, m: Message)
    requires c.Valid() && Safe(c, t, r)
    ensures var (r', o) := Receive(c, t, r, m);
            && Safe(c, t, r')
            && (o.Done? ==> m.Batch? && m.digest.Some? && Sound(c, t, r', m.digest.value, o.result))
  {
    if m.Batch? {
      var (r1, e) := WriteAll(c, t, r, m.blocks);
      WriteAllSafe(c, t, r, m.blocks);
      if e.None? {
        var (r2, flags) := DecideAll(c, t, r1, m.signatures);
        DecideAllSafe(c, t, r1, m.signatures);
        CommitSafe(c, t, r2);
        if m.digest.Some? {
          FinishSafe(c, t, Commit(t, r2), m.digest.value);
        }
      }
    }
  }

  lemma PlanEmpty(c: Config, t: Target, plan: seq<Planned>, at: nat)
    requires c.Valid() && PlanSafe(c, t, plan, at) && at == t.size
    ensures plan == []
  {
  }

  /** The receiver after any sequence of messages, going on after errors. */
  function After(c: Config, t: Target, messages: seq<Message>): (r: Receiver)
    decreases |messages|
  {
    if messages == [] then NewReceiver
    else Receive(c, t, After(c, t, messages[..|messages| - 1]), messages[|messages| - 1]).0
  }

  lemma {:induction false} AfterSafe(c: Config, t: Target, messages: seq<Message>)
    requires c.Valid()
    ensures Safe(c, t, After(c, t, messages))
    decreases |messages|
  {
    if messages == [] {
      assert Committed(t, NewReceiver) == [];
    } else {
      var before := messages[..|messages| - 1];
      AfterSafe(c, t, before);
      ReceiveSafe(c, t, After(c, t, before), messages[|messages| - 1]);
    }
  }

  /** Receiver safety: a result means a complete file that the digest of the peer describes. */
  lemma ReceiverNeverLies(c: Config, t: Target, messages: seq<Message>, last: Message)
    requires c.Valid()
    ensures var (r, o) := Receive(c, t, After(c, t, messages), last);
            o.Done? ==> last.Batch? && last.digest.Some? && Sound(c, t, r, last.digest.value, o.result)
  {
    AfterSafe(c, t, messages);
    ReceiveSafe(c, t, After(c, t, messages), last);
  }

  /**
   What a receiver refuses at once, and then keeps nothing of: any message but a batch, content that no
   planned block waits for, content with another length or digest than planned, and a signature with another
   length than the next block has.
   */
  lemma ReceiveRefuses(c: Config, t: Target, r: Receiver, m: Message)
    ensures !m.Batch? ==> Receive(c, t, r, m) == (r, Raise(InvalidMessage))
    ensures m.Batch? && m.blocks != [] && (r.plan == [] || r.plan[0].matched) ==> Receive(c, t, r, m) == (r, Raise(UnexpectedContent))
    ensures m.Batch? && m.blocks != [] && r.plan != [] && !r.plan[0].matched
            && (|m.blocks[0]| != r.plan[0].length || c.hash(m.blocks[0]) != r.plan[0].signature)
            ==> Receive(c, t, r, m) == (r, Raise(CorruptBlock))
    ensures m.Batch? && m.blocks == [] && m.signatures != []
            && (m.signatures[0].length < 1 || m.signatures[0].length != Min(c.blockSize, t.size - r.decided))
            ==> Receive(c, t, r, m) == (r, Raise(InvalidSignature))
  {
    hide Commit, FileExchange.Finish;
  }
}
