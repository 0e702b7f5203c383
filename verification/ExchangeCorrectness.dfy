/**
 A sender and a receiver of the block exchange working on stable files: every round succeeds,
 every round makes progress, and the exchange ends with the destination the protocol promises.
 */
module ExchangeCorrectness {
  import opened Prelude
  import opened FileExchange
  import opened ReceiverSafety

  /** One transfer: the parameters, the source and the destination that exists, if any. */
  datatype Case = Case(c: Config, source: Data, existing: Option<Data>)
  {
    function Target(): (t: Target) { FileExchange.Target(|source|, existing) }

    function Next(at: nat): (n: nat)
      requires c.Valid() && at < |source|
      ensures at < n <= |source|
    {
      at + Span(c, |source|, at)
    }

    function BlockAt(at: nat): (b: Data)
      requires c.Valid() && at < |source|
      ensures |b| == Span(c, |source|, at) > 0
    {
      source[at..Next(at)]
    }

    function DigestAt(at: nat): (d: Digest)
      requires c.Valid() && at < |source|
    {
      c.hash(BlockAt(at))
    }

    /** The destination holds a block of the same length and digest at the same place. */
    predicate Reusable(at: nat)
      requires c.Valid() && at < |source|
    {
      Matches(c, Target(), at, |BlockAt(at)|, c.hash(BlockAt(at)))
    }

    function Entry(at: nat): (p: Planned)
      requires c.Valid() && at < |source|
    {
      Planned(|BlockAt(at)|, c.hash(BlockAt(at)), Reusable(at))
    }

    /** The plan for the blocks of a stretch of the source. */
    function PlanOf(from: nat, until: nat): (p: seq<Planned>)
      requires c.Valid() && until <= |source|
      decreases until - from
    {
      if from >= until then [] else [Entry(from)] + PlanOf(Next(from), until)
    }

    /** The blocks of a stretch that have to travel. */
    function MissingOf(from: nat, until: nat): (b: seq<Block>)
      requires c.Valid() && until <= |source|
      decreases until - from
    {
      if from >= until then []
      else (if Reusable(from) then [] else [Block(from, |BlockAt(from)|)]) + MissingOf(Next(from), until)
    }

    function FlagsOf(from: nat, until: nat): (f: seq<bool>)
      requires c.Valid() && until <= |source|
      decreases until - from
    {
      if from >= until then [] else [Reusable(from)] + FlagsOf(Next(from), until)
    }

    /** The block that ends up at `at`: the destination's own when it is reused. */
    function Piece(at: nat): (d: Data)
      requires c.Valid() && at < |source|
      ensures |d| == |BlockAt(at)|
    {
      if Reusable(at) then Target().Read(at, |BlockAt(at)|) else BlockAt(at)
    }

    /** The result of the exchange from `from` on. */
    function Merged(from: nat): (d: Data)
      requires c.Valid() && from <= |source|
      ensures |d| == |source| - from
      decreases |source| - from
    {
      if from == |source| then [] else Piece(from) + Merged(Next(from))
    }

    /** Bytes of the blocks that have to travel, from `from` on. */
    function MissingBytes(from: nat): (n: nat)
      requires c.Valid() && from <= |source|
      decreases |source| - from
    {
      if from == |source| then 0
      else (if Reusable(from) then 0 else |BlockAt(from)|) + MissingBytes(Next(from))
    }

    /** No block that is reused hides a different block with the same digest. */
    predicate NoCollision(from: nat)
      requires c.Valid() && from <= |source|
      decreases |source| - from
    {
      from == |source| || ((Reusable(from) ==> Target().Read(from, |BlockAt(from)|) == BlockAt(from)) && NoCollision(Next(from)))
    }

    /** Bytes of the source blocks that differ from the destination at the same place. */
    function DifferingBytes(from: nat): (n: nat)
      requires c.Valid() && from <= |source|
      decreases |source| - from
    {
      if from == |source| then 0
      else (if Target().Read(from, |BlockAt(from)|) == BlockAt(from) then 0 else |BlockAt(from)|) + DifferingBytes(Next(from))
    }

    function ReusedBytes(from: nat): (n: nat)
      requires c.Valid() && from <= |source|
      ensures n + MissingBytes(from) == |source| - from
      decreases |source| - from
    {
      if from == |source| then 0
      else (if Reusable(from) then |BlockAt(from)| else 0) + ReusedBytes(Next(from))
    }
  }

  // ---------------------------------------------------------------- receiver, honest sender

  /** The receiver is in step with the source: what it committed, planned and counted is exact. */
  ghost predicate Synced(x: Case, r: Receiver)
    requires x.c.Valid()
  {
    && r.offset <= r.decided <= |x.source|
    && Walk(x.c, |x.source|, r.offset, r.decided)
    && r.plan == x.PlanOf(r.offset, r.decided)
    && Chained(x, r.chain, r.offset)
    && Merging(x, Committed(x.Target(), r), r.offset)
    && r.transferred + x.MissingBytes(r.offset) == x.MissingBytes(0)
    && r.reused + x.ReusedBytes(r.decided) == x.ReusedBytes(0)
  }

  /** `chain` holds the signatures of the source up to `at`. */
  ghost predicate Chained(x: Case, chain: seq<Digest>, at: nat)
    requires x.c.Valid()
  {
    chain + ChainFrom(x.c, x.source, at) == ChainFrom(x.c, x.source, 0)
  }

  /** `data` is the first part of the result, up to `at`. */
  ghost predicate Merging(x: Case, data: Data, at: nat)
    requires x.c.Valid() && at <= |x.source|
  {
    |data| == at && data + x.Merged(at) == x.Merged(0)
  }

  lemma Associative<T>(a: seq<T>, b: seq<T>, c: seq<T>)
    ensures (a + b) + c == a + (b + c)
  {
  }

  lemma ChainedStep(x: Case, chain: seq<Digest>, at: nat)
    requires x.c.Valid() && at < |x.source| && Chained(x, chain, at)
    ensures Chained(x, chain + [x.DigestAt(at)], x.Next(at))
  {
    Associative(chain, [x.DigestAt(at)], ChainFrom(x.c, x.source, x.Next(at)));
  }

  lemma MergingStep(x: Case, data: Data, at: nat)
    requires x.c.Valid() && at < |x.source| && Merging(x, data, at)
    ensures Merging(x, data + x.Piece(at), x.Next(at))
  {
    Associative(data, x.Piece(at), x.Merged(x.Next(at)));
  }

  predicate Clean(r: Receiver) { r.plan == [] || !r.plan[0].matched }

  lemma PlanHead(x: Case, from: nat, until: nat)
    requires x.c.Valid() && from <= until <= |x.source| && Walk(x.c, |x.source|, from, until)
    ensures x.PlanOf(from, until) == [] <==> from == until
    ensures from < until ==> x.Next(from) <= until && Walk(x.c, |x.source|, x.Next(from), until)
    ensures from < until ==> x.PlanOf(from, until)[0] == x.Entry(from)
    ensures from < until ==> x.PlanOf(from, until)[1..] == x.PlanOf(x.Next(from), until)
  {
  }

  /** Taking the front block, from the destination or from a message, keeps the receiver in step. */
  lemma AdvanceSynced(x: Case, r: Receiver, r': Receiver)
    requires x.c.Valid() && Synced(x, r) && r.offset < r.decided
    requires Committed(x.Target(), r') == Committed(x.Target(), r) + x.Piece(r.offset)
    requires r'.offset == x.Next(r.offset) && r'.decided == r.decided && r'.plan == r.plan[1..]
    requires r'.chain == r.chain + [x.DigestAt(r.offset)] && r'.reused == r.reused
    requires r'.transferred == r.transferred + (if x.Reusable(r.offset) then 0 else |x.BlockAt(r.offset)|)
    ensures Synced(x, r')
  {
    PlanHead(x, r.offset, r.decided);
    ChainedStep(x, r.chain, r.offset);
    MergingStep(x, Committed(x.Target(), r), r.offset);
  }

  lemma CommittedKeep(t: Target, r: Receiver)
    requires r.plan != [] && |Committed(t, r)| == r.offset && |t.Read(r.offset, r.plan[0].length)| == r.plan[0].length
    ensures Committed(t, Keep(t, r)) == Committed(t, r) + t.Read(r.offset, r.plan[0].length)
  {
  }

  lemma KeepSynced(x: Case, r: Receiver)
    requires x.c.Valid() && Synced(x, r) && r.plan != [] && r.plan[0].matched
    ensures r.offset < r.decided
    ensures var r' := Keep(x.Target(), r); Synced(x, r') && r'.decided == r.decided
    ensures x.MissingOf(Keep(x.Target(), r).offset, r.decided) == x.MissingOf(r.offset, r.decided)
  {
    PlanHead(x, r.offset, r.decided);
    var r' := Keep(x.Target(), r);
    CommittedKeep(x.Target(), r);
    AdvanceSynced(x, r, r');
  }

  lemma {:induction false} CommitSynced(x: Case, r: Receiver)
    requires x.c.Valid() && Synced(x, r)
    ensures var r' := Commit(x.Target(), r);
            && Synced(x, r') && Clean(r') && r'.decided == r.decided
            && x.MissingOf(r'.offset, r'.decided) == x.MissingOf(r.offset, r.decided)
    decreases |r.plan|
  {
    if r.plan != [] && r.plan[0].matched {
      KeepSynced(x, r);
      CommitSynced(x, Keep(x.Target(), r));
    }
  }

  lemma WriteSynced(x: Case, r: Receiver)
    requires x.c.Valid() && Synced(x, r) && Clean(r) && r.offset < r.decided
    ensures x.MissingOf(r.offset, r.decided) == [Block(r.offset, |x.BlockAt(r.offset)|)] + x.MissingOf(x.Next(r.offset), r.decided)
    ensures var (r', e) := Write(x.c, x.Target(), r, x.BlockAt(r.offset));
            e.None? && Synced(x, r') && r'.decided == r.decided && r'.offset == x.Next(r.offset)
  {
    PlanHead(x, r.offset, r.decided);
    var (r', e) := Write(x.c, x.Target(), r, x.BlockAt(r.offset));
    AdvanceSynced(x, r, r');
  }

  /** The blocks of one message are the first missing ones, and the receiver takes them all. */
  lemma {:induction false} WriteAllSynced(x: Case, r: Receiver, n: nat)
    requires x.c.Valid() && Synced(x, r) && Clean(r)
    requires n <= |x.MissingOf(r.offset, r.decided)|
    ensures var missing := x.MissingOf(r.offset, r.decided);
            var (r', e) := WriteAll(x.c, x.Target(), r, Contents(x.source, missing[..n]));
            && e.None? && Synced(x, r') && Clean(r') && r'.decided == r.decided
            && x.MissingOf(r'.offset, r'.decided) == missing[n..]
    decreases n
  {
    hide Commit, Write, WriteAll, Contents, ReadAt, Clean, Walk, Chained, Merging, Committed;
    var missing := x.MissingOf(r.offset, r.decided);
    var blocks := Contents(x.source, missing[..n]);
    if n > 0 {
      WriteOneSynced(x, r);
      ContentsCons(x.source, missing, n);
      WriteAllCons(x.c, x.Target(), r, blocks);
      var r2 := Commit(x.Target(), Write(x.c, x.Target(), r, blocks[0]).0);
      assert missing[1..][n - 1..] == missing[n..];
      WriteAllSynced(x, r2, n - 1);
    } else {
      WriteAllNothing(x.c, x.Target(), r, x.source, missing);
      assert missing[0..] == missing;
    }
  }

  lemma ContentsCons(source: Data, blocks: seq<Block>, n: nat)
    requires 0 < n <= |blocks|
    ensures var all := Contents(source, blocks[..n]);
            |all| == n && all[0] == ReadAt(source, blocks[0].offset, blocks[0].length) && all[1..] == Contents(source, blocks[1..][..n - 1])
  {
    hide ReadAt;
  }

  lemma WriteAllCons(c: Config, t: Target, r: Receiver, blocks: seq<Data>)
    requires blocks != [] && Write(c, t, r, blocks[0]).1.None?
    ensures WriteAll(c, t, r, blocks) == WriteAll(c, t, Commit(t, Write(c, t, r, blocks[0]).0), blocks[1..])
  {
    hide Write, Commit;
  }

  lemma WriteAllNothing(c: Config, t: Target, r: Receiver, source: Data, blocks: seq<Block>)
    ensures WriteAll(c, t, r, Contents(source, blocks[..0])) == (r, None)
  {
  }

  /** The first missing block is taken, and what matches after it is kept. */
  lemma WriteOneSynced(x: Case, r: Receiver)
    requires x.c.Valid() && Synced(x, r) && Clean(r) && x.MissingOf(r.offset, r.decided) != []
    ensures var missing := x.MissingOf(r.offset, r.decided);
            var (r1, e) := Write(x.c, x.Target(), r, ReadAt(x.source, missing[0].offset, missing[0].length));
            var r2 := Commit(x.Target(), r1);
            && e.None? && Synced(x, r2) && Clean(r2) && r2.decided == r.decided
            && x.MissingOf(r2.offset, r2.decided) == missing[1..]
  {
    hide Commit, Write, Merging, Chained, Committed, Walk, Case.Reusable;
    var missing := x.MissingOf(r.offset, r.decided);
    assert r.offset < r.decided;
    WriteSynced(x, r);
    assert ReadAt(x.source, missing[0].offset, missing[0].length) == x.BlockAt(r.offset);
    CommitSynced(x, Write(x.c, x.Target(), r, x.BlockAt(r.offset)).0);
  }

  lemma {:induction false} StretchAppend(x: Case, from: nat, at: nat)
    requires x.c.Valid() && from <= at < |x.source| && Walk(x.c, |x.source|, from, at)
    ensures x.PlanOf(from, x.Next(at)) == x.PlanOf(from, at) + [x.Entry(at)]
    ensures Walk(x.c, |x.source|, from, x.Next(at))
    decreases at - from
  {
    WalkStep(x.c, |x.source|, from, at);
    if from < at {
      StretchAppend(x, x.Next(from), at);
    } else {
      assert x.PlanOf(x.Next(at), x.Next(at)) == [];
    }
  }

  lemma DecideSynced(x: Case, r: Receiver)
    requires x.c.Valid() && Synced(x, r) && r.decided < |x.source|
    ensures var (r', flag) := Decide(x.c, x.Target(), r, Signature(|x.BlockAt(r.decided)|, x.DigestAt(r.decided)));
            && flag == Some(x.Reusable(r.decided)) && Synced(x, r')
            && r'.decided == x.Next(r.decided) && r'.offset == r.offset
  {
    StretchAppend(x, r.offset, r.decided);
  }

  lemma {:induction false} MissingSplit(x: Case, from: nat, at: nat, until: nat)
    requires x.c.Valid() && from <= at <= until <= |x.source| && Walk(x.c, |x.source|, from, at)
    ensures x.MissingOf(from, until) == x.MissingOf(from, at) + x.MissingOf(at, until)
    decreases at - from
  {
    if from < at {
      MissingSplit(x, x.Next(from), at, until);
    }
  }

  lemma DecideAllCons(c: Config, t: Target, r: Receiver, s: Signature, rest: seq<Signature>)
    requires Decide(c, t, r, s).1.Some? && DecideAll(c, t, Decide(c, t, r, s).0, rest).1.Some?
    ensures var (r', flag) := Decide(c, t, r, s);
            var (r'', flags) := DecideAll(c, t, r', rest);
            DecideAll(c, t, r, [s] + rest) == (r'', Some([flag.value] + flags.value))
  {
    assert ([s] + rest)[1..] == rest;
  }

  lemma {:induction false} DecideAllSynced(x: Case, r: Receiver, end: nat)
    requires x.c.Valid() && Synced(x, r) && r.decided <= end <= |x.source| && Walk(x.c, |x.source|, r.decided, end)
    ensures var (r', flags) := DecideAll(x.c, x.Target(), r, SignaturesOf(x.c, x.source, r.decided, end));
            && flags == Some(x.FlagsOf(r.decided, end)) && Synced(x, r')
            && r'.decided == end && r'.offset == r.offset
    decreases end - r.decided
  {
    hide Decide, Synced, Walk, Case.Reusable, Case.DigestAt, SignaturesOf;
    if r.decided < end {
      var s := Signature(|x.BlockAt(r.decided)|, x.DigestAt(r.decided));
      var rest := SignaturesOf(x.c, x.source, x.Next(r.decided), end);
      FirstSignature(x, r.decided, end);
      WalkOn(x.c, |x.source|, r.decided, end);
      DecideSynced(x, r);
      var r1 := Decide(x.c, x.Target(), r, s).0;
      DecideAllSynced(x, r1, end);
      DecideAllCons(x.c, x.Target(), r, s, rest);
    } else {
      NoSignature(x, end);
    }
  }

  lemma FirstSignature(x: Case, from: nat, until: nat)
    requires x.c.Valid() && from < until <= |x.source|
    ensures SignaturesOf(x.c, x.source, from, until) ==
            [Signature(|x.BlockAt(from)|, x.DigestAt(from))] + SignaturesOf(x.c, x.source, x.Next(from), until)
  {
  }

  lemma NoSignature(x: Case, at: nat)
    requires x.c.Valid() && at <= |x.source|
    ensures SignaturesOf(x.c, x.source, at, at) == []
  {
  }

  // ---------------------------------------------------------------- sender

  lemma {:induction false} SignEndWalks(c: Config, size: nat, at: nat, limit: nat)
    requires c.Valid() && at <= size
    ensures Walk(c, size, at, SignEnd(c, size, at, limit))
    ensures |BlocksOf(c, size, at, SignEnd(c, size, at, limit))| <= limit
    decreases limit
  {
    if limit > 0 && at < size {
      SignEndWalks(c, size, at + Span(c, size, at), limit - 1);
    }
  }

  lemma {:induction false} RejectedAreMissing(x: Case, from: nat, until: nat)
    requires x.c.Valid() && from <= until <= |x.source| && Walk(x.c, |x.source|, from, until)
    ensures |x.FlagsOf(from, until)| == |BlocksOf(x.c, |x.source|, from, until)|
    ensures Rejected(BlocksOf(x.c, |x.source|, from, until), x.FlagsOf(from, until)) == x.MissingOf(from, until)
    decreases until - from
  {
    if from < until {
      var blocks := BlocksOf(x.c, |x.source|, from, until);
      assert blocks[1..] == BlocksOf(x.c, |x.source|, x.Next(from), until);
      assert x.FlagsOf(from, until)[1..] == x.FlagsOf(x.Next(from), until);
      RejectedAreMissing(x, x.Next(from), until);
    }
  }

  lemma WalkOn(c: Config, size: nat, from: nat, until: nat)
    requires c.Valid() && from < until <= size && Walk(c, size, from, until)
    ensures from + Span(c, size, from) <= until && Walk(c, size, from + Span(c, size, from), until)
  {
  }

  lemma FirstSigned(x: Case, from: nat, until: nat)
    requires x.c.Valid() && from < until <= |x.source| && x.Next(from) <= until
    ensures DigestsOf(SignaturesOf(x.c, x.source, from, until)) == [x.DigestAt(from)] + DigestsOf(SignaturesOf(x.c, x.source, x.Next(from), until))
    ensures ChainFrom(x.c, x.source, from) == [x.DigestAt(from)] + ChainFrom(x.c, x.source, x.Next(from))
  {
    var signatures, rest := SignaturesOf(x.c, x.source, from, until), SignaturesOf(x.c, x.source, x.Next(from), until);
    assert signatures[1..] == rest && signatures[0].digest == x.DigestAt(from);
  }

  lemma {:induction false} SignedChain(x: Case, from: nat, until: nat)
    requires x.c.Valid() && from <= until <= |x.source| && Walk(x.c, |x.source|, from, until)
    ensures DigestsOf(SignaturesOf(x.c, x.source, from, until)) + ChainFrom(x.c, x.source, until) == ChainFrom(x.c, x.source, from)
    decreases until - from
  {
    hide Walk, Case.BlockAt;
    if from < until {
      WalkOn(x.c, |x.source|, from, until);
      SignedChain(x, x.Next(from), until);
      FirstSigned(x, from, until);
      Associative([x.DigestAt(from)], DigestsOf(SignaturesOf(x.c, x.source, x.Next(from), until)), ChainFrom(x.c, x.source, until));
    } else {
      assert DigestsOf(SignaturesOf(x.c, x.source, from, until)) == [];
    }
  }

  // ---------------------------------------------------------------- one round

  /** Sender and receiver between two rounds, with the answers still to be delivered. */
  ghost predicate Joint(x: Case, s: Sender, r: Receiver, flags: seq<bool>)
    requires x.c.Valid()
  {
    && Synced(x, r) && Clean(r)
    && s.offset == r.decided
    && Chained(x, s.chain, s.offset)
    && |flags| == |s.sent|
    && s.requests + Rejected(s.sent, flags) == x.MissingOf(r.offset, r.decided)
  }

  /** Everything a completed transfer promises. */
  ghost predicate Complete(x: Case, r: Receiver, result: SyncResult)
    requires x.c.Valid()
  {
    && Installed(x.Target(), r, result) == Some(x.Merged(0))
    && result.size == |x.source|
    && result.transferred == x.MissingBytes(0)
    && result.reused == x.ReusedBytes(0)
    && (result.changed <==> x.existing != Some(x.Merged(0)))
  }

  lemma {:induction false} NothingMissing(x: Case, from: nat)
    requires x.c.Valid() && from <= |x.source| && x.MissingBytes(from) == 0
    requires x.existing.Some? && |x.existing.value| == |x.source|
    ensures x.Merged(from) == x.existing.value[from..]
    decreases |x.source| - from
  {
    if from < |x.source| {
      NothingMissing(x, x.Next(from));
      assert x.existing.value[from..] == x.existing.value[from..x.Next(from)] + x.existing.value[x.Next(from)..];
    }
  }

  /** A block that travels differs from the destination, so the result differs too. */
  lemma {:induction false} SomethingMissing(x: Case, from: nat)
    requires x.c.Valid() && from <= |x.source| && x.MissingBytes(from) > 0
    requires x.existing.Some? && |x.existing.value| == |x.source|
    ensures x.Merged(from) != x.existing.value[from..]
    decreases |x.source| - from
  {
    var old_ := x.existing.value[from..];
    var n := |x.BlockAt(from)|;
    if x.Reusable(from) {
      SomethingMissing(x, x.Next(from));
      assert x.Merged(from)[n..] == x.Merged(x.Next(from));
      assert old_[n..] == x.existing.value[x.Next(from)..];
    } else {
      assert x.Merged(from)[..n] == x.BlockAt(from);
      assert old_[..n] == x.Target().Read(from, n);
    }
  }

  lemma FinishComplete(x: Case, r: Receiver)
    requires x.c.Valid() && Synced(x, r) && r.offset == |x.source|
    ensures r.chain == ChainFrom(x.c, x.source, 0)
    ensures var (r', o) := Finish(x.c, x.Target(), r, x.c.seal(r.chain));
            o.Done? && Complete(x, r', o.result)
  {
    assert x.Merged(r.offset) == [] && Committed(x.Target(), r) == x.Merged(0);
    if x.existing.Some? && |x.existing.value| == |x.source| {
      assert x.existing.value[0..] == x.existing.value;
      if r.transferred == 0 {
        NothingMissing(x, 0);
      } else {
        SomethingMissing(x, 0);
      }
    }
  }

  /** The receiver's half of a round: it takes the message of an honest sender without an error. */
  lemma ReceiveRound(x: Case, r: Receiver, n: nat, end: nat)
    requires x.c.Valid() && Synced(x, r) && Clean(r)
    requires n <= |x.MissingOf(r.offset, r.decided)|
    requires r.decided <= end <= |x.source| && Walk(x.c, |x.source|, r.decided, end)
    ensures var missing := x.MissingOf(r.offset, r.decided);
            var m := Batch(SignaturesOf(x.c, x.source, r.decided, end), Contents(x.source, missing[..n]), None);
            var (r', o) := Receive(x.c, x.Target(), r, m);
            && o == Reply(Decisions(x.FlagsOf(r.decided, end)))
            && Synced(x, r') && Clean(r') && r'.decided == end
            && x.MissingOf(r'.offset, end) == missing[n..] + x.MissingOf(r.decided, end)
  {
    WriteAllSynced(x, r, n);
    var missing := x.MissingOf(r.offset, r.decided);
    var r1 := WriteAll(x.c, x.Target(), r, Contents(x.source, missing[..n])).0;
    DecideAllSynced(x, r1, end);
    MissingSplit(x, r1.offset, r1.decided, end);
    CommitSynced(x, DecideAll(x.c, x.Target(), r1, SignaturesOf(x.c, x.source, r.decided, end)).0);
  }

  /** Work left to a sender: bytes to sign first, then blocks that wait for an answer or for the wire. */
  ghost function Remaining(x: Case, s: Sender): (n: nat)
  {
    if s.offset <= |x.source| then (|x.source| - s.offset) * 2 + |s.requests| + |s.sent| else 0
  }

  /** The sender's half of a round: the first missing blocks, and signatures of the next ones. */
  lemma SendRound(x: Case, s: Sender, r: Receiver, flags: seq<bool>) returns (n: nat, end: nat)
    requires x.c.Valid() && Joint(x, s, r, flags)
    ensures s.offset <= end <= |x.source| && Walk(x.c, |x.source|, s.offset, end)
    ensures s.offset == end ==> s.offset == |x.source|
    ensures var missing := x.MissingOf(r.offset, r.decided);
            n <= |missing| && (missing != [] ==> n > 0)
    ensures var missing := x.MissingOf(r.offset, r.decided);
            var (s', o) := Send(x.c, x.source, s, Decisions(flags));
            && o.Reply? && o.message.Batch?
            && o.message.signatures == SignaturesOf(x.c, x.source, s.offset, end)
            && o.message.blocks == Contents(x.source, missing[..n])
            && o.message.digest == (if end == |x.source| && s'.requests == [] && s'.sent == []
                                    then Some(x.c.seal(s'.chain)) else None)
            && s'.offset == end
            && s'.requests == missing[n..]
            && s'.sent == BlocksOf(x.c, |x.source|, s.offset, end)
            && Chained(x, s'.chain, end)
  {
    var a := Answered(s, flags);
    assert a.requests == x.MissingOf(r.offset, r.decided);
    n := Fill(x.c, a.requests, 0, false);
    end := SignEnd(x.c, |x.source|, s.offset, Ahead(x.c, a.matching));
    SignEndWalks(x.c, |x.source|, s.offset, Ahead(x.c, a.matching));
    SignedChain(x, s.offset, end);
    Associative(s.chain, DigestsOf(SignaturesOf(x.c, x.source, s.offset, end)), ChainFrom(x.c, x.source, end));
  }

  /** A message with the final hash is the same message without it, then `finish`. */
  lemma ReceiveDigest(c: Config, t: Target, r: Receiver, m: Message, digest: Digest)
    requires m.Batch? && m.digest.None? && Receive(c, t, r, m).1.Reply?
    ensures Receive(c, t, r, m.(digest := Some(digest))) == Finish(c, t, Receive(c, t, r, m).0, digest)
  {
  }

  /** A clean receiver that misses nothing has committed everything it decided. */
  lemma NothingPlanned(x: Case, r: Receiver)
    requires x.c.Valid() && Synced(x, r) && Clean(r) && x.MissingOf(r.offset, r.decided) == []
    ensures r.offset == r.decided
  {
    PlanHead(x, r.offset, r.decided);
  }

  lemma {:induction false} BlockCount(c: Config, size: nat, from: nat, until: nat)
    requires c.Valid() && from <= until <= size
    ensures |BlocksOf(c, size, from, until)| <= until - from
    ensures from < until ==> BlocksOf(c, size, from, until) != []
    decreases until - from
  {
    if from < until && from + Span(c, size, from) <= until {
      BlockCount(c, size, from + Span(c, size, from), until);
    }
  }

  /**
   One round of the exchange: the sender takes the answers, the receiver takes the batch, nobody
   raises, and either the transfer is complete or the pair is again in step and has less to do.
   */
  lemma Round(x: Case, s: Sender, r: Receiver, flags: seq<bool>)
    requires x.c.Valid() && Joint(x, s, r, flags)
    ensures var (s', sent) := Send(x.c, x.source, s, Decisions(flags));
            && sent.Reply?
            && var (r', got) := Receive(x.c, x.Target(), r, sent.message);
            && !got.Raise?
            && (got.Done? ==> Complete(x, r', got.result))
            && (got.Reply? ==> got.message.Decisions? && Joint(x, s', r', got.message.flags))
            && (got.Reply? ==> Remaining(x, s') < Remaining(x, s))
  {
    hide Send, Receive, Finish, Synced, Chained, Merging, Walk, Clean, Complete, Contents, SignaturesOf, BlocksOf, Rejected, Remaining;
    hide Case.MissingOf, Case.FlagsOf;
    var n, end := SendRound(x, s, r, flags);
    ReceiveRound(x, r, n, end);
    var (s', sent) := Send(x.c, x.source, s, Decisions(flags));
    var open := sent.message.(digest := None);
    var r' := Receive(x.c, x.Target(), r, open).0;
    if sent.message.digest.Some? {
      ReceiveDigest(x.c, x.Target(), r, open, sent.message.digest.value);
      SignedNone(x, s.offset, end);
      LastRound(x, r', s'.chain);
    } else {
      NextRound(x, s, r, flags, s', r', n, end);
    }
  }

  /** No block was signed, so none is missing behind those that were decided. */
  lemma SignedNone(x: Case, from: nat, until: nat)
    requires x.c.Valid() && from <= until <= |x.source| && BlocksOf(x.c, |x.source|, from, until) == []
    ensures from == until && x.MissingOf(from, until) == []
  {
    BlockCount(x.c, |x.source|, from, until);
  }

  /** The batch with the digest completes the transfer. */
  lemma LastRound(x: Case, r: Receiver, chain: seq<Digest>)
    requires x.c.Valid() && Synced(x, r) && Clean(r) && r.decided == |x.source| && x.MissingOf(r.offset, r.decided) == []
    requires Chained(x, chain, |x.source|)
    ensures var (r', o) := Finish(x.c, x.Target(), r, x.c.seal(chain)); o.Done? && Complete(x, r', o.result)
  {
    hide Synced, Finish, Complete, Merging;
    NothingPlanned(x, r);
    FinishComplete(x, r);
    assert chain == chain + ChainFrom(x.c, x.source, |x.source|);
  }

  /** Any other batch leaves the pair in step, with less to do. */
  lemma NextRound(x: Case, s: Sender, r: Receiver, flags: seq<bool>, s': Sender, r': Receiver, n: nat, end: nat)
    requires x.c.Valid() && Joint(x, s, r, flags) && s.offset <= end <= |x.source| && Walk(x.c, |x.source|, s.offset, end)
    requires s.offset == end ==> s.offset == |x.source|
    requires var missing := x.MissingOf(r.offset, r.decided); n <= |missing| && (missing != [] ==> n > 0) && s'.requests == missing[n..]
    requires s'.offset == end && s'.sent == BlocksOf(x.c, |x.source|, s.offset, end) && Chained(x, s'.chain, end)
    requires !(end == |x.source| && s'.requests == [] && s'.sent == [])
    requires Synced(x, r') && Clean(r') && r'.decided == end
    requires x.MissingOf(r'.offset, end) == x.MissingOf(r.offset, r.decided)[n..] + x.MissingOf(r.decided, end)
    ensures Joint(x, s', r', x.FlagsOf(r.decided, end)) && Remaining(x, s') < Remaining(x, s)
  {
    hide Synced, Chained, Walk, Clean, Rejected, BlocksOf, Case.MissingOf, Case.FlagsOf;
    RejectedAreMissing(x, s.offset, end);
    BlockCount(x.c, |x.source|, s.offset, end);
    var missing := x.MissingOf(r.offset, r.decided);
    assert |missing| == |s.requests| + |Rejected(s.sent, flags)|;
  }

  lemma SameParts(a: Data, b: Data, c: Data, d: Data)
    requires |a| == |c|
    ensures a + b == c + d <==> a == c && b == d
  {
    assert (a + b)[..|a|] == a && (a + b)[|a|..] == b && (c + d)[..|c|] == c && (c + d)[|c|..] == d;
  }

  /** The exchange reproduces the source exactly when no reused block is a digest collision. */
  lemma {:induction false} MergedIsSource(x: Case, from: nat)
    requires x.c.Valid() && from <= |x.source|
    ensures x.Merged(from) == x.source[from..] <==> x.NoCollision(from)
    decreases |x.source| - from
  {
    if from < |x.source| {
      MergedIsSource(x, x.Next(from));
      assert x.source[from..] == x.BlockAt(from) + x.source[x.Next(from)..];
      SameParts(x.Piece(from), x.Merged(x.Next(from)), x.BlockAt(from), x.source[x.Next(from)..]);
    }
  }

  /** Without collisions the bytes that travel are the bytes of the blocks that differ. */
  lemma {:induction false} TransferredIsDiffering(x: Case, from: nat)
    requires x.c.Valid() && from <= |x.source| && x.NoCollision(from)
    ensures x.MissingBytes(from) == x.DifferingBytes(from)
    decreases |x.source| - from
  {
    if from < |x.source| {
      TransferredIsDiffering(x, x.Next(from));
    }
  }

  function TotalLength(blocks: seq<Block>): (n: nat) {
    if blocks == [] then 0 else blocks[0].length + TotalLength(blocks[1..])
  }

  lemma {:induction false} FillBound(c: Config, requests: seq<Block>, total: nat, started: bool)
    requires c.Valid() && forall b :: b in requests ==> b.length <= c.blockSize
    requires started ==> total <= Max(c.window, c.blockSize)
    requires !started ==> total == 0
    ensures total + TotalLength(requests[..Fill(c, requests, total, started)]) <= Max(c.window, c.blockSize)
    decreases |requests|
  {
    var n := Fill(c, requests, total, started);
    if n > 0 {
      FillBound(c, requests[1..], total + requests[0].length, true);
      assert requests[..n][1..] == requests[1..][..n - 1];
    }
  }

  /** With digests that tell blocks apart, nothing collides: the installed file is the source. */
  lemma {:induction false} InjectiveNeverCollides(x: Case, from: nat)
    requires x.c.Valid() && from <= |x.source| && forall a, b :: x.c.hash(a) == x.c.hash(b) ==> a == b
    ensures x.NoCollision(from)
    decreases |x.source| - from
  {
    if from < |x.source| { InjectiveNeverCollides(x, x.Next(from)); }
  }

  /** With digests that do not, a block is reused that differs: the source [2] leaves [1] in place. */
  lemma CollisionKeepsTheOldBlock()
    ensures var x := Case(Config(1, 1, 1, (d: Data) => [], (d: seq<Digest>) => []), [2], Some([1]));
            x.c.Valid() && !x.NoCollision(0) && x.Merged(0) == [1]
  {
    var x := Case(Config(1, 1, 1, (d: Data) => [], (d: seq<Digest>) => []), [2], Some([1]));
    assert x.BlockAt(0) == [2] && x.Target().Read(0, 1) == [1];
    assert x.Next(0) == 1 && x.Merged(1) == [];
  }
}
