/**
 The two roles of `Session` in `rmote/tools/file_sync.py` as objects that are updated in place,
 and the loop of `FileSync.transfer` that steps them against each other.
 */
module FileSession {
  import opened Prelude
  import opened FileExchange
  import opened ReceiverSafety
  import opened ExchangeCorrectness
  import Mem = SenderMemory
  import MemoryGrowth

  /** Content bytes of one message. */
  function ContentBytes(blocks: seq<Data>): (n: nat) {
    if blocks == [] then 0 else |blocks[0]| + ContentBytes(blocks[1..])
  }

  predicate Placed(c: Config, size: nat, b: Block)
    requires c.Valid()
  {
    b.offset < size && b.length == Span(c, size, b.offset)
  }

  predicate AllPlaced(c: Config, size: nat, blocks: seq<Block>)
    requires c.Valid()
  {
    forall i :: 0 <= i < |blocks| ==> Placed(c, size, blocks[i])
  }

  lemma {:induction false} RejectedPlaced(c: Config, size: nat, sent: seq<Block>, flags: seq<bool>)
    requires c.Valid() && |sent| == |flags| && AllPlaced(c, size, sent)
    ensures AllPlaced(c, size, Rejected(sent, flags))
    decreases |sent|
  {
    if sent != [] {
      RejectedPlaced(c, size, sent[1..], flags[1..]);
    }
  }

  lemma {:induction false} RejectedAppend(sent: seq<Block>, flags: seq<bool>, k: nat)
    requires |sent| == |flags| && k < |sent|
    ensures Rejected(sent[..k + 1], flags[..k + 1]) == Rejected(sent[..k], flags[..k]) + (if flags[k] then [] else [sent[k]])
    decreases k
  {
    if k > 0 {
      assert sent[..k + 1][1..] == sent[1..][..k] && flags[..k + 1][1..] == flags[1..][..k];
      assert sent[..k][1..] == sent[1..][..k - 1] && flags[..k][1..] == flags[1..][..k - 1];
      RejectedAppend(sent[1..], flags[1..], k - 1);
    }
  }

  lemma {:induction false} FillStep(c: Config, requests: seq<Block>, total: nat, started: bool, k: nat)
    requires k <= |requests| && k <= Fill(c, requests, total, started)
    ensures Fill(c, requests, total, started)
         == k + Fill(c, requests[k..], total + TotalLength(requests[..k]), started || k > 0)
    decreases k
  {
    if k > 0 {
      FillStep(c, requests[1..], total + requests[0].length, true, k - 1);
      assert requests[1..][k - 1..] == requests[k..];
      assert requests[..k][1..] == requests[1..][..k - 1];
    }
  }

  lemma {:induction false} TotalAppend(blocks: seq<Block>, b: Block)
    ensures TotalLength(blocks + [b]) == TotalLength(blocks) + b.length
    decreases |blocks|
  {
    if blocks != [] {
      assert (blocks + [b])[1..] == blocks[1..] + [b];
      TotalAppend(blocks[1..], b);
    }
  }

  lemma {:induction false} ContentsBytes(c: Config, source: Data, blocks: seq<Block>)
    requires c.Valid() && AllPlaced(c, |source|, blocks)
    ensures ContentBytes(Contents(source, blocks)) == TotalLength(blocks)
    decreases |blocks|
  {
    if blocks != [] {
      assert Placed(c, |source|, blocks[0]);
      assert Contents(source, blocks)[1..] == Contents(source, blocks[1..]);
      ContentsBytes(c, source, blocks[1..]);
    }
  }

  lemma MatchedAppend(sent: seq<Block>, flags: seq<bool>, k: nat)
    requires |sent| == |flags| && k < |sent|
    ensures Mem.Matched(sent[..k + 1], flags[..k + 1]) == Mem.Matched(sent[..k], flags[..k]) + if flags[k] then {sent[k].offset} else {}
  {
    var a, b := Mem.Matched(sent[..k + 1], flags[..k + 1]), Mem.Matched(sent[..k], flags[..k]);
    forall x | x in b ensures x in a {
      var i :| 0 <= i < k && flags[..k][i] && sent[..k][i].offset == x;
      assert flags[..k + 1][i] && sent[..k + 1][i].offset == x;
    }
    if flags[k] { assert flags[..k + 1][k] && sent[..k + 1][k].offset == sent[k].offset; }
  }

  lemma NoneAnswered(sent: seq<Block>, flags: seq<bool>)
    requires |sent| == |flags|
    ensures Rejected(sent[..0], flags[..0]) == [] && Mem.Matched(sent[..0], flags[..0]) == {}
  {
  }

  lemma OffsetsOfOne(blocks: seq<Block>, b: Block)
    ensures Mem.Offsets(blocks + [b]) == Mem.Offsets(blocks) + {b.offset}
  {
    Mem.OffsetsJoin(blocks, [b]);
    assert [b][0] == b;
  }

  lemma OffsetsAppend(blocks: seq<Block>, k: nat)
    requires k < |blocks|
    ensures Mem.Offsets(blocks[..k + 1]) == Mem.Offsets(blocks[..k]) + {blocks[k].offset}
  {
    assert blocks[..k + 1] == blocks[..k] + [blocks[k]];
    OffsetsOfOne(blocks[..k], blocks[k]);
  }

  lemma NoContent(source: Data, blocks: seq<Block>)
    ensures Contents(source, blocks[..0]) == [] && TotalLength(blocks[..0]) == 0 && Mem.Offsets(blocks[..0]) == {}
  {
  }

  /** The batch of content at its block `k`: it ends there or takes that block. */
  lemma ContentStep(c: Config, source: Data, blocks: seq<Block>, k: nat)
    requires k < |blocks| && k <= Fill(c, blocks, 0, false)
    ensures if k > 0 && TotalLength(blocks[..k]) + blocks[k].length > c.window then Fill(c, blocks, 0, false) == k
            else Fill(c, blocks, 0, false) > k
    ensures Contents(source, blocks[..k + 1]) == Contents(source, blocks[..k]) + [ReadAt(source, blocks[k].offset, blocks[k].length)]
    ensures TotalLength(blocks[..k + 1]) == TotalLength(blocks[..k]) + blocks[k].length
  {
    hide ReadAt;
    FillStep(c, blocks, 0, false, k);
    assert blocks[..k + 1] == blocks[..k] + [blocks[k]];
    TotalAppend(blocks[..k], blocks[k]);
  }

  /** A session opened on the source. `source` is the content of the stable file. */
  class SendingSession {
    const c: Config
    const source: Data
    var offset: nat
    var sent: seq<Block>
    var requests: seq<Block>
    var cache: map<nat, Data>
    var matching: bool
    var chain: seq<Digest>

    /** Queued blocks lie in the source, and what is cached is what the source holds there. */
    ghost predicate Valid()
      reads this
    {
      && c.Valid() && offset <= |source|
      && AllPlaced(c, |source|, sent) && AllPlaced(c, |source|, requests)
      && CacheMatches(cache)
    }

    ghost predicate CacheMatches(m: map<nat, Data>) {
      forall k :: k in m ==> k < |source| && m[k] == ReadAt(source, k, c.blockSize)
    }

    ghost function State(): (s: Sender)
      reads this
    {
      Sender(offset, sent, requests, matching, chain)
    }

    constructor (c: Config, source: Data)
      requires c.Valid()
      ensures Valid() && State() == NewSender && this.c == c && this.source == source
    {
      this.c, this.source := c, source;
      offset, sent, requests, cache, matching, chain := 0, [], [], map[], false, [];
    }

    /** `send`: the new state and the message are those of the specification, within the byte bound. */
    method Step(m: Message) returns (o: Outcome)
      requires Valid()
      modifies this
      ensures Valid()
      ensures (State(), o) == Send(c, source, old(State()), m)
      ensures o.Reply? ==> ContentBytes(o.message.blocks) <= Max(c.window, c.blockSize)
      ensures o.Reply? <==> Mem.Taken(old(State()), m)
      ensures o.Reply? ==> cache.Keys == Mem.Kept(c, |source|, old(State()), old(cache.Keys), m)
      ensures MemoryGrowth.CacheBytes(cache) == MemoryGrowth.Held(c, |source|, cache.Keys)
    {
      hide MemoryGrowth.CacheBytes, MemoryGrowth.Held;
      CachedBytes();
      if m.Batch? {
        return Raise(UnexpectedDecisions);
      }
      if m.Start? {
        if sent != [] {
          return Raise(MissingDecisions);
        }
      } else {
        if |m.flags| != |sent| {
          return Raise(UnexpectedDecisions);
        }
        Answer(m.flags);
      }
      ghost var before := State();
      var blocks := Content();
      var signatures := Sign();
      var done := offset == |source| && requests == [] && sent == [];
      o := Reply(Batch(signatures, blocks, if done then Some(c.seal(chain)) else None));
      assert (State(), o.message) == Emit(c, source, before);
      CachedBytes();
    }

    /** Drop the cached blocks that matched, and queue the others. */
    method Answer(flags: seq<bool>)
      requires Valid() && |flags| == |sent|
      modifies this
      ensures Valid() && State() == Answered(old(State()), flags)
      ensures cache.Keys == old(cache.Keys) - Mem.Matched(old(sent), flags)
    {
      hide Mem.Matched, Rejected, ReadAt;
      RejectedPlaced(c, |source|, sent, flags);
      NoneAnswered(sent, flags);
      var k := 0;
      while k < |sent|
        invariant k <= |sent| && sent == old(sent)
        invariant requests == old(requests) + Rejected(sent[..k], flags[..k])
        invariant CacheMatches(cache)
        invariant cache.Keys == old(cache.Keys) - Mem.Matched(sent[..k], flags[..k])
        invariant State() == old(State()).(requests := requests)
      {
        RejectedAppend(sent, flags, k);
        MatchedAppend(sent, flags, k);
        if flags[k] {
          cache := cache - {sent[k].offset};
        } else {
          requests := requests + [sent[k]];
        }
        k := k + 1;
      }
      assert sent[..k] == sent && flags[..k] == flags;
      if flags != [] {
        matching := All(flags);
      }
      sent := [];
    }

    method Content() returns (blocks: seq<Data>)
      requires Valid()
      modifies this`requests, this`cache
      ensures Valid()
      ensures var n := Fill(c, old(requests), 0, false);
              requests == old(requests)[n..] && blocks == Contents(source, old(requests)[..n])
      ensures ContentBytes(blocks) <= Max(c.window, c.blockSize)
      ensures cache.Keys == old(cache.Keys) - Mem.Offsets(old(requests)[..Fill(c, old(requests), 0, false)])
    {
      hide Fill, TotalLength, Contents, ReadAt, Mem.Offsets;
      ghost var all := requests;
      ghost var n := Fill(c, all, 0, false);
      FillBound(c, all, 0, false);
      NoContent(source, all);
      blocks := [];
      var total := 0;
      while requests != []
        invariant |blocks| <= n && requests == all[|blocks|..]
        invariant blocks == Contents(source, all[..|blocks|])
        invariant total == TotalLength(all[..|blocks|])
        invariant CacheMatches(cache)
        invariant cache.Keys == old(cache.Keys) - Mem.Offsets(all[..|blocks|])
      {
        ContentStep(c, source, all, |blocks|);
        OffsetsAppend(all, |blocks|);
        var next := requests[0];
        if blocks != [] && total + next.length > c.window {
          break;
        }
        CachedOrRead(next);
        requests := requests[1..];
        var data := if next.offset in cache then cache[next.offset] else ReadAt(source, next.offset, next.length);
        cache := cache - {next.offset};
        blocks := blocks + [data];
        total := total + next.length;
      }
      ContentsBytes(c, source, all[..n]);
    }

    /** The bytes in the cache are those that the theorems about its growth speak of. */
    lemma CachedBytes()
      requires Valid()
      ensures MemoryGrowth.CacheBytes(cache) == MemoryGrowth.Held(c, |source|, cache.Keys)
    {
      hide MemoryGrowth.CacheBytes, MemoryGrowth.Held;
      forall k | k in cache ensures |cache[k]| == MemoryGrowth.Weight(c, |source|, k) { CachedBlock(k); }
      MemoryGrowth.CacheBytesAreHeld(c, |source|, cache);
    }

    lemma CachedBlock(k: nat)
      requires Valid() && k in cache
      ensures |cache[k]| == MemoryGrowth.Weight(c, |source|, k)
    {
    }

    /** What is cached under an offset is the block there. */
    lemma CachedOrRead(b: Block)
      requires c.Valid() && CacheMatches(cache) && Placed(c, |source|, b)
      ensures b.offset in cache ==> cache[b.offset] == ReadAt(source, b.offset, b.length)
    {
    }

    method Sign() returns (batch: seq<Signature>)
      requires Valid()
      modifies this`offset, this`cache, this`chain, this`sent
      ensures Valid()
      ensures offset == SignEnd(c, |source|, old(offset), Ahead(c, matching))
      ensures batch == SignaturesOf(c, source, old(offset), offset)
      ensures chain == old(chain) + DigestsOf(batch)
      ensures sent == old(sent) + BlocksOf(c, |source|, old(offset), offset)
      ensures cache.Keys == old(cache.Keys) + if matching then {} else Mem.Offsets(BlocksOf(c, |source|, old(offset), offset))
    {
      hide SignaturesOf, DigestsOf, BlocksOf, Walk, SignEnd, ReadAt, Mem.Offsets;
      ghost var from := offset;
      ghost var end := SignEnd(c, |source|, offset, Ahead(c, matching));
      SignedNothing(c, source, offset);
      batch := [];
      var limit := Ahead(c, matching);
      var keep := !matching;
      while |batch| < limit && offset < |source|
        invariant Valid() && from <= offset && |batch| <= limit
        invariant SignEnd(c, |source|, offset, limit - |batch|) == end
        invariant Walk(c, |source|, from, offset)
        invariant batch == SignaturesOf(c, source, from, offset)
        invariant chain == old(chain) + DigestsOf(batch)
        invariant sent == old(sent) + BlocksOf(c, |source|, from, offset)
        invariant cache.Keys == old(cache.Keys) + if matching then {} else Mem.Offsets(BlocksOf(c, |source|, from, offset))
      {
        SignedAppend(c, source, from, offset);
        SignEndStep(c, |source|, offset, limit - |batch|);
        OffsetsOfOne(BlocksOf(c, |source|, from, offset), Block(offset, Span(c, |source|, offset)));
        Associative(old(sent), BlocksOf(c, |source|, from, offset), [Block(offset, Span(c, |source|, offset))]);
        ghost var digests := DigestsOf(batch);
        var signature := SignOne(keep);
        DigestsAppend(batch, signature);
        Associative(old(chain), digests, [signature.digest]);
        batch := batch + [signature];
      }
      SignEndStops(c, |source|, offset, limit - |batch|);
    }

    /** One turn of the signing loop: sign the next block, and keep its content when asked to. */
    method SignOne(keep: bool) returns (s: Signature)
      requires Valid() && offset < |source|
      modifies this`offset, this`cache, this`chain, this`sent
      ensures Valid()
      ensures var length := Span(c, |source|, old(offset));
              && offset == old(offset) + length
              && s == Signature(length, c.hash(source[old(offset)..offset]))
              && chain == old(chain) + [s.digest]
              && sent == old(sent) + [Block(old(offset), length)]
              && cache.Keys == old(cache.Keys) + if keep then {old(offset)} else {}
    {
      var length := Span(c, |source|, offset);
      var data := ReadAt(source, offset, length);
      if keep {
        cache := cache[offset := data];
      }
      s := Signature(length, c.hash(data));
      chain := chain + [s.digest];
      sent := sent + [Block(offset, length)];
      offset := offset + length;
    }
  }

  lemma SignedNothing(c: Config, source: Data, at: nat)
    requires c.Valid() && at <= |source|
    ensures SignaturesOf(c, source, at, at) == [] && BlocksOf(c, |source|, at, at) == [] && DigestsOf([]) == [] && Walk(c, |source|, at, at)
    ensures Mem.Offsets([]) == {}
  {
  }

  lemma SignEndStep(c: Config, size: nat, at: nat, count: nat)
    requires c.Valid() && at < size && count > 0
    ensures SignEnd(c, size, at, count) == SignEnd(c, size, at + Span(c, size, at), count - 1)
  {
  }

  lemma SignEndStops(c: Config, size: nat, at: nat, count: nat)
    requires c.Valid() && at <= size && (count == 0 || at == size)
    ensures SignEnd(c, size, at, count) == at
  {
  }

  lemma DigestsAppend(signatures: seq<Signature>, s: Signature)
    ensures DigestsOf(signatures + [s]) == DigestsOf(signatures) + [s.digest]
  {
  }

  lemma {:induction false} SignedAppend(c: Config, source: Data, from: nat, at: nat)
    requires c.Valid() && from <= at < |source| && Walk(c, |source|, from, at)
    ensures var next := at + Span(c, |source|, at);
            && Walk(c, |source|, from, next)
            && SignaturesOf(c, source, from, next)
               == SignaturesOf(c, source, from, at) + [Signature(next - at, c.hash(source[at..next]))]
            && BlocksOf(c, |source|, from, next) == BlocksOf(c, |source|, from, at) + [Block(at, next - at)]
    decreases at - from
  {
    WalkStep(c, |source|, from, at);
    if from < at {
      SignedAppend(c, source, from + Span(c, |source|, from), at);
    }
  }

  /** A session opened on the destination. `path` is what the destination path holds now. */
  class ReceivingSession {
    const c: Config
    const target: Target
    var offset: nat
    var decided: nat
    var plan: seq<Planned>
    var chain: seq<Digest>
    var transferred: nat
    var reused: nat
    var output: Option<Data>
    var path: Option<Data>

    ghost predicate Valid()
      reads this
    {
      c.Valid() && Safe(c, target, State())
    }

    ghost function State(): (r: Receiver)
      reads this
    {
      Receiver(offset, decided, plan, chain, transferred, reused, output)
    }

    constructor (c: Config, target: Target)
      requires c.Valid()
      ensures Valid() && State() == NewReceiver && path == target.existing
      ensures this.c == c && this.target == target
    {
      this.c, this.target := c, target;
      offset, decided, plan, chain, transferred, reused, output := 0, 0, [], [], 0, 0, None;
      path := target.existing;
      new;
      AfterSafe(c, target, []);
    }

    /** `receive`: any message keeps the session valid, and the path changes only with a result. */
    method Step(m: Message) returns (o: Outcome)
      requires Valid()
      modifies this
      ensures Valid()
      ensures (State(), o) == Receive(c, target, old(State()), m)
      ensures path == if o.Done? && o.result.changed then output else old(path)
    {
      if !m.Batch? {
        return Raise(InvalidMessage);
      }
      var error := WriteBlocks(m.blocks);
      if error.Some? {
        return Raise(error.value);
      }
      var flags := DecideSignatures(m.signatures);
      if flags.None? {
        return Raise(InvalidSignature);
      }
      CommitFront();
      if m.digest.Some? {
        o := Finish(m.digest.value);
      } else {
        o := Reply(Decisions(flags.value));
      }
    }

    method WriteBlocks(blocks: seq<Data>) returns (error: Option<Error>)
      requires Valid()
      modifies this
      ensures Valid() && path == old(path)
      ensures (State(), error) == WriteAll(c, target, old(State()), blocks)
    {
      var k := 0;
      error := None;
      while k < |blocks|
        invariant k <= |blocks| && Valid() && path == old(path)
        invariant error.None?
        invariant WriteAll(c, target, old(State()), blocks) == WriteAll(c, target, State(), blocks[k..])
      {
        error := Write(blocks[k]);
        if error.Some? {
          return;
        }
        CommitFront();
        assert blocks[k..][1..] == blocks[k + 1..];
        k := k + 1;
      }
    }

    method DecideSignatures(signatures: seq<Signature>) returns (flags: Option<seq<bool>>)
      requires Valid()
      modifies this
      ensures Valid() && path == old(path)
      ensures (State(), flags) == DecideAll(c, target, old(State()), signatures)
    {
      var k := 0;
      var answers := [];
      ghost var start := State();
      assert signatures[0..] == signatures;
      AnsweringNone(DecideAll(c, target, start, signatures));
      while k < |signatures|
        invariant k <= |signatures| && Valid() && path == old(path)
        invariant DecideAll(c, target, start, signatures)
               == Answering(answers, DecideAll(c, target, State(), signatures[k..]))
      {
        ghost var before := State();
        var flag := Decide(signatures[k]);
        assert signatures[k..][1..] == signatures[k + 1..];
        if flag.None? {
          return None;
        }
        AnsweringAppend(answers, flag.value, DecideAll(c, target, State(), signatures[k + 1..]));
        answers := answers + [flag.value];
        k := k + 1;
      }
      assert answers + [] == answers;
      flags := Some(answers);
    }

    method Write(data: Data) returns (error: Option<Error>)
      requires Valid()
      modifies this
      ensures Valid() && path == old(path)
      ensures (State(), error) == FileExchange.Write(c, target, old(State()), data)
    {
      WriteSafe(c, target, State(), data);
      if plan == [] || plan[0].matched {
        return Some(UnexpectedContent);
      }
      var planned := plan[0];
      if |data| != planned.length || c.hash(data) != planned.signature {
        return Some(CorruptBlock);
      }
      if output.None? {
        Open();
      }
      plan := plan[1..];
      output := Some(output.value + data);
      chain := chain + [planned.signature];
      offset := offset + |data|;
      transferred := transferred + |data|;
      error := None;
    }

    /** `start`: copy the part that already matched, one block at a time. */
    method Open()
      requires c.Valid() && output.None? && |Committed(target, State())| == offset
      modifies this`output
      ensures output == Some(Committed(target, old(State())))
    {
      output := Some([]);
      if offset == 0 || target.existing.None? {
        return;
      }
      var position := 0;
      var remaining := offset;
      var file := target.existing.value;
      while remaining > 0
        invariant 0 <= remaining && 0 <= position && position + remaining == offset <= |file|
        invariant output == Some(file[..position])
      {
        var chunk := ReadAt(file, position, Min(c.blockSize, remaining));
        assert |chunk| > 0;  // a shorter destination would raise here
        assert file[..position] + chunk == file[..position + |chunk|];
        output := Some(output.value + chunk);
        position := position + |chunk|;
        remaining := remaining - |chunk|;
      }
      assert file[..position] == target.Read(0, offset);
    }

    method CommitFront()
      requires Valid()
      modifies this
      ensures Valid() && path == old(path)
      ensures State() == Commit(target, old(State()))
    {
      while plan != [] && plan[0].matched
        invariant Valid() && path == old(path)
        invariant Commit(target, State()) == Commit(target, old(State()))
        decreases |plan|
      {
        KeepFront();
      }
    }

    method KeepFront()
      requires Valid() && plan != [] && plan[0].matched
      modifies this
      ensures Valid() && path == old(path)
      ensures State() == Keep(target, old(State()))
    {
      KeepSafe(c, target, State());
      var planned := plan[0];
      plan := plan[1..];
      if output.Some? {
        var data := target.Read(offset, planned.length);
        assert |data| == planned.length;  // a shorter destination would raise here
        output := Some(output.value + data);
      }
      chain := chain + [planned.signature];
      offset := offset + planned.length;
      assert State() == Keep(target, old(State()));
    }

    method Decide(s: Signature) returns (flag: Option<bool>)
      requires Valid()
      modifies this
      ensures Valid() && path == old(path)
      ensures (State(), flag) == FileExchange.Decide(c, target, old(State()), s)
    {
      DecideSafe(c, target, State(), s);
      if s.length <= 0 || s.length != Min(c.blockSize, target.size - decided) {
        return None;
      }
      var data := target.Read(decided, s.length);
      var matched := |data| == s.length && c.hash(data) == s.digest;
      plan := plan + [Planned(s.length, s.digest, matched)];
      decided := decided + s.length;
      if matched {
        reused := reused + s.length;
      }
      flag := Some(matched);
    }

    method Finish(digest: Digest) returns (o: Outcome)
      requires Valid()
      modifies this
      ensures Valid()
      ensures (State(), o) == FileExchange.Finish(c, target, old(State()), digest)
      ensures path == if o.Done? && o.result.changed then output else old(path)
    {
      FinishSafe(c, target, State(), digest);
      if offset != target.size {
        return Raise(Incomplete);
      }
      if c.seal(chain) != digest {
        return Raise(DigestMismatch);
      }
      var changed := target.existing.None? || |target.existing.value| != target.size || transferred > 0;
      if changed {
        if output.None? {
          Open();
        }
        path := output;
      }
      o := Done(SyncResult(changed, target.size, transferred, reused));
    }
  }

  /** The answers given so far, in front of those still to come. */
  ghost function Answering(answers: seq<bool>, rest: (Receiver, Option<seq<bool>>)): (r: (Receiver, Option<seq<bool>>)) {
    (rest.0, if rest.1.None? then None else Some(answers + rest.1.value))
  }

  lemma AnsweringNone(rest: (Receiver, Option<seq<bool>>))
    ensures Answering([], rest) == rest
  {
    if rest.1.Some? {
      assert [] + rest.1.value == rest.1.value;
    }
  }

  lemma AnsweringAppend(answers: seq<bool>, flag: bool, rest: (Receiver, Option<seq<bool>>))
    ensures Answering(answers + [flag], rest)
         == Answering(answers, (rest.0, if rest.1.None? then None else Some([flag] + rest.1.value)))
  {
    if rest.1.Some? {
      Associative(answers, [flag], rest.1.value);
    }
  }

  /**
   The loop of `FileSync.transfer` on stable files. It terminates without an error; the destination
   ends up as the source does whenever no digest collision hides a difference, and then the counters
   are exact: bytes of differing blocks travelled, the others were reused, and `changed` is a real change.
   */
  method Transfer(c: Config, source: Data, existing: Option<Data>) returns (result: SyncResult, installed: Option<Data>)
    requires c.Valid()
    ensures var x := Case(c, source, existing);
            && installed == Some(x.Merged(0))
            && result.transferred == x.MissingBytes(0)
            && result.transferred + result.reused == result.size == |source|
            && (result.changed <==> existing != installed)
            && (installed == Some(source) <==> x.NoCollision(0))
            && (x.NoCollision(0) ==> result.transferred == x.DifferingBytes(0))
  {
    hide Send, Receive, Case.Merged, Case.MissingBytes, Case.NoCollision, Case.DifferingBytes;
    ghost var x := Case(c, source, existing);
    var sender := new SendingSession(c, source);
    var receiver := new ReceivingSession(c, Target(|source|, existing));
    JointStart(x);
    ghost var flags := [];
    var message := Start;
    while true
      invariant sender.Valid() && sender.c == c && sender.source == source
      invariant receiver.Valid() && receiver.c == c && receiver.target == x.Target() && receiver.path == existing
      invariant Joint(x, sender.State(), receiver.State(), flags)
      invariant message == Decisions(flags) || (message == Start && flags == [] && sender.State() == NewSender)
      decreases Remaining(x, sender.State())
    {
      Round(x, sender.State(), receiver.State(), flags);
      StartIsEmptyAnswer(x);
      var batch := sender.Step(message);
      var outcome := receiver.Step(batch.message);
      if outcome.Done? {
        MergedIsSource(x, 0);
        assert source[0..] == source;
        if x.NoCollision(0) {
          TransferredIsDiffering(x, 0);
        }
        return outcome.result, receiver.path;
      }
      message := outcome.message;
      flags := outcome.message.flags;
    }
  }

  lemma JointStart(x: Case)
    requires x.c.Valid()
    ensures Joint(x, NewSender, NewReceiver, [])
  {
    assert Committed(x.Target(), NewReceiver) == [];
  }

  /** The first message is an empty list of answers. */
  lemma StartIsEmptyAnswer(x: Case)
    requires x.c.Valid()
    ensures Send(x.c, x.source, NewSender, Start) == Send(x.c, x.source, NewSender, Decisions([]))
  {
    assert Answered(NewSender, []) == NewSender;
  }
}
