/**
 The block exchange of `rmote/tools/file_sync.py` as functions on values: what one
 message does to a sender and to a receiver, and what a whole exchange leaves behind.

 `hash` stands for SHA-256 of a block and `seal` for the digest over the chain of block
 signatures. Nothing is assumed about either of them.
 */
module FileExchange {
  import opened Prelude

  type Digest = seq<byte>

  datatype Config = Config(blockSize: nat, window: nat, signatureBatch: nat,
                           hash: Data -> Digest, seal: seq<Digest> -> Digest)
  {
    predicate Valid() {
      0 < blockSize <= 16 * 1024 * 1024 && 0 < window && 0 < signatureBatch
    }
  }

  datatype Block = Block(offset: nat, length: nat)

  // A length received from a peer is any integer.
  datatype Signature = Signature(length: int, digest: Digest)

  datatype Planned = Planned(length: nat, signature: Digest, matched: bool)

  datatype SyncResult = SyncResult(changed: bool, size: nat, transferred: nat, reused: nat)

  datatype Message =
    | Start
    | Decisions(flags: seq<bool>)
    | Batch(signatures: seq<Signature>, blocks: seq<Data>, digest: Option<Digest>)

  datatype Error =
    | MissingDecisions | UnexpectedDecisions
    | InvalidMessage | InvalidSignature | UnexpectedContent | CorruptBlock
    | Incomplete | DigestMismatch

  datatype Outcome =
    | Raise(error: Error)
    | Reply(message: Message)
    | Done(result: SyncResult)

  // ---------------------------------------------------------------- reading files

  /** `seek(offset)` then `read(length)`: shorter than asked at the end of the file. */
  function ReadAt(file: Data, offset: nat, length: nat): (r: Data)
    ensures |r| <= length
    ensures offset + length <= |file| ==> r == file[offset..offset + length]
  {
    if offset >= |file| then [] else file[offset..Min(offset + length, |file|)]
  }

  /** Length of the block that starts at `at` in a file of `size` bytes. */
  function Span(c: Config, size: nat, at: nat): (n: nat)
    requires c.Valid() && at < size
    ensures 0 < n <= c.blockSize && at + n <= size
  {
    Min(c.blockSize, size - at)
  }

  // ---------------------------------------------------------------- sender

  datatype Sender = Sender(offset: nat, sent: seq<Block>, requests: seq<Block>, matching: bool, chain: seq<Digest>)

  const NewSender := Sender(0, [], [], false, [])

  function Rejected(sent: seq<Block>, flags: seq<bool>): (r: seq<Block>)
    requires |sent| == |flags|
    ensures |r| <= |sent|
  {
    if sent == [] then [] else (if flags[0] then [] else [sent[0]]) + Rejected(sent[1..], flags[1..])
  }

  /** How many of the requested blocks one message carries. */
  function Fill(c: Config, requests: seq<Block>, total: nat, started: bool): (n: nat)
    ensures n <= |requests|
  {
    if requests == [] || (started && total + requests[0].length > c.window) then 0
    else 1 + Fill(c, requests[1..], total + requests[0].length, true)
  }

  function Contents(source: Data, blocks: seq<Block>): (r: seq<Data>)
    ensures |r| == |blocks|
    ensures forall i :: 0 <= i < |r| ==> r[i] == ReadAt(source, blocks[i].offset, blocks[i].length)
  {
    seq(|blocks|, i requires 0 <= i < |blocks| => ReadAt(source, blocks[i].offset, blocks[i].length))
  }

  function Ahead(c: Config, matching: bool): (n: nat)
    requires c.Valid()
    ensures n > 0
  {
    if matching then c.signatureBatch else Max(1, c.window / c.blockSize)
  }

  /** The position after signing at most `limit` blocks from `at`. */
  function SignEnd(c: Config, size: nat, at: nat, limit: nat): (end: nat)
    requires c.Valid() && at <= size
    ensures at <= end <= size
    ensures limit > 0 && at < size ==> at < end
    decreases limit
  {
    if limit == 0 || at == size then at else SignEnd(c, size, at + Span(c, size, at), limit - 1)
  }

  /** `until` is reached from `from` by whole blocks. */
  ghost predicate Walk(c: Config, size: nat, from: nat, until: nat)
    requires c.Valid() && from <= until <= size
    decreases until - from
  {
    from == until || (from + Span(c, size, from) <= until && Walk(c, size, from + Span(c, size, from), until))
  }

  function BlocksOf(c: Config, size: nat, from: nat, until: nat): (r: seq<Block>)
    requires c.Valid() && until <= size
    decreases until - from
  {
    if from >= until then [] else [Block(from, Span(c, size, from))] + BlocksOf(c, size, from + Span(c, size, from), until)
  }

  function SignaturesOf(c: Config, source: Data, from: nat, until: nat): (r: seq<Signature>)
    requires c.Valid() && until <= |source|
    decreases until - from
  {
    if from >= until then []
    else
      var n := Span(c, |source|, from);
      [Signature(n, c.hash(source[from..from + n]))] + SignaturesOf(c, source, from + n, until)
  }

  function DigestsOf(signatures: seq<Signature>): (r: seq<Digest>)
    ensures |r| == |signatures|
  {
    seq(|signatures|, i requires 0 <= i < |signatures| => signatures[i].digest)
  }

  predicate All(flags: seq<bool>) { forall i :: 0 <= i < |flags| ==> flags[i] }

  /** The bookkeeping of `send` before it writes: take the answers to the last batch. */
  function Answered(s: Sender, flags: seq<bool>): (r: Sender)
    requires |s.sent| == |flags|
  {
    s.(requests := s.requests + Rejected(s.sent, flags),
       matching := if flags == [] then s.matching else All(flags),
       sent := [])
  }

  /** `content` followed by `signatures`, and the final hash when nothing is left. */
  function Emit(c: Config, source: Data, s: Sender): (r: (Sender, Message))
    requires c.Valid() && s.offset <= |source|
    ensures r.0.offset <= |source| && r.1.Batch?
  {
    var n := Fill(c, s.requests, 0, false);
    var end := SignEnd(c, |source|, s.offset, Ahead(c, s.matching));
    var signatures := SignaturesOf(c, source, s.offset, end);
    var s' := s.(offset := end,
                 requests := s.requests[n..],
                 sent := s.sent + BlocksOf(c, |source|, s.offset, end),
                 chain := s.chain + DigestsOf(signatures));
    var done := end == |source| && s'.requests == [] && s'.sent == [];
    (s', Batch(signatures, Contents(source, s.requests[..n]), if done then Some(c.seal(s'.chain)) else None))
  }

  function Send(c: Config, source: Data, s: Sender, m: Message): (r: (Sender, Outcome))
    requires c.Valid() && s.offset <= |source|
    ensures r.0.offset <= |source|
  {
    match m
    case Start =>
      if s.sent != [] then (s, Raise(MissingDecisions))
      else var (s', b) := Emit(c, source, s); (s', Reply(b))
    case Decisions(flags) =>
      if |flags| != |s.sent| then (s, Raise(UnexpectedDecisions))
      else var (s', b) := Emit(c, source, Answered(s, flags)); (s', Reply(b))
    case Batch(_, _, _) => (s, Raise(UnexpectedDecisions))
  }

  /** What a sender refuses, exactly, and that a refusal changes nothing. */
  lemma SendRefuses(c: Config, source: Data, s: Sender, m: Message, e: Error)
    requires c.Valid() && s.offset <= |source|
    ensures Send(c, source, s, m).1 == Raise(e) <==>
            || (e == MissingDecisions && m.Start? && s.sent != [])
            || (e == UnexpectedDecisions && (m.Batch? || (m.Decisions? && |m.flags| != |s.sent|)))
    ensures Send(c, source, s, m).1.Raise? ==> Send(c, source, s, m).0 == s
  {
    hide Emit, Answered;
  }

  // ---------------------------------------------------------------- receiver

  /** What a receiver is opened on: the expected size and the existing destination, if any. */
  datatype Target = Target(size: nat, existing: Option<Data>)
  {
    function Read(offset: nat, length: nat): (r: Data)
      ensures |r| <= length
    {
      if existing.None? then [] else ReadAt(existing.value, offset, length)
    }
  }

  datatype Receiver = Receiver(offset: nat, decided: nat, plan: seq<Planned>, chain: seq<Digest>,
                               transferred: nat, reused: nat, output: Option<Data>)

  const NewReceiver := Receiver(0, 0, [], [], 0, 0, None)

  /** The bytes a receiver stands for: its copy, or the part of the destination that matched. */
  function Committed(t: Target, r: Receiver): (data: Data) {
    if r.output.Some? then r.output.value else t.Read(0, r.offset)
  }

  /** `keep` on the block at the front of the plan. */
  function Keep(t: Target, r: Receiver): (r': Receiver)
    requires r.plan != []
  {
    var p := r.plan[0];
    r.(plan := r.plan[1..],
       output := if r.output.Some? then Some(r.output.value + t.Read(r.offset, p.length)) else None,
       chain := r.chain + [p.signature],
       offset := r.offset + p.length)
  }

  function Commit(t: Target, r: Receiver): (r': Receiver)
    decreases |r.plan|
  {
    if r.plan == [] || !r.plan[0].matched then r else Commit(t, Keep(t, r))
  }

  function Write(c: Config, t: Target, r: Receiver, data: Data): (o: (Receiver, Option<Error>)) {
    if r.plan == [] || r.plan[0].matched then (r, Some(UnexpectedContent))
    else if |data| != r.plan[0].length || c.hash(data) != r.plan[0].signature then (r, Some(CorruptBlock))
    else
      (r.(plan := r.plan[1..],
          output := Some(Committed(t, r) + data),
          chain := r.chain + [r.plan[0].signature],
          offset := r.offset + |data|,
          transferred := r.transferred + |data|), None)
  }

  function WriteAll(c: Config, t: Target, r: Receiver, blocks: seq<Data>): (o: (Receiver, Option<Error>))
    decreases |blocks|
  {
    if blocks == [] then (r, None)
    else
      var (r', e) := Write(c, t, r, blocks[0]);
      if e.Some? then (r', e) else WriteAll(c, t, Commit(t, r'), blocks[1..])
  }

  function Matches(c: Config, t: Target, at: nat, length: nat, digest: Digest): bool {
    |t.Read(at, length)| == length && c.hash(t.Read(at, length)) == digest
  }

  /** `decide`: None is a refused signature. */
  function Decide(c: Config, t: Target, r: Receiver, s: Signature): (o: (Receiver, Option<bool>)) {
    if s.length <= 0 || s.length != Min(c.blockSize, t.size - r.decided) then (r, None)
    else
      var matched := Matches(c, t, r.decided, s.length, s.digest);
      (r.(plan := r.plan + [Planned(s.length, s.digest, matched)],
          decided := r.decided + s.length,
          reused := if matched then r.reused + s.length else r.reused), Some(matched))
  }

  function DecideAll(c: Config, t: Target, r: Receiver, signatures: seq<Signature>): (o: (Receiver, Option<seq<bool>>))
    decreases |signatures|
    ensures o.1.Some? ==> |o.1.value| == |signatures|
  {
    if signatures == [] then (r, Some([]))
    else
      var (r', flag) := Decide(c, t, r, signatures[0]);
      if flag.None? then (r', None)
      else
        var (r'', flags) := DecideAll(c, t, r', signatures[1..]);
        (r'', if flags.None? then None else Some([flag.value] + flags.value))
  }

  predicate Changed(t: Target, r: Receiver) {
    t.existing.None? || |t.existing.value| != t.size || r.transferred > 0
  }

  /** `finish`: the copy is started here when only the size differs. */
  function Finish(c: Config, t: Target, r: Receiver, digest: Digest): (o: (Receiver, Outcome)) {
    if r.offset != t.size then (r, Raise(Incomplete))
    else if c.seal(r.chain) != digest then (r, Raise(DigestMismatch))
    else
      var changed := Changed(t, r);
      (if changed then r.(output := Some(Committed(t, r))) else r,
       Done(SyncResult(changed, t.size, r.transferred, r.reused)))
  }

  function Receive(c: Config, t: Target, r: Receiver, m: Message): (o: (Receiver, Outcome)) {
    if !m.Batch? then (r, Raise(InvalidMessage))
    else
      var (r1, e) := WriteAll(c, t, r, m.blocks);
      if e.Some? then (r1, Raise(e.value))
      else
        var (r2, flags) := DecideAll(c, t, r1, m.signatures);
        if flags.None? then (r2, Raise(InvalidSignature))
        else
          var r3 := Commit(t, r2);
          if m.digest.Some? then Finish(c, t, r3, m.digest.value)
          else (r3, Reply(Decisions(flags.value)))
  }

  /** What the destination path holds after a result: the copy, or the untouched file. */
  function Installed(t: Target, r: Receiver, result: SyncResult): (data: Option<Data>) {
    if result.changed then r.output else t.existing
  }
}
