# Verified models of rmote

rmote runs Python tools on remote hosts over one connection. This project models the parts of it that
are hardest to get right, in Dafny 4.11, and proves what they promise for every input, every run and
every interleaving:

- the **file block exchange** (`rmote/tools/file_sync.py`): a sender and a receiver that compare blocks
  by digest and move only those that differ;
- **streaming responses** (`rmote/protocol.py`): a producer that pays for items out of two budgets, a
  batching writer, a bounded queue, and permission that travels back lazily;
- **framing** (`rmote/protocol.py`): packets cut into frames that interleave, one stateful codec for each
  direction, and a grouped way to decode that must equal the inline one;
- the **log pipeline** (`rmote/protocol.py`): one batch on the wire at a time on the remote side, a worker
  that sleeps and is woken on the local side;
- the **template engine** (`rmote/templates/engine.py`): the Pratt parser for expressions, the block
  parser, and rendering with `break` and `continue`;
- the **synchronous runtime** (`rmote/_runtime.py`): the lock-free handshake between `submit`, `close` and
  the loop thread;
- **tree synchronisation** (`rmote/tools/rsync.py`): exclusion globs, pruning removal and the two passes
  over a directory tree;
- **freezing** (`rmote/immutable.py`): a memoised depth-first walk that rejects cycles;
- the **cache** (`rmote/cache`): three stores that must choose the same write.

`dafny verify dfyconfig.toml` checks the whole project.

## How it is built

Code that changes fields step by step is modelled by classes and methods with loops (`FileSession`,
`StreamParts`, `Framing`, `Reception`, `RemoteLog`, `ExpressionReader`, `TemplateReader`, `Rendering`,
`Freezer`, `TreeRemoval`, `TreeWalk`, `Globs`, `CacheStores`). Each method is proved against a function on
values, and the laws are proved about those functions. Protocols between threads or processes are state
machines whose steps are the stretches of code between two awaits, or single accesses to shared fields
where threads are involved (`Streams`, `Interleaving`, `Weaving`, `RemoteLog`, `LogDelivery`, `Runtime`); their
theorems quantify over all runs, and what reaches a caller is stated by the events of the run.

Sizes such as `WINDOW`, `FRAGMENT_SIZE`, `MAX_STREAM_WINDOW` and `MAX_STREAM_BACKLOG` are symbolic.
Digests, codecs, evaluation of expressions, name matching inside one path component and conversion to
`float` are function parameters; what is assumed about them is written in the contracts: nothing about
digests and evaluation, that decoding undoes encoding in the same order for codecs, that rounding is
monotone and idempotent for `float`.

## Where the code does not meet a property

Each entry has its exact condition, proved as an if-and-only-if for all inputs.

- **The exchanged file equals the source** if and only if no reused block collides in its digest
  (`ExchangeCorrectness.MergedIsSource`); with injective digests it always does.
- **The sender keeps at most one window in memory** (promised at `rmote/tools/file_sync.py:96`) if and only
  if a batch of signatures is at most the blocks that fit a window
  (`MemoryGrowth.WindowHoldsExactlyWhen`). There is a bound independent of the file if and only if the batch
  is at most twice those blocks (`MemoryGrowth.BoundedExactlyWhen`). With the constants of the repository,
  64 signatures against two blocks of 4 MiB, no bound holds (`MemoryGrowth.DefaultsAreUnbounded`).
- **A stream can deadlock** on an item if and only if the consumer may keep a debt and the item does not fit
  beside the largest one (`StreamTheorems.StuckExactlyWhen`, for all limits); items of at most half the
  window never do (`StreamTheorems.HalfWindowNeverStuck`).
- **A stream of an accepted item goes over budget** if and only if its header no longer fits the largest
  item (`StreamTheorems.HeaderBreaksLargestItems`): the consumer counts the header, the producer does not.
- **A source manifest around a packet** can stop the producer while the consumer reads, and can then show
  the caller a normal end of a truncated stream, if and only if it is not empty, whatever the limits and
  however small it is (`StreamEnvelopes.EnvelopeStopsTheSender`). It can also bring the consumer over its
  budget, if and only if a second item can be paid for while the first is in flight
  (`StreamEnvelopes.EnvelopeGoesOverExactlyWhen`). The conservation laws therefore speak of
  streams without either of the last two.
- **Two packets that share the wire come out as they were sent** if and only if they have different ids or
  no frame of one arrives while the other is partly sent (`Weaving.IntactExactlyWhen`). Both endpoints count
  ids from 0, so distinct open ids are a hypothesis of `Interleaving.Reassembled`.
- **A remote log record stays unscheduled** after exactly three ends of a batch
  (`RemoteLog.ScheduledExactlyUnless`): a response that carried the records before it, sent or failed, while
  `draining` is still set, and a failed send of its own. After a response no later record schedules anything
  either, until another response takes them all (`RemoteLog.StrandedStay`); after a failed send the next
  record helps (`RemoteLog.RecordRescues`).
- **The local log worker** never misses a wake-up and keeps the order as long as it is the only one. A second
  one starts exactly when `deliver` looks for the worker after `stop` has taken it and at `closing` before
  `stop` has set it (`LogDelivery.SecondWorkerExactlyWhen`); with it, records can be handled out of order if
  and only if the queue has room for one, and a worker can be left asleep (`LogDelivery.TwoWorkersExactly`)
  until `stop` is called once more (`LogDelivery.AbandonedForGood`, `LogDelivery.StoppedAgain`). In the
  repository `stop` is called after the receive loop has ended (`rmote/protocol.py:2358`), which closes that
  window.
- **`stop` delivers what waits** (promised at `rmote/protocol.py:180` and `rmote/protocol.py:2357`), with one
  worker, unless exactly this happened: the worker found the deque empty, a `deliver` extended it before
  `stop` was called, and the worker saw `closing` without looking at the deque again
  (`LogDelivery.StopDelivers`). That can happen for every queue with room for a record
  (`LogDelivery.StopLeavesExactlyWhen`), also when the receive loop has ended before the call.
- **A second tree transfer reports no change** if and only if `delete_excluded` met no entry that only the
  kind of the destination excluded (`TreeTheorems.SecondTransfer`, `TreeTheorems.SecondTransferChanges`).
- **The JSON and SQLite caches agree** on all runs with given entries if and only if SQLite can bind the times
  of all that are valid and can be encoded, no two of them under one key are torn by rounding, and none that
  cannot be encoded is older than one of them under its key while another key has one
  (`Caches.BackendsAgree`). The int 2\*\*53 + 3 is torn against itself (`Caches.TornTime`); an int of 2\*\*63
  or more cannot be bound, 2\*\*64 for example (`Caches.UnboundTime`); a superseded entry with data that
  cannot be encoded lets the rest of its batch into the document and not into the table
  (`Caches.HiddenData`). Floats are never torn (`Caches.FloatsAreNotTorn`).
- **The cache in memory agrees with both backends** on all runs with given entries if and only if an entry has
  a key exactly when it is valid and can be encoded, its time can then be bound, and the three rules decide
  alike between different entries of one key (`Caches.StoresAgree`). `Cache.merge` tests the key and nothing
  else: it refuses an empty key, which both backends store (`Caches.EmptyKey`), and it holds negative times
  and data that cannot be encoded, which both refuse (`Caches.NegativeTime`, `Caches.UnencodableData`). For
  valid entries with keys and with times that `float` leaves alone and SQLite can bind all three agree
  (`Caches.ExactTimesAgree`).

## Model

| member | source | states |
|---|---|---|
| FileSession.SendingSession.Step | rmote/tools/file_sync.py:223-247 | `send`: checks the decisions, takes the answers, fills content and signatures and adds the digest of the chain at the end, as the specification says; content of one message never exceeds the larger of the window and one block, exactly the blocks of `SenderMemory.Kept` are cached, and their bytes are what `MemoryGrowth.Held` counts |
| FileSession.SendingSession.Answer | rmote/tools/file_sync.py:236-242 | the rejected blocks join the requests in order, the matched ones leave the cache, and every cached block stays equal to the source |
| FileSession.SendingSession.Content | rmote/tools/file_sync.py:258-276 | takes the longest run of requests that fits the window, at least one; the data are the source blocks, from the cache or re-read |
| FileSession.SendingSession.Sign | rmote/tools/file_sync.py:278-303 | signs the next whole blocks up to the batch that the mode allows, and extends the chain by their digests |
| FileSession.ReceivingSession.Step | rmote/tools/file_sync.py:305-316 | `receive`: writes content, decides signatures and finishes as the specification says, for every message |
| FileSession.ReceivingSession.Decide | rmote/tools/file_sync.py:318-334 | a signature is refused unless it has the length due; otherwise it is planned, matched exactly when the destination has such a block there |
| FileSession.ReceivingSession.Write | rmote/tools/file_sync.py:336-345 | content is taken only for the first planned block, with its length and digest |
| FileSession.ReceivingSession.CommitFront | rmote/tools/file_sync.py:347-355 | keeps matched blocks until the plan is empty or needs content |
| FileSession.ReceivingSession.KeepFront | rmote/tools/file_sync.py:357-370 | a kept block advances the offset and the chain, and is copied once a copy is open |
| FileSession.ReceivingSession.Open | rmote/tools/file_sync.py:386-409 | the copy opened late starts with exactly what was committed so far |
| FileSession.ReceivingSession.Finish | rmote/tools/file_sync.py:411-452 | installs the copy exactly when something changed; raises for an incomplete file or another chain |
| FileSession.Transfer | rmote/tools/file_sync.py:649-720 | for every source, destination and block size the loop of two sessions ends without an error; the file left is the merge, equals the source exactly without collisions; `changed` holds exactly when the destination differs from what it was; transferred and reused add up to the size |
| ReceiverSafety.ReceiveSafe | rmote/tools/file_sync.py:305-370 | one message, valid or not, keeps: what is committed has the signatures of the chain, the plan covers what is decided |
| ReceiverSafety.ReceiverNeverLies | rmote/tools/file_sync.py:428-452 | against any sequence of messages, a result means that all bytes were committed, the plan is empty, the block signatures of the content form the chain behind the given digest, and transferred plus reused is the size |
| ExchangeCorrectness.Round | rmote/tools/file_sync.py:223-316 | with stable files no round raises, and each either completes the transfer or decreases the unsigned, unanswered and requested work |
| FileExchange.SendRefuses | rmote/tools/file_sync.py:223-247 | which messages a sender refuses and how, exactly, and that a refusal changes nothing |
| ReceiverSafety.ReceiveRefuses | rmote/tools/file_sync.py:305-345 | which content and signatures a receiver refuses and how, keeping nothing of them |
| ExchangeCorrectness.FinishComplete | rmote/tools/file_sync.py:411-452 | a receiver that is in step at the end of the source accepts the digest and has the merged file |
| ExchangeCorrectness.MergedIsSource | rmote/tools/file_sync.py:318-345 | the exchange reproduces the source if and only if no reused block is a collision |
| ExchangeCorrectness.InjectiveNeverCollides | rmote/tools/file_sync.py:318-328 | digests that tell blocks apart leave no collision |
| ExchangeCorrectness.CollisionKeepsTheOldBlock | rmote/tools/file_sync.py:318-328 | a concrete collision that leaves the old block in place |
| ExchangeCorrectness.TransferredIsDiffering | rmote/tools/file_sync.py:336-345 | transferred bytes are the lengths of the source blocks that differ at their offset, whatever the batching |
| ExchangeCorrectness.FillBound | rmote/tools/file_sync.py:258-276 | the content of one message is at most the larger of the window and one block |
| SenderMemory.CacheIsBounded | rmote/tools/file_sync.py:278-303 | with a batch of signatures of at most twice the blocks of a window, the cache never holds more blocks than the larger of the two, whatever the answers |
| SenderMemory.StepIsSend | rmote/tools/file_sync.py:223-247 | the runs whose cache is measured are runs of `send` |
| MemoryGrowth.WindowHoldsExactlyWhen | rmote/tools/file_sync.py:93-96 | for every file and all answers at most one window (or one block) is cached, if and only if a batch of signatures is at most the blocks of a window |
| MemoryGrowth.BoundedExactlyWhen | rmote/tools/file_sync.py:119-131 | some bound holds for all files if and only if the batch is at most twice the blocks of a window, and what that bound is |
| MemoryGrowth.CacheOutgrows | rmote/tools/file_sync.py:236-303 | otherwise a run that passes any given bound: matching and differing batches alternate, then differing ones fill the cache |
| MemoryGrowth.DefaultsAreUnbounded | rmote/tools/file_sync.py:123-131 | so it is with the constants of the repository and its default block |
| StreamParts.StreamCredit.Spend | rmote/protocol.py:907-933 | one turn of `spend` pays exactly when both budgets allow it or nothing is in flight, reports a released stream, and otherwise waits on a cleared event |
| StreamParts.StreamCredit.GiveBack | rmote/protocol.py:935-951 | permission beyond what is in flight is refused and changes nothing; any other wakes the sender |
| StreamParts.StreamCredit.Release | rmote/protocol.py:953-956 | a released stream wakes the sender |
| StreamParts.ParsedJoined | rmote/protocol.py:1576-1615 | `split` undoes `batch` |
| StreamParts.JoinedParsed | rmote/protocol.py:1576-1615 | a payload that splits is the batch of its items, so no two batches share a payload |
| StreamParts.JoinedLength | rmote/protocol.py:1576-1584 | a batch is as long as its items cost the sender |
| StreamParts.HeaderIsBigEndian | rmote/protocol.py:1264 | the four bytes of a length, the most significant first |
| StreamParts.Batch | rmote/protocol.py:1576-1584 | the loop joins each item behind its length |
| StreamParts.Split | rmote/protocol.py:1586-1615 | the loop reads the items back, or raises for lengths that do not fit |
| StreamSafety.RunKeeps | rmote/protocol.py:2409-2527 | every conforming run keeps the invariant: where each produced item is, what it costs there, and what permission covers |
| StreamSafety.PacketFits | rmote/protocol.py:2496-2527 | a packet on the wire fits behind what the queue holds |
| StreamSafety.ArriveFits | rmote/protocol.py:2496-2535 | no packet of a conforming sender meets the over-budget branch, and the terminal entry has its slot |
| StreamSafety.GiveBackNeverRaises | rmote/protocol.py:2488-2494 | permission that comes back is never refused, and conservation holds after it |
| StreamSafety.NeverReleased | rmote/protocol.py:919-933 | a conforming consumer never makes a running producer stop |
| StreamTheorems.CreditIsConserved | rmote/protocol.py:907-951 | in every reachable state, bytes and items in flight are those buffered, on the wire, queued, being yielded, owed and travelling back |
| StreamTheorems.ReturnNeverReleases | rmote/protocol.py:2464-2494 | in no reachable state does a returning permission exceed what is in flight |
| StreamTheorems.DeliveredInOrder | rmote/protocol.py:2951-2988 | yielded items are a prefix of the produced ones; a normal end means all of them; the consumer never goes over budget |
| StreamTheorems.NeverStuck | rmote/protocol.py:2981-2988 | an item that fits beside the largest debt is never left waiting with nothing under way |
| StreamTheorems.StuckExactlyWhen | rmote/protocol.py:907-933 | for all limits, the stuck state is reachable for an item if and only if a debt is possible and the item does not fit beside the largest one |
| StreamTheorems.NoDebtNoStuck | rmote/protocol.py:2981-2988 | where the limits leave no debt, nothing ever blocks |
| StreamTheorems.HalfWindowNeverStuck | rmote/protocol.py:2981-2988 | items of at most half the window never block |
| StreamTheorems.StuckRun | rmote/protocol.py:2981-2988 | the run that reaches it: a small item kept as a debt, then a large one |
| StreamTheorems.HeaderBreaksLargestItems | rmote/protocol.py:2432-2448 | a stream that offers only one item, accepted by the producer, can go over budget if and only if the item with its header is above the largest size |
| StreamEndings.CallerGetsTheItems | rmote/protocol.py:2432-2448 | over every conforming run, by its events: the caller gets a prefix of the items the method yielded, unchanged and in order, all of them at a normal end; while the producer runs, what it paid for is all that was yielded but the item that waits |
| StreamEndings.EndIsTold | rmote/protocol.py:2449-2462 | a consumer that reads finds the end of an ended producer in its queue or on the wire; it fails only for an item above the limit, and a stream with such an item never ends normally |
| StreamEndings.FarewellStops | rmote/protocol.py:2478-2487 | over every run: once a consumer left and all it sent has arrived, the producer does not run and holds no item; each way in which a producer stops has its cause in the run |
| StreamEndings.StoppedForGood | rmote/protocol.py:2441-2452 | a producer that stopped pays for nothing more, in any run |
| StreamEndings.LeavingStops | rmote/protocol.py:2478-2487 | the arrival of what a consumer sent before it left stops the producer, whatever else is under way |
| StreamEndings.RefusalIsReported | rmote/protocol.py:2510-2524 | whatever the peer sends, a consumer that refused a packet has the failure before any other ending and never completes normally |
| StreamEnvelopes.EnvelopeStopsTheSender | rmote/protocol.py:1491-1513 | whatever the limits, item and envelope: a run with one enveloped packet can stop a running producer, and can end normally without being exhausted, if and only if the envelope is not empty |
| StreamEnvelopes.Truncates | rmote/protocol.py:2488-2494 | the run: small debts until the permission exceeds what is in flight, then the release and the normal end |
| StreamEnvelopes.EnvelopeGoesOverExactlyWhen | rmote/protocol.py:2496-2535 | for all limits, items and envelopes: a run with one enveloped packet can reach the over-budget branch if and only if the envelope is not empty and a second item can be paid for while the first is in flight |
| Framing.StoreConsistent | rmote/protocol.py:839-852 | a store, refused or not, keeps sizes, total and both limits consistent |
| Framing.TakeConsistent | rmote/protocol.py:854-861 | taking gives the chunks in order with the tail, and keeps the books |
| Framing.OperateAll | rmote/protocol.py:839-867 | after any stores, takes and clears the books are consistent |
| Framing.FragmentBuffer.StoreChunk | rmote/protocol.py:839-852 | the dictionaries and the total change as specified, also when a limit refuses the chunk |
| Framing.FragmentBuffer.TakePacket | rmote/protocol.py:854-861 | the buffer of the packet leaves with its size |
| Framing.FragmentBuffer.Clear | rmote/protocol.py:863-867 | nothing is left |
| Reception.GroupIsInline | rmote/protocol.py:1469-1489 | decoding a group of frames at once is reading them one at a time: same codec state, same fragments, same packet, same failure |
| Reception.HandleConsistent | rmote/protocol.py:1446-1467 | handling a frame keeps the fragment books consistent |
| Reception.FrameReader.DecodeFrames | rmote/protocol.py:1469-1489 | the grouped path leaves the state of the inline path, also when it fails |
| Reception.FrameReader.HandleInline | rmote/protocol.py:1440-1467 | a frame handled where it was read |
| Reception.FrameReader.Receive | rmote/protocol.py:1394-1467 | for every threshold, the same frames are consumed, the same packet returned and the same state left as frame by frame, also after a failure and when reading stops between two frames |
| Interleaving.Reassembled | rmote/protocol.py:1691-1734 | any interleaving of packets with distinct open ids is reassembled to the original payloads, in the order of their final frames, with exactly the parts of the open ones kept |
| Interleaving.OpenedComeOut | rmote/protocol.py:1691-1709 | under each id the packets that come out are those that were opened, in order and unchanged, but for the one still under way |
| Interleaving.InflatedAsAWhole | rmote/protocol.py:1450-1452 | without an installed codec the frames of a compressed packet are joined as they are and inflated once; it fails when that fails |
| Interleaving.LongFrameIsRefused | rmote/protocol.py:1415-1422 | a frame above the fragment size, with the overhead of deflate where a codec packed it, is refused unread |
| Interleaving.CollectIsReceive | rmote/protocol.py:1394-1467 | collecting all packets is receiving them one after the other |
| Weaving.IntactExactlyWhen | rmote/protocol.py:1394-1467 | two packets in any order of their frames, whichever of them the codec packs, are returned as sent, in the order of their final frames, if and only if their ids differ or no frame of one arrives while the other is partly sent |
| Weaving.EncodedIsPlain | rmote/protocol.py:1440-1467 | the receiver gets the same packets, failures and parts from frames that the codec packed in wire order as from the plain ones |
| Weaving.ComesOut | rmote/protocol.py:839-861 | in that case the receiver holds exactly the parts of both after every frame |
| Weaving.MeetingMixes | rmote/protocol.py:839-861 | otherwise the first packet that completes has bytes of the other |
| Interleaving.SameIdMixes | rmote/protocol.py:2240-2250 | a concrete input: three frames under one id, and the packet that comes out |
| Interleaving.SendPayload | rmote/protocol.py:1691-1709 | the frames of a packet carry its payload in order, within the fragment size, all but the last marked as fragments and not empty |
| RemoteLog.RemoteLogHandler.Emit | rmote/protocol.py:3048-3065 | the record waits behind the others, and a send is scheduled exactly when none was |
| RemoteLog.RemoteLogHandler.Start | rmote/protocol.py:3067-3093 | when records leave at once, wait for a response or wait for a timer |
| RemoteLog.RemoteLogHandler.Detach | rmote/protocol.py:3095-3124 | batch and rest are what waited; the batch is all of it or nothing, and not empty exactly when the wire is free and it fits |
| RemoteLog.RemoteLogHandler.Resume | rmote/protocol.py:3126-3151 | the batch is back in front, the wire is free, and `draining` says whether records wait |
| RemoteLog.RemoteLogHandler.DrainTurn | rmote/protocol.py:3153-3187 | one turn of the draining task: it sends all that waits exactly when the wire is free, and otherwise ends |
| RemoteLog.LogOrder | rmote/protocol.py:3048-3187 | in every run at most one batch is on the wire, and delivered, travelling and waiting records are the emitted ones in order without the dropped ones, which only failed sends or closed connections drop |
| RemoteLog.NothingLost | rmote/protocol.py:2591-2623 | no record is dropped while no send fails and nothing closes |
| RemoteLog.ScheduledExactlyUnless | rmote/protocol.py:3134-3151 | waiting records always have something that will send them, except exactly after the ends of a batch that the condition names |
| RemoteLog.RecordForgotten | rmote/protocol.py:3056-3057 | the first of these ends is reachable: a record written while a response carries the one before it |
| RemoteLog.RestoredForgotten | rmote/protocol.py:3134-3151 | the second: a response fails and its records are put back |
| RemoteLog.FailedForgotten | rmote/protocol.py:3173-3181 | the third: a send fails and a record was written meanwhile |
| RemoteLog.ForgottenMeans | rmote/protocol.py:3134-3187 | after a response such records are stranded, after a failed send of their own they are not |
| RemoteLog.StrandedStay | rmote/protocol.py:3048-3065 | over every run in which no response takes them, stranded records and all later ones stay |
| RemoteLog.ResponseRescues | rmote/protocol.py:3095-3119 | the next response that may take records takes all of them |
| RemoteLog.RecordRescues | rmote/protocol.py:3173-3181 | after a failed send the next record schedules one for all |
| LogDelivery.NothingVanishes | rmote/protocol.py:106-155 | in every interleaving, with one worker or two, the deque keeps its limit, each record is queued or counted lost, and each queued one is handled, in hand or waiting exactly once |
| LogDelivery.FrontsAreQueued | rmote/protocol.py:117-123 | by the events of any run: a front of each delivered batch is queued, unchanged and in order, and `lost` counts exactly the rest; without a loss all delivered records are queued |
| LogDelivery.LostOnlyWhenFull | rmote/protocol.py:118-122 | a batch is cut only to fill the deque to its limit |
| LogDelivery.HandledInOrder | rmote/protocol.py:130-136 | with one worker and no loss the handlers get a prefix of the delivered records |
| LogDelivery.NoLostWakeUp | rmote/protocol.py:106-155 | in every interleaving with one worker, it sleeps only with nothing to do unless `deliver` is about to look at `idle` or to wake it, or `stop` is about to; and handled records are a prefix of the accepted ones |
| LogDelivery.TwoWorkersExactly | rmote/protocol.py:130-155 | with a second worker the order can be lost exactly when there is room for a record, a worker can be left asleep, and neither happens without it |
| LogDelivery.AbandonedForGood | rmote/protocol.py:138-144 | nothing wakes that worker any more, in any run without another call of `stop` |
| LogDelivery.StoppedAgain | rmote/protocol.py:179-190 | another call of `stop` wakes it |
| LogDelivery.StopDelivers | rmote/protocol.py:179-190 | when the only worker has ended, accepted records are the handled ones and those queued since it last looked, in order; a record queued before `stop` is unhandled if and only if one of the latter was queued before the call |
| LogDelivery.StopLeavesExactlyWhen | rmote/protocol.py:133-138 | such a run exists if and only if the queue has room for a record |
| LogDelivery.SecondWorkerExactlyWhen | rmote/protocol.py:126-128 | a second worker is started exactly when `deliver` finds no worker and looks at `closing` between the two writes of `stop` |
| PrattRoundTrip.RoundTrip | rmote/templates/engine.py:452-470 | every well-formed tree, printed with the parentheses that the precedence tables ask for, is parsed back to itself |
| PrattRoundTrip.PrintedFormIsCanonical | rmote/templates/engine.py:507-570 | whatever tokens the parser accepts, its tree is well-formed and its printed form is parsed to the same tree |
| PrattRoundTrip.Grouping | rmote/templates/engine.py:452-470 | three operands without parentheses group by the conventional order of the operators, equals to the left, `**` to the right |
| PrattRoundTrip.PrefixGrouping | rmote/templates/engine.py:452-456 | `not` applies after arithmetic and before `and` and `or`; a sign applies before every operator, `**` included |
| PrattRoundTrip.OperatorOfToken | rmote/templates/engine.py:452-470 | which operator each token is, between any two literals |
| PrattRoundTrip.ComparisonOfTokens | rmote/templates/engine.py:283-300 | which comparison each token is, and the pairs that make one |
| PrattRoundTrip.NameAlone | rmote/templates/engine.py:471 | which names stand for values; every other public name is a variable and a private one is refused |
| PrattRoundTrip.TrailingCommaIsFree | rmote/templates/engine.py:491-506 | a comma before a closing token changes nothing |
| PrattRoundTrip.TopLevelTuple | rmote/templates/engine.py:508-515 | a comma at the top level makes a tuple of the items in order |
| PrattRoundTrip.Printed | rmote/templates/engine.py:532-537 | reading a printed operand leaves the loop with that tree in hand and the rest unread |
| PrattRoundTrip.PrintedBinary | rmote/templates/engine.py:610-611 | operands at the precedence of their side, `**` to the right |
| PrattRoundTrip.PrintedLinks | rmote/templates/engine.py:599-609 | a chained comparison is read back as one chain, `is not` and `not in` as one operator |
| PrattRoundTrip.PrintedArguments | rmote/templates/engine.py:636-652 | arguments are read back in order, positional ones as such and keyword ones with their names |
| PrattRoundTrip.NextArgumentsWellFormed | rmote/templates/engine.py:638-648 | accepted arguments have the positional ones first and no name twice |
| PrattRoundTrip.NoLeadingNot | rmote/templates/engine.py:454-455 | above its level no printed tree begins with `not`, so `is` is not read as `is not` |
| ExpressionReader.ExpressionParser.ReadExpression | rmote/templates/engine.py:532-537 | the loop over infix operators reads what the recursive definition reads |
| ExpressionReader.ExpressionParser.ReadPrimary | rmote/templates/engine.py:539-570 | prefixes, literals, names, parentheses and lists |
| ExpressionReader.ExpressionParser.Sequence | rmote/templates/engine.py:491-505 | comma-separated items with an optional trailing comma, with or without a closing token |
| ExpressionReader.ExpressionParser.ReadInfix | rmote/templates/engine.py:589-611 | each infix construct; with `ReadLinks` the loop of comparisons |
| ExpressionReader.ExpressionParser.ReadLinks | rmote/templates/engine.py:599-609 | operators and operands of the chain, in order |
| ExpressionReader.ExpressionParser.ReadFilter | rmote/templates/engine.py:631-653 | a known filter with its positional and keyword arguments |
| ExpressionReader.ExpressionParser.ReadArgument | rmote/templates/engine.py:638-648 | one argument: a new public name before `=`, or an expression as long as no name came before |
| ExpressionReader.ExpressionParser.ReadArguments | rmote/templates/engine.py:649-653 | the arguments of a call in order, a comma may trail |
| ExpressionReader.ExpressionParser.ReadAll | rmote/templates/engine.py:507-520 | the whole tag, a top-level comma makes a tuple, nothing may be left |
| TemplateRoundTrip.AcceptedIsScoped | rmote/templates/engine.py:936-1024 | every accepted token sequence gives a well-formed program whose `break` and `continue` stand in a loop body |
| TemplateAcceptance.CompilesExactlyWhen | rmote/templates/engine.py:936-1035 | a template compiles if and only if one scan with a stack of open blocks accepts it: codes parse, blocks are closed in order by an end of their kind, `elif`, `else`, `break` and `continue` stand where they may, every command is known |
| TemplateComments.CommentsChangeNothing | rmote/templates/engine.py:955-956 | a template compiles to what it compiles to without its comments, wherever they stand |
| TemplateRoundTrip.BlocksRoundTrip | rmote/templates/engine.py:936-1024 | every such program is accepted from its printed tokens and parsed back to itself |
| TemplateRoundTrip.PrintedHeader | rmote/templates/engine.py:655-672 | targets of `for` and `set`, also one name that unpacks |
| TemplateReader.TemplateParser.ReadBody | rmote/templates/engine.py:936-948 | the loop over tokens stops where the definition stops, and a success restores the loop depth |
| TemplateReader.TemplateParser.ReadStatement | rmote/templates/engine.py:950-969 | each kind of token and command, `break` only inside a loop |
| TemplateReader.TemplateParser.ReadBranches | rmote/templates/engine.py:990-1005 | further branches, none after `else`; each token looked at is a command, as the source asserts |
| TemplateReader.TemplateParser.ReadLoop | rmote/templates/engine.py:1009-1024 | the body is one loop deeper, the part after `else` is not; the asserted token is a command |
| TemplateReader.TemplateParser.ReadEnd | rmote/templates/engine.py:975-984 | the matching terminator without text; the asserted token is a command |
| TemplateReader.CompileTemplate | rmote/templates/engine.py:1107-1116 | the parser run from its first token |
| Rendering.CompiledNeverEscapes | rmote/templates/engine.py:870-907 | whatever tokens compile, rendering ends normally or with an ordinary error, for all values |
| Rendering.LoopKeepsScope | rmote/templates/engine.py:891-907 | a loop catches the signals of its body, and passes on those of its `else` part |
| Rendering.LoopMeaning | rmote/templates/engine.py:897-907 | `else` runs exactly when every item was iterated without a `break`; otherwise the loop stops at the first item that breaks or fails |
| Rendering.BranchesMeaning | rmote/templates/engine.py:863-867 | a conditional runs the first branch whose condition is absent or true, after those before it gave values that are not true; it fails at the first condition that fails, and without such a branch writes nothing |
| Rendering.AssignMeans | rmote/templates/engine.py:834-841 | an assignment sets its name, or each of several names to its own item when the numbers agree, and no other name; otherwise it fails and changes nothing |
| Rendering.SimpleNodeMeans | rmote/templates/engine.py:814-851 | exactly which string text and output nodes append, and what `set` changes |
| Rendering.RunAppend | rmote/templates/engine.py:798-801 | the second part of a program runs exactly when the first ends normally, where that left off |
| Rendering.SignalsInLoop | rmote/templates/engine.py:897-907 | `break` and `continue` skip the rest of the body; the first ends the loop without its `else` part, the second goes on with the next item |
| Rendering.ForWritesItems | rmote/templates/engine.py:897-909 | a loop that writes its variable writes every item once, in order, then runs its `else` part; it fails without output when its expression does |
| Rendering.RunAdds | rmote/templates/engine.py:798-800 | rendering only adds to the output |
| Rendering.RenderContext.Invoke | rmote/templates/engine.py:798-800 | nodes in order until one does not end normally |
| Rendering.RenderContext.InvokeNode | rmote/templates/engine.py:813-888 | each node against the values and the output |
| Rendering.RenderContext.InvokeBranches | rmote/templates/engine.py:860-867 | the first branch whose condition holds |
| Rendering.RenderContext.InvokeLoop | rmote/templates/engine.py:891-907 | the `for` statement with its handlers |
| Rendering.RenderContext.AssignTarget | rmote/templates/engine.py:830-841 | one name, or unpacking with the exact number of values |
| RuntimeShutdown.StepKeeps | rmote/_runtime.py:68-254 | every step of every thread keeps the invariant of the handshake |
| RuntimeShutdown.OnlyForward | rmote/_runtime.py:68-106 | the state only moves forward, a future ends at most once, nothing is scheduled on a closed loop |
| RuntimeShutdown.ShutdownMissesNone | rmote/_runtime.py:83-106 | once the shutdown has finished, in every interleaving, each future that `submit` returned or still returns is done, with one outcome for good |
| RuntimeVerdicts.OutcomeIsTheFirst | rmote/_runtime.py:116-141 | over every run, by its events: a future has the outcome that the first event about it says, how its task ended, that it could not be made, a cancellation by its owner, or the end of the shutdown |
| RuntimeVerdicts.PhaseIsByEvents | rmote/_runtime.py:68-97 | the phase of the runtime from the events of the run |
| RuntimeVerdicts.AcceptedOnlyWhenOpen | rmote/_runtime.py:230-262 | a call of `submit` that returned looked while the runtime was open; a request runs at most once, and only if it was accepted and scheduled |
| RuntimeVerdicts.AfterCloseIsRefused | rmote/_runtime.py:244-248 | a call that looks after `close` never returns, and its request never runs |
| RuntimeVerdicts.RaisedLeavesNothing | rmote/_runtime.py:252-262 | a call that raised has withdrawn its request and its gate |
| RuntimeShutdown.SnapshotIsComplete | rmote/_runtime.py:94-102 | a pending returned future is in the copied requests |
| RuntimeShutdown.RequestsHaveAnOwner | rmote/_runtime.py:131-151 | until the loop closes, a pending returned future has its start queued or its task running |
| RuntimeShutdown.GatesOpen | rmote/_runtime.py:213-219 | the gate of a finished request is locked only while the callback that opens it is due |
| RuntimeShutdown.CancellationArrives | rmote/_runtime.py:220-228 | the cancellation of a future reaches its task or is on the way |
| RuntimeShutdown.NoStopIsLost | rmote/_runtime.py:268-277 | a closing runtime whose loop waits has its stop event set or queued |
| RuntimeShutdown.ShutdownAdvances | rmote/_runtime.py:83-106 | after `close` the loop thread always has a step that brings the end nearer |
| RuntimeShutdown.NothingDelays | rmote/_runtime.py:213-277 | no step of any thread moves the end away |
| Globs.MatchMeans | rmote/tools/rsync.py:397-403 | a pattern matches a path if and only if the path can be divided into one group for each component, any for `**`, one matching name for the others |
| Globs.TrailingStars | rmote/tools/rsync.py:397-403 | a trailing `**` matches the path before it and everything below |
| Globs.SplitJoin | rmote/tools/rsync.py:386 | a relative path split again gives its names |
| Globs.Excluded | rmote/tools/rsync.py:384-407 | a path is excluded exactly when some pattern means it |
| TreeTheorems.PrunedKeeps | rmote/tools/rsync.py:410-424 | `remove` keeps exactly the excluded entries, what is below them and the directories above them |
| TreeTheorems.PrunedSame | rmote/tools/rsync.py:410-424 | what it keeps is unchanged, below an excluded entry entirely |
| TreeTheorems.PrunedTwice | rmote/tools/rsync.py:410-424 | removing again removes nothing |
| TreeTheorems.PrunedToNothing | rmote/tools/rsync.py:410-424 | without patterns nothing is left |
| TreeRemoval.Remove | rmote/tools/rsync.py:410-424 | the loop leaves the pruned tree for every order of names, and its count is the number of removed entries |
| TreeWalk.FirstWalk | rmote/tools/rsync.py:514-559 | the first pass: creates the directory, raises for conflicts, copies files and links, then directories |
| TreeWalk.CopyLeaf | rmote/tools/rsync.py:485-513 | a file with its content and mode, a link with its target, and whether that changed anything |
| TreeWalk.SecondWalk | rmote/tools/rsync.py:557-575 | the finishing pass: directories, removal of doomed names, then the mode |
| TreeWalk.RunTransfer | rmote/tools/rsync.py:577-587 | both passes, the second only after the first completed |
| TreeWalk.CountTells | rmote/tools/rsync.py:571-573 | the number of removed entries is positive exactly when something was removed |
| TreeSync.TransferIsMerge | rmote/tools/rsync.py:514-587 | a transfer raises if and only if a wanted entry is special or meets another kind; otherwise its passes give one merge of the trees, and it reports a change if and only if the destination differs from what it was |
| TreeSync.FirstMeans | rmote/tools/rsync.py:514-559 | the first pass completes exactly without conflicts and reports a change exactly when it made one |
| TreeSync.SecondMeans | rmote/tools/rsync.py:557-575 | after it the second pass never raises, completes the merge, and what the first pass changed stays changed |
| TreeSync.Between | rmote/tools/rsync.py:525-541 | the second scan wants and dooms the same names as the first |
| TreeTheorems.RaisesExactlyWhen | rmote/tools/rsync.py:530-539 | a transfer raises if and only if the destination is no directory, or a source path of which no part is excluded leads to a special entry or to another kind at the destination |
| TreeTheorems.SourceArrives | rmote/tools/rsync.py:514-559 | every source path of which no part is excluded is equal at the destination; its mode is the source's, or without `preserve_mode` the old one, or that of a new file or directory |
| TreeTheorems.ExactlyThere | rmote/tools/rsync.py:525-575 | the paths at the end are those, and the destination paths that deletion spares: all without deletion, none with `delete_excluded`, otherwise the guarded ones with what is below and above them |
| TreeTheorems.RestIsUntouched | rmote/tools/rsync.py:529-541 | what is there and was not transferred is unchanged, below a guarded entry entirely |
| TreeTheorems.SecondTransfer | rmote/tools/rsync.py:529-573 | a second transfer leaves everything and reports no change, if and only if `delete_excluded` met no entry that only the kind of the destination excluded |
| TreeTheorems.SecondTransferChanges | rmote/tools/rsync.py:529-573 | such an entry, where the second transfer brings a file |
| Freezer.Freeze | rmote/immutable.py:176-222 | succeeds if and only if everything reachable is supported and acyclic, which is when the value has an unfolding; the result means that unfolding, every reachable object has exactly one node, and each kind of error has its path |
| FreezeMeaning.KeyIsImmutableExactlyWhen | rmote/immutable.py:144-149 | a key is accepted if and only if no member of it, at any depth, is anything but a scalar, a tuple or a frozenset |
| FreezeMeaning.HashableExactlyWhen | rmote/immutable.py:211-212 | a value can be an element of a frozen set if and only if no tuple in it, at any depth, holds a mapping |
| FreezeMeaning.ListMeans | rmote/immutable.py:209-210 | a list or tuple means the tuple of its items in order, exactly when all of them mean something |
| FreezeMeaning.SetMeans | rmote/immutable.py:211-212 | a set means the set of its hashable elements |
| FreezeMeaning.MappingMeans | rmote/immutable.py:202-214 | a mapping means its immutable keys with their own values, a dataclass its fields |
| FreezeMeaning.OtherMeans | rmote/immutable.py:215-216 | anything else means nothing |
| Freezer.Walk.Visit | rmote/immutable.py:191-200 | the memo and the active set: a result that stands for the value, or a path that explains the error |
| Freezer.Walk.VisitObject | rmote/immutable.py:201-222 | one object, active while its children are visited and never after |
| Freezer.Walk.VisitChildren | rmote/immutable.py:203-217 | the children in order, with the tests of keys and of hashing |
| FreezeTheorems.EntryUnfolds | rmote/immutable.py:203-219 | a finished object means the unfolding of the graph |
| FreezeTheorems.NoBadPath | rmote/immutable.py:195-219 | no path from a finished object meets a cycle or something unsupported |
| FreezeTheorems.BadPathNeverUnfolds | rmote/immutable.py:195-217 | a graph with such a path has no unfolding of any depth |
| Caches.TableHoldsLatest | rmote/cache/backends.py:353-363 | after any batches and deletions each key holds the latest write of greatest rounded time since its last deletion, among the batches that could be encoded and bound |
| Caches.MemoryHoldsLatest | rmote/cache/__init__.py:83-91 | the same for memory, by exact time, among the batches without an empty key |
| Caches.BackendsAgree | rmote/cache/backends.py:237-262 | documents and table hold the same after every run with given entries, if and only if all sound ones can be bound, no two under one key are torn, and no unencodable one is hidden in a batch with a sound one |
| Caches.StoresAgree | rmote/cache/__init__.py:83-91 | memory, documents and table hold the same after every run with given entries, if and only if each has a key exactly when it is valid and encodable, its time can then be bound, and the three rules decide alike between different ones of a key |
| Caches.ExactTimesAgree | rmote/cache/__init__.py:83-91 | for valid, encodable entries with keys and with times that `float` leaves alone and SQLite can bind, memory, documents and table agree and hold the latest write |
| Caches.EmptyKey | rmote/cache/__init__.py:42-44 | an empty key: stored by documents and table, refused by memory |
| Caches.NegativeTime | rmote/cache/backends.py:44-53 | a negative time: held by memory, refused by documents and table |
| Caches.UnencodableData | rmote/cache/backends.py:108-110 | data that cannot be encoded: held by memory, refused by documents and table |
| Caches.HiddenData | rmote/cache/backends.py:250-262 | superseded data that cannot be encoded, beside a new key: the documents store the new key, the table refuses the batch |
| Caches.RulesDiffer | rmote/cache/backends.py:80-92 | when the two conditions decide differently, exactly |
| Caches.FloatsAreNotTorn | rmote/cache/backends.py:80-92 | only ints that `float` rounds up are torn |
| Caches.TornTime | rmote/cache/backends.py:250-251 | 2**53 + 3, with conversion to a double: the documents refuse to replace such an entry with one of the same time, the others take it |
| Caches.UnboundTime | rmote/cache/backends.py:353-363 | 2**64: exact, stored by the documents, refused by the table |
| CacheStores.JSONCacheDir.WriteEntries | rmote/cache/backends.py:237-269 | writes and deletions in order under the rule; nothing for an invalid entry, or when the changed document holds data that cannot be encoded; other namespaces untouched |
| CacheStores.JSONCacheDir.SetMany | rmote/cache/backends.py:281-283 | a batch |
| CacheStores.JSONCacheDir.DeleteKey | rmote/cache/backends.py:285-287 | a deletion |
| CacheStores.SQLiteCache.Upsert | rmote/cache/backends.py:357-363 | the conditional upsert of one row, with the time column rounded |
| CacheStores.SQLiteCache.SetMany | rmote/cache/backends.py:353-363 | a batch row by row; an invalid or unencodable entry stores nothing, a time that cannot be bound rolls everything back, other namespaces untouched |
| CacheStores.SQLiteCache.DeleteKey | rmote/cache/backends.py:381-383 | a deletion |
| CacheStores.Cache.Merge | rmote/cache/__init__.py:83-91 | the rule of the memory store for the whole batch, nothing for an empty key, and the shown values are those of the entries |
| CacheStores.Cache.Update | rmote/cache/__init__.py:68-81 | every key gets its own value with the given time and the version expected for it, unless a newer entry is held; the shown values follow, every other key is as it was, and an invalid time or an empty key refuses all |
| CacheStores.Cache.Load | rmote/cache/__init__.py:112-134 | each loaded entry that was asked for and has the expected version is there unless a newer one is held, and every other key is as it was; exactly when it is refused, and what the cache is bound to then |
| CacheStores.Cache.Invalidate | rmote/cache/__init__.py:146-151 | exactly the selected keys go, and the shown values follow |

## Left out

- Pickling, module bundles, tool registration and imports: they rest on Python reflection.
- Deflate and the choice whether to compress: a codec is a parameter with a round-trip law.
- `check` of `Session`, fsync, ownership, metadata of real files and races with other processes: files and trees are stable values.
- Timers' delays, wall-clock deadlines, cancellation of tasks while a drain runs, and performance.
- The lexer of templates, literals, joined string literals, slices, dictionary and set displays, and the positions in error messages: the expression model starts from tokens and has these constructs left out.
- Evaluation of expressions, filters and `str`: parameters of rendering; an iterated value is a sequence that the loop body does not change.
- SenderMemory.CacheIsBounded: counts the cache between two messages; the blocks inside a message are bounded by `ExchangeCorrectness.FillBound`.
- Liveness of the remote log handler beyond what `RemoteLog.ScheduledExactlyUnless` and `RemoteLog.StrandedStay` say.
- Runtime: a state machine over values instead of a class, since several threads share the fields; the sets of the source are flags of each call, the work done by tasks is left out, and the runner is taken to close the loop once it is asked to.
- RuntimeShutdown.GatesOpen: does not model the weak keys of the mapping or the slices in which `result` waits.
- TreeWalk.FirstWalk: works on tree values, so a transfer that raises leaves no partial tree in the model, and concurrent file transfers are taken in one of their orders.
- TreeRemoval.Remove: works on a tree value, not on the file system in place.
- The counters `files`, `directories`, `symlinks`, `transferred` and `reused` of a tree transfer: sums over its entries.
- Globs.Excluded: matching inside one component is a parameter.
- Freezer.Freeze: identities of temporary objects made by custom mappings, and errors raised by them, are not modelled; an unhashable element of a set is an unsupported object.
- Times of a cache entry that are infinite or no number, and keys that are not Unicode text: `merge` takes both, the backends refuse the former.
- LogDelivery.AbandonedForGood: calls of `stop` follow one another; two at once are not modelled.
- `stale` and `save` of the cache in memory: a comparison of ages, and a batch handed to a backend.
- Reading from the cache stores, corrupt documents, locks and atomic file replacement.
- The command line, host tools, facts collectors, TLS, bootstrap and subprocess start-up: they would add only easy members.
