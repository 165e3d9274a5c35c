# A verified model of quixiot

quixiot runs an IoT workload over HTTP/3 and QUIC: publish/subscribe over WebTransport, uploads and
polling, across a UDP proxy that impairs the traffic. This Dafny project models the parts of it that
keep state, and proves what they promise over whole runs:

- the impairment pipeline of the proxy: a packet scheduler with drops, duplicates, a one-slot reorder
  hold, latency, jitter and a bandwidth shaper, over a binary heap;
- the publish/subscribe broker: the topic index with its gauge, and fan-out to bounded channels;
- the wire codec: frames with QUIC variable-length integers (section 16 of RFC 9000), alone in a
  datagram or one after the other on a stream;
- bounded storage: the rotating log file and the upload directory with its cap;
- the proxy's session table.

## How it is built

| files | what they hold |
|---|---|
| `Common.dfy` | bytes, options, results, facts about multisets |
| `PacketOrder.dfy`, `PacketHeap.dfy` | release order; the array heap, which stands for a sorted sequence |
| `ImpairSpec.dfy` | the pipeline as functions on its state; runs over events |
| `PipelineHistory.dfy`, `ReleaseOrder.dfy`, `PollIndependence.dfy`, `Draws.dfy`, `Guarantees.dfy`, `WakeUps.dfy` | what runs keep and promise |
| `Pipeline.dfy`, `Driver.dfy` | the `Pipeline` object and the proxy's loop around it |
| `BrokerIndex.dfy`, `BrokerSessions.dfy`, `Fanout.dfy`, `Broker.dfy` | the index, interleaved sessions, interleaved publishing, the objects |
| `Varint.dfy`, `Wire.dfy`, `WireStream.dfy` | integers, frames and datagrams, streams with their readers and writers |
| `LogSpec.dfy`, `RotatingFile.dfy` | log files as records; the object that renames and writes them |
| `UploadSpec.dfy`, `UploadDir.dfy` | eviction and uploads on a directory; the object |
| `ProxyTable.dfy`, `Proxy.dfy` | the session table under interleaving; the objects |

Code that updates an object in place is a class here, and each of its methods is proved against a
function on values. The promises are lemmas about those functions, for all runs. Concurrency is a
sequence of moves, one per critical section or channel operation; a lemma over all sequences of moves
covers every interleaving. In the pipeline, a run is a sequence of `Enqueued`, `Polled` and `Flushed`
events. `Core` carries, beside the fields of `Pipeline`, the history that the promises speak of:
arrived copies in order, calls of `schedule` in order, and counters.

Inputs from outside are parameters: every clock reading, the random generator (a tape that is read
draw by draw, so that a run is a function of tape and events), which sessions a sweep finds idle,
whether a dial succeeds, how far a request body arrives. Times are mathematical integers, counted in
nanoseconds from Go's zero time. The int64 arithmetic of `transmitDuration` is modelled with its
wrap-around; `Fits` is the guard under which it cannot overflow, and lemmas about times that need it
say so. It holds for every packet the proxy can read (64 KiB) at any bandwidth below 2^62.

Where the code does something other than one might expect, the model follows the code:

- `Flush` schedules a held packet with its own time, not with the time at which the hold ran out. So
  polls can be seen through a flush, unless it is calm (`FlushCalm`): nothing is held, the hold has not
  run out before the flush, or the shaper is busy for so long that the difference is lost. Polls are
  invisible exactly when every flush is calm (`PollsInvisibleIff`).
- For the same reason a flush can delay a copy beyond hold, latency and its jitter. That happens exactly when
  a flush comes after the hold it meets has run out (`WithinHoldIff`, `DelayWithinIff`).
- When a session ends, the proxy flushes and polls once; whatever has a later release time is lost
  (`ShutdownLoses`).
- At caps near 2^63 bytes a second `transmitDuration` overflows for ordinary packets and its result can
  be negative (`TransmitOverflows`); `TransmitIsCeilingIff` says for which packets and caps it is right.
- `getOrCreateSession` does not look at whether the proxy is closed, so a lookup after `Proxy.Close` can
  list a session again; while nobody looks up, `Close` is final exactly if no creation was in flight
  (`CloseIsFinalIff`).
- `Broker.subscribe` raises its gauge also for a session that is already listed. That is right only
  because the session checks its own set first (`AddAgreesIffNew`, `IndexAgreement`).
- A stream that breaks off right behind a frame's length gives an error that wraps `io.EOF`, which
  `readControl` takes for a clean end (`ReadTruncated`).
- `NextWake` uses the zero time for "none", so it is exact exactly if nothing is pending at the zero
  time (`NextWakeIsFirst`), as on every run after it (`RunPendingPositive`).
- A log whose active file is exactly full is rotated when it is reopened, so that an empty active file
  stands behind a full one; otherwise two neighbours always exceed one file's cap (`LogBounded`,
  `OpenedStrictIff`).
- An upload named `.tmp` cannot be stored, since that is the name of the directory for temporary files.

## Model

| member | source | states |
|---|---|---|
| `PacketHeap.Heap.Push` | internal/impair/pipeline.go:295-297 | pushing keeps the heap order and inserts into the sorted sequence that the array stands for |
| `PacketHeap.Heap.Pop` | internal/impair/pipeline.go:299-305 | popping keeps the heap order and takes exactly the head of the sorted sequence |
| `PacketHeap.Up` | internal/impair/pipeline.go:284-297 | sifting up restores the heap order and keeps the items |
| `PacketHeap.Down` | internal/impair/pipeline.go:284-293 | sifting down restores the heap order and keeps the items |
| `PacketHeap.RootIsLeast` | internal/impair/pipeline.go:163-168 | index 0 is never after any other item |
| `PacketHeap.RootIsHead` | internal/impair/pipeline.go:182-189 | index 0 is the head of the sorted sequence with the same items |
| `PacketOrder.SortedUnique` | internal/impair/pipeline.go:284-289 | with unique sequence numbers there is only one order in which items can come out |
| `PacketOrder.ReadyIsDue` | internal/impair/pipeline.go:181-189 | the popped prefix is exactly the items due, and nothing due stays behind |
| `ImpairSpec.TransmitIsCeilingIff` | internal/impair/pipeline.go:268-278 | for every non-empty packet and int64 cap, the transmit time is the exact time rounded up if and only if line 273 does not overflow, or the packet takes at most 1 ns and the wrapped sum lies just below zero |
| `ImpairSpec.TransmitOverflows` | internal/impair/pipeline.go:273-277 | an ordinary 1500-byte packet at a cap that `Validate` accepts gets the transmit time -1 |
| `PipelineHistory.WovenIsNear` | internal/impair/pipeline.go:202-208 | swapping disjoint neighbours moves nothing further than one place |
| `Draws.EnqueueDraws` | internal/impair/pipeline.go:122-144 | on every enqueue, in terms of fields and tape: the packet is dropped exactly if the drop probability is at least 1 or the next draw is below it, else taken twice exactly if the same holds of the duplicate probability and the draw after that; only probabilities strictly between 0 and 1 take a draw; hooks, copies and the final tape position follow |
| `Draws.AdmitDraws` | internal/impair/pipeline.go:193-212 | a copy that finds nothing held is held exactly if the reorder probability hits at the next draw, for `ReorderHold` or 3 ms; one that finds another held is scheduled before it at the same time; any other is scheduled at once |
| `Draws.RunReleases` | internal/impair/pipeline.go:223-238 | every release time of every run is scheduling time + configured latency + a jitter between 0 and the bound from the entry's own place on the tape, read for nothing else in the schedule; under a cap not before the entry in front, plus the transmit time |
| `PipelineHistory.RunAccounted` | internal/impair/pipeline.go:122-153 | on every run: schedule order is arrival order with one neighbour swap per overtaken hold; each hold is resolved once or still held; release times follow the shaper's recurrence |
| `PipelineHistory.RunFated` | internal/impair/pipeline.go:122-144 | each packet was dropped, taken once or taken twice, and the hooks counted drops and duplicates |
| `PipelineHistory.RunQueued` | internal/impair/pipeline.go:175-191 | output and queue are together exactly what was scheduled, and the queue is sorted |
| `Guarantees.Conservation` | internal/impair/pipeline.go:122-153 | copy by copy: released, queued and held copies are exactly those taken in, all distinct, each with its payload; copies are the enqueued packets minus drops plus duplicates; hook counts match |
| `ReleaseOrder.OutputIsDue` | internal/impair/pipeline.go:175-191 | what polls up to an instant returned is the sorted schedule cut at that instant, flushes included |
| `PollIndependence.PollsLeaveNoTrace` | internal/impair/pipeline.go:122-153 | with calm flushes a run is always where its traffic without polls is, or where one poll would take that |
| `PollIndependence.PollIndependence` | internal/impair/pipeline.go:122-191 | with calm flushes the output up to a poll is the sorted schedule of the traffic and tape alone, cut at the poll |
| `PollIndependence.PollingIsInvisible` | internal/impair/pipeline.go:175-191 | two ways of polling the same calm traffic return the same packets in the same order with the same release times |
| `PollIndependence.NoFlushTraffic` | internal/impair/pipeline.go:122-144 | without flushes the traffic is the enqueued packets alone, and it is calm |
| `PollIndependence.PollsInvisibleIff` | internal/impair/pipeline.go:146-191 | polls cannot be told from what comes out and when if and only if every flush of the traffic is calm, on capped and uncapped links |
| `ReleaseOrder.RunTimed` | internal/impair/pipeline.go:193-221 | with a forward clock copies are scheduled in time order and not before they arrived; within one hold of it if every flush is prompt, that is, finds nothing held or a hold that has not run out before |
| `ReleaseOrder.WithinHoldIff` | internal/impair/pipeline.go:146-153 | with a forward clock every copy is scheduled within one hold of its arrival if and only if every flush is prompt |
| `ReleaseOrder.LogFits` | internal/impair/pipeline.go:223-237 | every scheduled copy carries an enqueued packet, so its transmit time does not overflow |
| `ReleaseOrder.ReleaseNotBeforeBase` | internal/impair/pipeline.go:223-238 | no copy leaves before its latency, and its transmit time on a capped link, have passed |
| `Guarantees.Fifo` | internal/impair/pipeline.go:242-247 | if release times never decrease along the schedule, the queue is a plain FIFO |
| `Guarantees.ReleaseTimesRise` | internal/impair/pipeline.go:223-248 | release times never decrease along the schedule on a capped link, or without jitter on a forward clock |
| `Guarantees.BoundedReordering` | internal/impair/pipeline.go:193-248 | then the n-th copy out is arrival n or a neighbour of it, one swap per overtaken hold |
| `Guarantees.DelayBounds` | internal/impair/pipeline.go:193-255 | on every run with a forward clock each copy leaves at least the latency, and under a cap its transmit time, after it arrived; without a cap and with prompt flushes at most hold + latency + jitter after it, however rarely polled |
| `Guarantees.DelayWithinIff` | internal/impair/pipeline.go:146-153 | without a cap every copy leaves within hold, latency and its own jitter if and only if every flush is prompt |
| `Guarantees.ShaperIsSingleServer` | internal/impair/pipeline.go:231-238 | release time n is the maximum of the busy-since times, and one of them is met |
| `Guarantees.ShaperRefinesSingleServer` | internal/impair/pipeline.go:231-238 | the same on every run after the zero time: the shaper is an ideal single-server FIFO queue |
| `Guarantees.TransmitCovers` | internal/impair/pipeline.go:268-278 | transmit times cover the bytes, with under 1 ns of cap of rounding per packet |
| `Guarantees.GapCoversTransmit` | internal/impair/pipeline.go:231-238 | between two packets in schedule order lie at least the transmit times of the later ones |
| `Guarantees.GapCoversBytes` | internal/impair/pipeline.go:231-238 | between two packets in schedule order there is time for the bytes between them at the cap |
| `Guarantees.ThroughputCap` | internal/impair/pipeline.go:175-191 | bytes returned by polls up to an instant fit the cap from the first scheduling time on |
| `PollIndependence.FlushSeesPolls` | internal/impair/pipeline.go:146-153 | a poll at or before a flush leaves the release times as they are if and only if nothing was overdue, the hold ran out at the flush, or the shaper is busy past both |
| `Guarantees.ShutdownLoses` | internal/proxy/proxy.go:376-380 | the last flush and poll lose nothing if and only if all that was queued, and the held copy once flushed, is due by that poll; what they lose is exactly the part of the schedule that is due later |
| `WakeUps.NextWakeIsFirst` | internal/impair/pipeline.go:155-173 | the wake time is the first pending instant exactly if that is not the zero time |
| `WakeUps.RunPendingPositive` | internal/impair/pipeline.go:155-173 | on runs after the zero time nothing is pending at or before it |
| `WakeUps.EarlyPollIsIdle` | internal/impair/pipeline.go:175-191 | polling before the wake time changes nothing and returns nothing |
| `WakeUps.PollLeavesLater` | internal/impair/pipeline.go:175-191 | after a poll everything pending is strictly later |
| `WakeUps.WakingPollWorks` | internal/impair/pipeline.go:175-191 | a poll at or after the wake time strictly decreases queue length plus two for a held copy |
| `WakeUps.DrainEmpties` | internal/proxy/proxy.go:371-387 | polls that each come at the wake time or any time after it empty the pipeline within queue length plus two for a held copy |
| `WakeUps.RunDrains` | internal/proxy/proxy.go:371-387 | every run after the zero time drains in at most queue length + 2 such polls |
| `Impairment.Pipeline.Enqueue` | internal/impair/pipeline.go:122-144 | does exactly the `Enqueued` step: expiry before any draw, then drop, duplicate and each copy |
| `Impairment.Pipeline.EnqueueCopy` | internal/impair/pipeline.go:193-212 | holds, swaps or schedules one copy as specified |
| `Impairment.Pipeline.FlushExpiredHeld` | internal/impair/pipeline.go:214-221 | schedules a held packet that has run out with its own release time |
| `Impairment.Pipeline.Schedule` | internal/impair/pipeline.go:223-248 | draws, shapes and pushes exactly one item |
| `Impairment.Pipeline.ReleaseTime` | internal/impair/pipeline.go:224-238 | release time, shaper and tape position as specified |
| `Impairment.Pipeline.Roll` | internal/impair/pipeline.go:257-266 | a draw is taken only for a probability strictly between 0 and 1 |
| `Impairment.Pipeline.Flush` | internal/impair/pipeline.go:146-153 | does exactly the `Flushed` step |
| `Impairment.Pipeline.NextWake` | internal/impair/pipeline.go:155-173 | returns the specified wake time from the heap's root and the held packet |
| `Impairment.Pipeline.ReleaseReady` | internal/impair/pipeline.go:175-191 | does exactly the `Polled` step and returns the payloads that it adds to the output |
| `Driver.Apply` | internal/proxy/proxy.go:361-427 | what the proxy's loop writes is the output of the pipeline on the events of its turns, and each turn arms the timer for the wake time |
| `Driver.PacketsEnter` | internal/proxy/proxy.go:383-384 | every packet that the loop takes is enqueued, once and in order, and nothing else is |
| `Driver.DoneWritesTheDue` | internal/proxy/proxy.go:378-382 | when the session is done nothing is held; of all that was scheduled exactly what is due by the last poll has been written, in release order, and the rest is what is lost |
| `Driver.TimersStop` | internal/proxy/proxy.go:371-427 | without packets an armed timer fires at most queue length + 2 times in a row, however late each time |
| `BrokerIndex.AddAgreesIffNew` | internal/broker/broker.go:58-71 | the unconditional increment keeps gauge and set size equal if and only if the session is new to the topic |
| `BrokerIndex.RemoveAgrees` | internal/broker/broker.go:73-88 | unsubscribing keeps gauges and set sizes equal and stores no empty set |
| `BrokerIndex.RemoveAllAgrees` | internal/broker/broker.go:90-103 | so does removing a session |
| `BrokerSessions.ActKeepsConsistent` | internal/broker/session.go:202-227 | every critical section of every session keeps index, gauge and sessions consistent |
| `BrokerSessions.IndexAgreement` | internal/broker/session.go:202-227 | in every interleaving: gauge is set size, no empty set, a session between frames is listed under exactly its topics, a cleaned-up one nowhere |
| `BrokerSessions.SubsAreWanted` | internal/broker/session.go:202-222 | in every interleaving a session's own set holds exactly the topics it has asked for and not asked to drop since |
| `BrokerSessions.ListedIffWanted` | internal/broker/session.go:202-222 | in every interleaving the broker lists a session between control frames under a topic if and only if its last word on that topic is to subscribe |
| `BrokerSessions.OpenTakes` | internal/broker/session.go:48-57 | a new session is open and has no topics |
| `BrokerSessions.SubscribeTakes` | internal/broker/session.go:202-213 | a subscription completes whatever others do between its two critical sections: the session is listed and holds one topic more |
| `BrokerSessions.UnsubscribeTakes` | internal/broker/session.go:215-222 | so does giving a topic up: the session is not listed and holds that topic no more |
| `BrokerSessions.CleanupIsFinal` | internal/broker/session.go:224-227 | a session that was cleaned up stays closed and is listed nowhere, whatever anybody does later |
| `BrokerSessions.AloneLikeTheObject` | internal/broker/session.go:202-222 | with nobody in between, the two critical sections of subscribing and unsubscribing together do what the methods of the session object are proved to do |
| `BrokerObjects.Broker.Subscribe` | internal/broker/broker.go:58-71 | the whole new index, gauge included |
| `BrokerObjects.Broker.Unsubscribe` | internal/broker/broker.go:73-88 | the whole new index, gauge included |
| `BrokerObjects.Broker.RemoveSession` | internal/broker/broker.go:90-103 | visiting the topics in any order while deleting some removes the session from all |
| `BrokerObjects.Broker.PublishDatagram` | internal/broker/broker.go:37-56 | each subscriber, and nobody else, gets the frame behind its newest 127 |
| `BrokerObjects.Session.Subscribe` | internal/broker/session.go:202-213 | a second subscription to a topic does not reach the broker |
| `BrokerObjects.Session.Unsubscribe` | internal/broker/session.go:215-222 | the topic leaves the session's set and the broker's |
| `BrokerObjects.Session.Cleanup` | internal/broker/session.go:224-227 | the session leaves every topic |
| `BrokerObjects.Session.EnqueueDatagram` | internal/broker/session.go:229-243 | alone at work, the channel holds the newest 128 frames |
| `Fanout.DoOk` | internal/broker/broker.go:37-56 | every move of publishing loops, writers, sessions and contexts keeps the invariant |
| `Fanout.FanoutSafety` | internal/broker/session.go:229-250 | a channel is the newest part of what was pushed, within its depth; the writer takes a subsequence; each message is from a publication whose snapshot held the session, at most once and in publish order |
| `Fanout.TakenInOrder` | internal/broker/session.go:144-200 | what a writer takes was pushed, and is taken in the order of the pushes, none twice |
| `Fanout.FanoutComplete` | internal/broker/broker.go:48-55 | a returned publication reached every session of its snapshot whose context has not ended |
| `Fanout.Origin` | internal/broker/broker.go:41-46 | every publication in a loop's history was started by a move of the run, and its recipients are the subscribers of that very moment |
| `Fanout.ReceivedWasSubscribed` | internal/broker/broker.go:37-56 | every message ever put into a channel was published by a move of the run on that surface, and at that move the channel's session was open and subscribed to its topic, or just giving it up |
| `Fanout.SubscribedReceives` | internal/broker/broker.go:37-56 | a session that holds the topic, between control frames, when a publication starts gets its message into its channel before the publication returns, unless the session's context has ended |
| `Fanout.RecipientsIff` | internal/broker/broker.go:37-56 | of the sessions between control frames a publication is addressed to exactly those whose last word on its topic, before it started, was to subscribe; so none to a session that has unsubscribed |
| `Fanout.BlockedIff` | internal/broker/session.go:229-250 | a loop in the middle of a publication has no move exactly if it waits for a full channel, a stream loop for all it has left, of sessions that have not ended |
| `Fanout.EndUnblocks` | internal/broker/session.go:238-250 | the end of a session's context unblocks whoever waits for its channel |
| `Fanout.OwnMoveWorks` | internal/broker/broker.go:48-55 | each move of a loop is progress: a publication to n sessions takes it at most 3 n + 3 moves |
| `Fanout.CanAlwaysReturn` | internal/broker/broker.go:37-56 | no deadlock: from every reachable state a publication under way can return, by moves of its loop and of writers alone, with its message in the channel of every session it still had to serve |
| `Fanout.SubscribeAndReceive` | internal/broker/session.go:82-142 | from every reachable state a session between control frames can subscribe, and a PUB frame that an idle loop then reads, in a datagram of up to 1024 bytes or on its control stream, can get into its channel |
| `Fanout.DatagramsAreSendable` | internal/broker/session.go:149-161 | every frame that gets into a datagram channel encodes to at most 1024 bytes |
| `Fanout.StreamsAreWritable` | internal/broker/session.go:178-191 | every frame that gets into a stream channel can be written, and its stream reads back as that frame and a clean end |
| `Varint.ParseEncoded` | internal/wire/frame.go:34-50 | a written integer reads back, whatever follows |
| `Varint.ParseNormal` | internal/wire/frame.go:50-53 | what parses is below 2^62 and took no fewer bytes than needed; as few exactly if it was written so |
| `Varint.ParsePrefix` | internal/wire/frame.go:88-93 | a cut integer does not parse |
| `Varint.ParseBytes` | internal/wire/frame.go:50-53 | byte for byte: the first byte announces 1, 2, 4 or 8 bytes as in section 16 of RFC 9000, the value is big-endian without the two marking bits, and the only errors are missing bytes |
| `Varint.Examples` | internal/wire/frame.go:50-53 | the examples in section A.1 of RFC 9000 |
| `Wire.DecodeEncoded` | internal/wire/frame.go:26-70 | what was encoded decodes to the same frame |
| `Wire.EncodeDecoded` | internal/wire/frame.go:42-70 | what decodes encodes again, no longer, to the same frame; byte for byte exactly if its length was minimal |
| `Wire.DecodesIff` | internal/wire/frame.go:42-70 | data decodes to a frame if and only if it is a kind that is not 0, a topic length of any width, a topic that is not empty, and the payload |
| `Wire.CodecErrors` | internal/wire/frame.go:26-62 | which error comes exactly when, in decoding and encoding |
| `Wire.DatagramFate` | internal/broker/session.go:118-140 | over 1024 bytes: oversize; else not decodable: invalid; else published exactly if the kind is 1 |
| `Wire.FrameFate` | internal/broker/session.go:109-171 | an encoded frame of up to 1024 bytes is sent and, at the receiver, accepted exactly if its kind is 1; a longer one is refused by writer and reader |
| `Wire.UnsoundIsNotSent` | internal/broker/session.go:149-154 | the writer's encode error means no kind, no topic, or a topic of 2^62 bytes or more |
| `Wire.AcceptedIsSent` | internal/broker/session.go:109-171 | every datagram that the reader accepts the writer sends, so its error branches are unreachable |
| `WireStream.StreamRoundTrip` | internal/wire/frame.go:72-99 | reading the concatenation of written frames gives them back, then a clean end |
| `WireStream.StreamsInjective` | internal/wire/frame.go:72-86 | different lists of frames are written differently |
| `WireStream.WholeIsGreatest` | internal/wire/frame.go:88-99 | `Whole` counts the frames wholly within a prefix |
| `WireStream.ReadTruncated` | internal/wire/frame.go:88-99 | a cut stream gives exactly the frames wholly within it, then an error: a clean end exactly between frames, a wrapped one exactly behind a length |
| `WireStream.ReadBody` | internal/wire/frame.go:88-99 | behind a length of any width and that many bytes, exactly these bytes are decoded, for better or worse, and exactly the rest is left |
| `WireStream.ReadMissing` | internal/wire/frame.go:88-99 | which error comes exactly when bytes are missing |
| `WireStream.ReadAllNormal` | internal/wire/frame.go:88-99 | whatever bytes arrive, the frames read can be written again in no more bytes and read back the same |
| `WireStream.ByteStream.WriteStreamFrame` | internal/wire/frame.go:72-86 | appends the written form, or nothing and the error |
| `WireStream.ByteStream.ReadVarint` | internal/wire/frame.go:89-93 | reading byte by byte is parsing |
| `WireStream.ByteStream.ReadStreamFrame` | internal/wire/frame.go:88-99 | frame or error, and exactly what is left unread |
| `WireStream.ByteStream.ReadControl` | internal/broker/session.go:82-107 | handles every frame up to the first error |
| `LogSpec.TrimFits` | internal/logging/logging.go:218-231 | a record that fits is kept; a longer one is cut to the cap, keeping its newest bytes behind the marker |
| `LogSpec.StoredIsSuffix` | internal/logging/logging.go:134-151 | a write loses the oldest file as a whole or nothing |
| `LogSpec.LogIsSuffix` | internal/logging/logging.go:107-212 | from any files, after any writes and reopenings: oldest backup to active file is a suffix, cut at a record, of what was there and all trimmed records |
| `LogSpec.LogBounded` | internal/logging/logging.go:107-212 | from a log within these bounds, new or found, through any writes and reopenings with the same settings: at most maxFiles files without gaps, each within maxBytes, neighbours together over it; after a reopening the active file may be empty behind one of exactly maxBytes |
| `LogSpec.OpenedStrictIff` | internal/logging/logging.go:125-130 | reopening keeps every two neighbours together over maxBytes if and only if the active file is not full or there are no backups |
| `LogSpec.OpenedHasRoom` | internal/logging/logging.go:122-130 | whatever was found, also a file over the cap: the active file has room after opening; a smaller one is gone on with, one that reached the cap becomes the first backup and the others move up |
| `LogSpec.NewBounded` | internal/logging/logging.go:107-132 | a log opened in an empty directory is within these bounds and holds no record |
| `LogSpec.LostMeansFull` | internal/logging/logging.go:191-193 | from such a log, nothing found or written is lost before every backup exists |
| `LogSpec.Retention` | internal/logging/logging.go:107-212 | from such a log: once a record has been lost, the log still holds at least maxFiles / 2, rounded down, times maxBytes + 1 bytes, less one byte only if it was reopened and the active file is empty |
| `RotatingLog.RotatingFile.constructor` | internal/logging/logging.go:107-132 | defaults, and a rotation at once if the file found is already full; whatever records the files found stand for, the new log stands for these records opened |
| `RotatingLog.RotatingFile.ShiftBackups` | internal/logging/logging.go:194-200 | the descending rename loop moves every backup up by one place; `Rename` demands that its target is not a live file, so none is overwritten |
| `RotatingLog.RotatingFile.RotateDisk` | internal/logging/logging.go:183-212 | removal, renames and reopening together are one rotation |
| `RotatingLog.RotatingFile.Write` | internal/logging/logging.go:134-151 | stores the trimmed record, rotating first exactly if it does not fit behind something |
| `UploadSpec.EvictIsShortestPrefix` | internal/upload/upload.go:230-243 | removed files are the shortest prefix of the candidates that brings the total to the cap, or all |
| `UploadSpec.EvictSplits` | internal/upload/upload.go:230-243 | removed and remaining files and bytes add up, and the kept path stays |
| `UploadSpec.OverCapIff` | internal/upload/upload.go:244-246 | the total stays over the cap if and only if the kept file alone exceeds it |
| `UploadSpec.PruneIsExact` | internal/upload/upload.go:184-248 | greedy and minimal, oldest first by time and path; reported bytes are exact; over cap exactly if the kept file is |
| `UploadSpec.PruneOldestFirst` | internal/upload/upload.go:224-243 | a file that is removed is not newer than any that stays without being kept, and at the same time its path comes first in byte order |
| `UploadSpec.PruneStopsInTime` | internal/upload/upload.go:230-243 | with the newest of the removed files still there the directory would be over the cap |
| `UploadSpec.TotalIsBytes` | internal/upload/upload.go:200-218 | the total counts the bytes of each file once |
| `UploadSpec.UploadKeepsCap` | internal/upload/upload.go:37-113 | accepted exactly if it fits and arrives; then the body is stored within the cap, else nothing changes; no over-cap error |
| `UploadSpec.UploadOutcome` | internal/upload/upload.go:37-113 | which answer a request gets, with a cap and without; without one nothing is evicted |
| `UploadSpec.StorageStaysUnderCap` | internal/server/server.go:110-120 | the prune at start-up never fails, and after it every sequence of uploads stays within the cap |
| `UploadDir.Directory.ReadDir` | internal/upload/upload.go:200-217 | reading in any order and sorting gives the listing and its total |
| `UploadDir.Directory.RemoveOldest` | internal/upload/upload.go:230-243 | the loop removes exactly the evicted files and counts them |
| `UploadDir.Directory.PruneDir` | internal/upload/upload.go:184-248 | does exactly the specified pruning, with the over-cap error exactly when the total stays over |
| `UploadDir.Directory.Upload` | internal/upload/upload.go:37-113 | does exactly the specified upload |
| `ProxyTable.MoveOk` | internal/proxy/proxy.go:198-295 | every critical section keeps the invariant of table, creators and closers |
| `ProxyTable.TableIsLive` | internal/proxy/proxy.go:198-264 | in every interleaving a listed session is under its own key and open; an open session is listed, with its creator or about to close |
| `ProxyTable.GaugeIsExact` | internal/proxy/proxy.go:440-452 | the gauge is sessions created minus closed, and the table plus what is in flight |
| `ProxyTable.StaleRemovalIsHarmless` | internal/proxy/proxy.go:454-461 | a removal takes out exactly that session, never a newer one with its key |
| `ProxyTable.SweepTakes` | internal/proxy/proxy.go:278-292 | a sweep takes exactly the idle sessions out of the table and owes each a close |
| `ProxyTable.MissIsServed` | internal/proxy/proxy.go:198-256 | from every reachable state: a hit changes nothing; behind a miss, dial and recheck list a new open session under the key and leave the others alone; a failed dial leaves nothing behind |
| `ProxyTable.CloseIsFinalIff` | internal/proxy/proxy.go:173-196 | after `Close` the table stays empty without lookups if and only if no creation was in flight |
| `ProxyObjects.Proxy.CloseSession` | internal/proxy/proxy.go:440-452 | the gauge goes down on the first close only |
| `ProxyObjects.Proxy.Insert` | internal/proxy/proxy.go:248-255 | the recheck lists the new session or closes it in favour of the listed one |
| `ProxyObjects.Proxy.GetOrCreate` | internal/proxy/proxy.go:198-264 | alone at work, returns the session listed under the key, new exactly if there was none |
| `ProxyObjects.Proxy.Sweep` | internal/proxy/proxy.go:267-295 | exactly the sessions idle for longer than the timeout leave and close |
| `ProxyObjects.Proxy.RemoveSession` | internal/proxy/proxy.go:454-461 | a session takes out only itself and is closed afterwards |
| `ProxyObjects.Proxy.Close` | internal/proxy/proxy.go:173-196 | every listed session closes and the table is empty |

## Left out

- QUIC, HTTP/3, WebTransport, TLS, sockets, timers, signals and the command-line programs.
- The client library, roles, configuration loading, profiles, dashboards, and metrics other than the two gauges.
- Nil pipelines, `Profile.Validate`, and the `OnDelay` hook, which only observes.
- Overflow of clock readings and durations, of `jitter + 1`, and of `nextSeq` after 2^64 packets.
- Probabilities as rates: every roll is an arbitrary draw. How many raw draws `math/rand` takes for one `Float64` or `Int63n` is not modelled.
- Write errors in `flushReady`, after which the proxy removes the session.
- Whether a stream that ends inside a frame's length gives `io.EOF` or another error is up to the QUIC library, which is not part of this model; `HeaderCut` stands for either.
- Allocation failures for a frame that announces a huge length.
- Frame kinds other than publications in the fan-out model; unexpected control frames are only logged.
- BrokerObjects.Broker.PublishDatagram: assumes nobody else at work, as does every method of the object models of broker, session, proxy and directory; interleavings are in `BrokerSessions`, `Fanout` and `ProxyTable`.
- Publishing on streams in the object model: a full channel blocks there, which only the step model can show.
- Fairness: that a publishing loop or writer that can move does move. `CanAlwaysReturn` says that it can.
- Errors of the file system, `RotatingFile.Close`, and writing after it.
- Concurrent uploads: pruning for one may remove the fresh file of another.
- `sanitizeFilename`, the SHA-256 of a body, and entries of the upload directory that are not regular files.
- `sort.Slice` is modelled by insertion, since the order is total on distinct paths and so has one result.
- The queues between a proxy session's loops, and `lastSeen` in the interleaved model, where a sweep may find any sessions idle.
