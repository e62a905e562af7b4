# A verified model of the stream proxy's core

The program merges playlists from several providers and proxies their streams. This project models and proves its
hardest parts in Dafny 4.11; `dafny verify dfyconfig.toml` checks everything.

- **The shared buffer.** One writer fills a ring of chunks that many readers drain. `RingLog` is the ring as a
  value, with the theorems that relate it to the log of all accepted writes. `Coordinator` is the program's own
  mutable form: pooled byte buffers, chunks whose buffers are swapped and never copied on a write, deep copies on a read.
  Every method there is specified by the functions of `RingLog`. `Protocol` interleaves writers, readers and
  clients, one lock-protected section or atomic access per step; `Registration` says how a client that stays registered
  protects what was written, `Reuse` what a coordinator promises after it has been cleared and used again, and `Lapping`
  exhibits a run that loses blocks. `MediaStream` is a client's read loop on the heap.
- **The writers.** `SourceLoop` is the loop that reads a source body, `Backoff` its retry delays, `Scripts` what the loop
  makes of a list of reads. `Feeder` is one writer of a ring and its clients; `Pipeline` (media) and `Segments` (HLS
  segments) are its two instances, which gives end-to-end fidelity for both. `Serving`, `ServingMedia` and
  `ServingSegments` exhibit, for every source that ends and every list of segments, a run in which a client is given all
  of it. `Accounting` interleaves request handlers and writer goroutines; `Concurrency` is the per-provider counter store.
- **The load balancer.** `Laps` says what laps, picks and probes amount to, against an environment that is an arbitrary
  function of time, so that free slots may change between any two looks. `LapProperties` says what a lap guarantees, and
  `LoadBalancer` is the code, which does what `Laps` says.
- **The playlist sorter.** `Sorter` is the sharded in-memory index, buffer and files; `SortKeys` the sort keys;
  `SorterProperties` what a whole run emits, merges and orders; `Flushes` when a title is flushed, from the adds alone.
- **The playlist text.** `Playlist` is the attribute scan, the parser, the pairing of lines and the printer;
  `PlaylistProperties` is the round trip. `Pairing` says what comes of any list of lines, URLs and index files included, and
  `Attributes` what a line of attributes says, whoever wrote it.

`Basics`, `Text`, `Sorting` and `Streams` hold what these share.

## Conventions

A step that is not enabled leaves the state alone, so every list of steps is a run. A reader's position is known by
the write count at which it was taken: `count`, congruent to its slot modulo the ring size. A new client starts one slot
before the writer, at count -1 on a new ring. Inputs from outside (reads, replies, clocks, cancellations, whether the
pool keeps a buffer) are parameters. In the sorter a `char` is a byte of a string, in the playlist modules it is a character.

## What the code does not do

The proofs follow the code where it differs from what its names and comments suggest.

- The staleness test of a read never notices a lapped reader; it fires only on a cleared slot
  (`RingLog.StaleOnlyOnCleared`). A reader lapped by a whole number of rings looks as if it had caught up:
  `Lapping.LappedReaderLoses` is a run in which a client loses all but the last of a ring's worth of writes.
- A coordinator that is used again after its last client left is cleared, but its write counter goes on. Once more
  than a ring's worth has been written in all, a client that joins before the first new block and reads after it is taken
  for stale and skips what has been written since. `Reuse.ReusedReaderLoses` reaches such a state on every ring of three
  slots or more, and `Reuse.ReadKeepsIff` says exactly which reads skip; a reader that keeps up and makes no such read
  loses nothing while nothing is cleared (`Reuse.NothingLostSince`).
- A leaving handler looks at the client count and clears the ring in two steps. `Reuse.LateClearLoses` reaches a state in
  which a client that registered in between has lost a block to that clear.
- The last-error cell is created holding a typed nil, so nothing is ever stored in it; errors travel through the ring alone
  (`Coordinator.StreamCoordinator.Valid` keeps this).
- The case for the read timeout compares two separate error values and is never taken; a timeout is reported like any
  other error (`SourceLoop.TimeoutIsOrdinary`).
- A second stream with a title whose first stream is still buffered is written to the file and then overwritten by the flush.
  `SorterProperties.SecondAddIsLost` is an example, and `SorterProperties.MergedIffNothingLost` says exactly when the entry
  is nevertheless the merge of everything that was added; `Flushes.MergedFromAdds` says it of the list of adds alone.
- Sorting text with direction `desc` does not reverse the order (`SortKeys.DescendingTextAscends`): the emitted list is in
  descending order only if all values are equal (`SorterProperties.DescendingTextOnlyIfEqual`).
- Keys of five digits do not order all sources: `SorterProperties.SourceKeysMisorder` is an example, and
  `SorterProperties.EmittedInNumericOrder` says exactly when the emitted list is in numeric order.
- A lap of the load balancer over a list with repeated providers need not end; `LapProperties.LapEndsIff` says over which
  lists it does. Without repetitions it always does (`Laps.DistinctEnds`). The provider list read from the environment
  has none, since variable names have none; another index provider may.

## Model

| member | source | states |
|---|---|---|
| RingLog.StampIsUnique | proxy/stream/buffer/coordinator.go:388-408 | of all numbers in (writeSeq - n, writeSeq], the one congruent to a slot's index is the stamp it may carry |
| RingLog.PutKeepsInv | proxy/stream/buffer/coordinator.go:388-408 | an accepted write keeps the writer at writeSeq mod n and every slot at 0 or its one possible stamp |
| RingLog.WipeKeepsInv | proxy/stream/buffer/coordinator.go:571-582 | clearing keeps the ring invariant, though the write counter is not reset |
| RingLog.StaleOnlyOnCleared | proxy/stream/buffer/coordinator.go:488-502 | the stale branch fires exactly on a cleared slot after more than n writes |
| RingLog.WalkNext | proxy/stream/buffer/coordinator.go:519-544 | the collecting walk reaches the writer after its lag and never comes back to its start |
| RingLog.LagIsDistance | proxy/stream/buffer/coordinator.go:505-544 | a reader's lag is its distance to the writer modulo the ring size |
| RingLog.RingRefinesLog | proxy/stream/buffer/coordinator.go:475-568 | on a ring nothing was cleared from, a read from count k yields exactly the data and the last error of the last (w - k) mod n log entries |
| RingLog.KeepingUpSeesAll | proxy/stream/buffer/coordinator.go:475-568 | less than a ring behind, that is everything written since count k |
| RingLog.LossIsWholeLaps | proxy/stream/buffer/coordinator.go:488-505 | what is lost is a multiple of n slots, of which one was never written if the client joined a new ring; nothing is lost exactly when the distance is below n or nothing was written |
| RingLog.FaultReachesReader | proxy/stream/buffer/coordinator.go:519-559 | after a terminal entry a reader is told its error if and only if its lag is not a multiple of n |
| Coordinator.BufferPool.Get | proxy/stream/buffer/coordinator.go:39-44 | a buffer from the pool is empty and leaves the pool, or is new |
| Coordinator.NewChunkData | proxy/stream/buffer/coordinator.go:39-44 | a new chunk is blank and its buffer has no other holder |
| Coordinator.ChunkData.Reset | proxy/stream/buffer/coordinator.go:49-59 | the old buffer goes to the pool, the chunk is blank with a buffer nobody else holds |
| Coordinator.StreamCoordinator.constructor | proxy/stream/buffer/coordinator.go:144-193 | a new coordinator represents the empty ring, active, with no clients |
| Coordinator.StreamCoordinator.Write | proxy/stream/buffer/coordinator.go:338-472 | accepted exactly when there is a chunk and the stream is active; then the ring is the old one with the entry put in, the caller's own buffer is in the slot, and a terminal entry drains; refused, the ring and state are unchanged; always the caller's chunk comes back blank with a buffer the ring and the pool do not hold |
| Coordinator.StreamCoordinator.Feed | proxy/stream/buffer/coordinator_media.go:40-48 | a block of bytes becomes one ring entry exactly when the stream is active |
| Coordinator.StreamCoordinator.WriteError | proxy/stream/buffer/coordinator.go:593-612 | offers a terminal chunk and closes the stream whether or not it was accepted |
| Coordinator.StreamCoordinator.Locate | proxy/stream/buffer/coordinator.go:479-502 | where a read starts: at the writer for a nil or stale position, otherwise where the reader stood |
| Coordinator.StreamCoordinator.Collect | proxy/stream/buffer/coordinator.go:512-568 | fresh deep copies of exactly the non-empty entries of the walk in order, none sharing a buffer with ring, pool or another copy, with the last error and the new position |
| Coordinator.StreamCoordinator.ClearBuffer | proxy/stream/buffer/coordinator.go:571-582 | every slot is emptied; the position and the write counter stay |
| Coordinator.StreamCoordinator.RegisterClient | proxy/stream/buffer/coordinator.go:209-237 | counts the client and makes the stream active when it was the first |
| Coordinator.StreamCoordinator.UnregisterClient | proxy/stream/buffer/coordinator.go:240-308 | uncounts the client; the last one drains the stream, signals the writer and clears the ring |
| Protocol.StepKeepsInv | proxy/stream/buffer/coordinator.go:338-582 | every step of every thread keeps the ring invariant, the ring backed by the log, and each reader's deliveries in log order below its count |
| Protocol.DeliveriesNeverRepeat | proxy/stream/buffer/coordinator.go:475-568 | under every interleaving, with clears and stale jumps, a reader's delivered log positions strictly increase and carry the bytes written there |
| Protocol.DeliveriesOnlyGrow | proxy/stream/media_stream.go:271-342 | nothing handed on is taken back by any step |
| Protocol.GoneForGood | proxy/stream/media_stream.go:259-268 | a client that left or was told the end is given nothing more by any step |
| Protocol.DeliveriesArePayloads | proxy/stream/buffer/coordinator.go:519-529 | the deliveries of a walk are the data that a read copies |
| Protocol.StampsInEveryRun | proxy/stream/buffer/coordinator.go:165-169 | in every run the writer is at writeSeq mod n, every stamp is 0 or the one possible, and staleness is exactly a cleared slot after more than n writes |
| Protocol.PollReadsTheTail | proxy/stream/buffer/coordinator.go:475-568 | on every run that clears nothing written, the stale branch never fires and a read that need not wait collects exactly the last (w - count) mod n log entries |
| Protocol.NothingLost | proxy/stream/media_stream.go:261-342 | while nothing written is cleared, a reader that keeps up has handed on every block from its join point to its position, and an error it was told is the log's last |
| Protocol.AcceptedErrorFreezes | proxy/stream/buffer/coordinator.go:425-429 | accepting a terminal chunk freezes the stream |
| Protocol.ReportCloses | proxy/stream/buffer/coordinator.go:593-612 | reporting an error, step by step: the terminal chunk is accepted exactly in an active stream, and the stream is closed either way |
| Protocol.TerminalFreeze | proxy/stream/buffer/coordinator.go:357-370 | from then on no write changes log or writeSeq, nor the ring if nothing clears it, until a revival |
| Protocol.OnlyEmptyRegistrationRevives | proxy/stream/buffer/coordinator.go:213-223 | only a registering client that had counted nobody makes an inactive stream active |
| Protocol.FrozenReaderIsTold | proxy/stream/buffer/coordinator.go:519-559 | after the freeze a reader's next poll gives all it can reach and then the error, or, when its lag is a multiple of n, nothing, and it stands where it stood |
| Protocol.EarlyClearSpares | proxy/stream/media_stream.go:168-169 | a clear before the first write, such as the first handler's, changes nothing |
| Lapping.LappedReaderLoses | proxy/stream/buffer/coordinator.go:488-510 | a run on which a client exactly a ring behind goes to sleep, and after one more write is given that write alone: the n - 1 before it are lost |
| Registration.ClientsAreCounted | proxy/stream/buffer/coordinator.go:209-261 | in every run the client counter is the number of registered clients |
| Registration.RegisteredClientProtects | proxy/stream/buffer/coordinator.go:209-308 | while one client stays registered and the writer is not started anew, nothing written is cleared and nobody revives the stream |
| Registration.NothingToDisturb | proxy/stream/media_stream.go:155-195 | until something is written, a run without revivals disturbs nothing |
| Registration.StartIsUndisturbed | proxy/stream/media_stream.go:155-195 | while clients register and none leaves, nothing is disturbed after the clear that starts the writer, even when blocks are written before a client has registered |
| Reuse.ClearBegins | proxy/stream/buffer/coordinator.go:571-582 | a clear of any reachable ring begins a new use, in which only what is written from then on is in the ring |
| Reuse.NothingLostSince | proxy/stream/media_stream.go:261-342 | a reader that joins a coordinator after a clear at count b, keeps up and does not skip has handed on every block since its join point or b, up to its position |
| Reuse.CompleteSinceMeans | proxy/stream/media_stream.go:261-342 | says this of the log: the blocks handed on are those from the later of join point and b to the position |
| Reuse.ReadKeepsIff | proxy/stream/buffer/coordinator.go:488-502 | a read less than a ring behind leaves the reader complete if and only if it was not the first read of one that joined right after the clear, with blocks written since and more than a ring's worth written in all |
| Reuse.ReusedReaderLoses | proxy/stream/media_stream.go:168-237 | on any ring of three or more slots a state is reachable in which a registered client joined before the last block and stands past it, given nothing, with nothing cleared since |
| Reuse.LateClearLoses | proxy/stream/media_stream.go:204-230 | on any ring of three or more slots a state is reachable in which a client registered, a block was written for it, and the late clear of a handler that left before has taken it away |
| MediaStream.StreamHandler.Round | proxy/stream/media_stream.go:261-348 | a round, or its part up to the wait or after it, does to the client exactly what the protocol's reader does: it sleeps, writes exactly the pending blocks in order and goes on or ends with their last error, or stops at the first failing write and counts only the bytes before it; the client has been given exactly that reader's bytes and the count is theirs, round after round |
| MediaStream.RoundIsStep | proxy/stream/media_stream.go:271-348 | what a round does to its reader is a step of the coordinator protocol |
| MediaStream.StreamHandler.constructor | proxy/stream/media_stream.go:236-237 | a client starts one slot before the writer with nothing written, as a reader that joins does |
| Backoff.BackoffStrategy.Next | proxy/backoff.go:22-33 | returns the current delay and doubles it up to the maximum; without a maximum returns the initial one |
| Backoff.BackoffStrategy.Reset | proxy/backoff.go:43-47 | goes back to the initial delay if there is a maximum |
| Backoff.DelaySchedule | proxy/backoff.go:22-33 | the delays are `initial` first, then min(initial * 2^k, max) |
| Backoff.DelayWithoutMaximum | proxy/backoff.go:22-25 | without a maximum every delay is the initial one |
| Backoff.DelayWithNegativeMaximum | proxy/backoff.go:24-36 | with a negative maximum, as a timeout of zero gives, the first delay is the initial one and all later ones are negative |
| SourceLoop.ReadAndWriteStream | proxy/stream/buffer/coordinator.go:614-763 | the loop passes on, sleeps and returns as its trace function says, for every script of turns, with the retry delays in nanoseconds |
| SourceLoop.LoopExit | proxy/stream/buffer/coordinator.go:639-752 | how every trace ends, told from its last turn, each case by an if-and-only-if: no error when the stream is not active, the cancellation, the timeout error, EOF for an EOF read or the eleventh empty one, the read's own error when it may not retry, and otherwise still running |
| SourceLoop.RetriesAreCounted | proxy/stream/buffer/coordinator.go:712-723 | there is one sleep for every failed read that may be retried |
| SourceLoop.SettledStartsAfresh | proxy/stream/buffer/coordinator.go:747-751 | after a read that resets the backoff the loop goes on as a new one would, with the initial backoff |
| SourceLoop.LoopPassesReads | proxy/stream/buffer/coordinator.go:665-744 | the blocks passed on are exactly the non-empty reads whose error is nil or EOF, in order, up to the turn it returned on |
| SourceLoop.DrySourceEnds | proxy/stream/buffer/coordinator.go:680-694 | a dry source ends the loop with EOF at the eleventh consecutive empty read and not before |
| SourceLoop.RetriesFollowSchedule | proxy/stream/buffer/coordinator.go:712-723 | while nothing resets the backoff the retry sleeps are its schedule |
| SourceLoop.RetrySleeps | proxy/stream/buffer/coordinator.go:622-624 | the first retry sleeps the initial backoff, the k-th later one min(initial * 2^k, timeout less one second); with a timeout of one second each sleeps the initial backoff, with none only the first sleeps |
| SourceLoop.TimeoutIsOrdinary | proxy/stream/buffer/coordinator_media.go:50-63 | a timeout of the read loop is reported as a server error like any other, cancelled or not |
| SourceLoop.ProcessSegments | proxy/stream/buffer/coordinator_m3u8.go:169-221 | without an error every segment was streamed to its end, in order; with one, all before the failing segment were, and the bytes are theirs and its own part |
| SourceLoop.FinishedIff | proxy/stream/buffer/coordinator_m3u8.go:176-180 | a segment lets the next one follow exactly when it had a body whose loop saw the stream inactive, an EOF read or the eleventh empty one |
| Feeder.FedIsRun | proxy/stream/buffer/coordinator_media.go:40-64 | a writer's moves are steps of the coordinator protocol |
| Feeder.FedRunKeepsInv | proxy/stream/buffer/coordinator_media.go:40-64 | in every undisturbed run the log is a prefix of the blocks the writer has passed on, or all of them and one final error |
| Feeder.WriterStops | proxy/stream/buffer/coordinator.go:609-612 | a writer that has written its final chunk closes the stream; one that finds it inactive stops without one |
| Feeder.FedToTheEnd | proxy/stream/media_stream.go:236-349 | whatever one writer passes on: a client loop that is told how the stream ended, having kept up in an undisturbed run, is told the writer's own final error and has handed on exactly the blocks passed, from its join point on, once each, in order |
| Feeder.StayingUndisturbed | proxy/stream/media_stream.go:155-234 | a run is undisturbed if, from the clear that starts the writer on, clients only register until one of them holds the stream, and that one stays registered; the writer may be ahead of it |
| Pipeline.PipeIsFed | proxy/stream/buffer/coordinator_media.go:40-64 | the media writer is such a writer |
| Scripts.LoopIsConsume | proxy/stream/buffer/coordinator.go:639-752 | the writers' view of a body, read by read, and the read loop agree on every script |
| Pipeline.PipeRunFits | proxy/stream/buffer/coordinator.go:639-752 | in every run the blocks the writer has passed on are those of the source's reads so far, a beginning of the script |
| Pipeline.ReportsWhatHappened | proxy/stream/buffer/coordinator_media.go:50-63 | in every run the final chunk is that of the error the loop returned: EOF with status 2, a cancellation that stopped it with status 0, any other error as it is with status 1 |
| Pipeline.CancelIsReported | proxy/stream/buffer/coordinator.go:640-652 | once the context is done the loop's next turn stops it, and the report has status 0 |
| Pipeline.TimeoutIsReported | proxy/stream/buffer/coordinator.go:653-665 | a source silent for the timeout stops the loop, and is reported with the timeout error and status 1 |
| Pipeline.InactiveStops | proxy/stream/buffer/coordinator.go:639 | a loop that finds the stream inactive stops without a report |
| Pipeline.ToldWhatHappened | proxy/stream/media_stream.go:236-349 | a client loop that is told any end, having kept up in an undisturbed run, is told what the writer reported and has handed on exactly the blocks of the source's reads, from its join point on |
| Pipeline.EndToEnd | proxy/stream/media_stream.go:236-349 | a client loop that ends with EOF, having kept up while nothing written is cleared and nobody revives the stream, has handed on exactly the source loop's blocks from its join point on, once each, in order |
| Pipeline.EndToEndWhileRegistered | proxy/stream/media_stream.go:155-349 | the same when from the writer's start on clients only register until one holds the stream, and that one stays, the writer being ahead of it or not |
| Pipeline.SourceBytesArrive | proxy/stream/media_stream.go:236-349 | when non-empty reads carry no error but EOF, the source's bytes are those before the join point followed by exactly the client's bytes |
| Segments.SegmentsArrive | proxy/stream/buffer/coordinator_m3u8.go:169-221 | a client loop that is told how an HLS stream ended, having kept up in an undisturbed run, has handed on exactly the blocks of the segments in order, from its join point on |
| Segments.SegmentBlocksAreStreamed | proxy/stream/buffer/coordinator_m3u8.go:169-221 | these are the blocks that streaming the segments one after another passes on |
| ServingMedia.SourceIsServed | proxy/stream/media_stream.go:155-349 | for every source that ends, and any ring of two or more slots, a run is reached in which a client registers, keeps up, stays, is told the end and has been given every block |
| ServingMedia.LastReadEnds | proxy/stream/buffer/coordinator.go:698-711 | a source whose last read carries EOF, and that no earlier read ends, is such a source |
| ServingSegments.SegmentsAreServed | proxy/stream/buffer/coordinator_m3u8.go:169-221 | for every list of segments and every final error an undisturbed run is reached in which a client keeps up, is told that error and has been given every block of the segments |
| Accounting.RunKeepsInv | proxy/stream/media_stream.go:155-234 | locks, flags, writers and counters fit together after every list of steps |
| Accounting.SingleWriter | proxy/stream/media_stream.go:155-190 | at most one live writer goroutine per coordinator, under every interleaving |
| Accounting.CountersAreExact | proxy/stream/buffer/coordinator_media.go:34-35 | the client count is the number of registered handlers, each provider's count the number of writers inside their bracket, and the floor at zero never fires |
| Accounting.FlagIsExact | proxy/stream/media_stream.go:156-176 | in every run the writer flag is up exactly while a handler is about to spawn a writer or a writer has not yet taken it down |
| Accounting.NextHandlerSpawns | proxy/stream/media_stream.go:155-190 | so whenever the lock is free and no one keeps the flag, the next handler spawns a writer |
| Accounting.WriterIsCounted | proxy/stream/buffer/coordinator_media.go:34-35 | an undisturbed writer is counted by its provider while it works, and only then |
| Accounting.AbortedIsNotCounted | proxy/stream/buffer/coordinator_media.go:15-35 | a writer that stops before its work is not counted at all |
| Accounting.WriterEnds | proxy/stream/media_stream.go:174-178 | a writer that has left takes the flag down under the lock and lets go of the lock |
| Accounting.HandlerRunsThrough | proxy/stream/media_stream.go:191-206 | a handler is counted, lets go of the lock, and is uncounted |
| Concurrency.ConcurrencyManager.GetConcurrencyStatus | store/concurrency.go:43-50 | current count, limit (at least 1) and their difference |
| Concurrency.ConcurrencyManager.CheckConcurrency | store/concurrency.go:52-61 | full exactly when there are no free slots |
| Concurrency.ConcurrencyManager.ConcurrencyPriorityValue | store/concurrency.go:63-66 | the number of free slots, negative when over the limit |
| Concurrency.ConcurrencyManager.UpdateConcurrency | store/concurrency.go:68-90 | one provider's counter goes up by one, or down but not below zero; the others stay |
| Concurrency.LimitIsSet | store/concurrency.go:28-41 | a limit set in the environment in decimal is the limit; unset, or not a positive number, it is 1 |
| Concurrency.LimitsAreSeparate | store/concurrency.go:33-34 | one provider's limit does not depend on another's variable |
| LoadBalancer.SortStreamSubUrls | sourceproc/helpers.go:87-109 | every sub-index once, by playlist line |
| LoadBalancer.LoadBalancerInstance.MarkTested | proxy/loadbalancer/instance.go:708-713 | appends to one stream's list of tested URLs and to no other |
| LoadBalancer.LoadBalancerInstance.ClearTested | proxy/loadbalancer/instance.go:715-717 | empties one stream's list and no other |
| LoadBalancer.LoadBalancerInstance.TryStreamUrls | proxy/loadbalancer/instance.go:481-706 | tries a provider's URLs by line, skipping tested ones and full providers, marks failures, stops at the first 200 |
| LoadBalancer.LoadBalancerInstance.PickIndex | proxy/loadbalancer/instance.go:401-414 | sorts the providers in place and picks one with the most free slots of those not yet picked, or the empty name when there are none left |
| LoadBalancer.LoadBalancerInstance.TryAllStreams | proxy/loadbalancer/instance.go:359-479 | a lap is a list of greedy picks and ends; its result is the winning URL, that there are no providers, a cancellation exactly when the context is done at the start or after a losing turn with URLs, or that every provider was picked without a win |
| LoadBalancer.LoadBalancerInstance.Balance | proxy/loadbalancer/instance.go:111-243 | the result comes from a list of proper laps, only the last of which may win, each after the first starting with nothing tested and only where the context was not done at the end of the one before; interrupted exactly when it is done at the end of the last lap without a win; at most MaxRetries laps, with at most MaxRetries times as many requests as there are URLs; a lap that was won or cancelled leaves its tested URLs, any other none |
| LapProperties.LapIsGreedy | proxy/loadbalancer/instance.go:401-414 | each lap picks a name at most once, and each pick has the most free slots at its moment of the providers not yet picked |
| LapProperties.LapIsComplete | proxy/loadbalancer/instance.go:398-478 | a lap that picked all providers without a choice has ruled out every URL under any of them: tested before, requested, failed and now marked, or skipped while full |
| LapProperties.EveryLapRulesOut | proxy/loadbalancer/instance.go:169-242 | when the retries are used up, every lap has ruled out every URL of the stream |
| LapProperties.TestedMeansAsked | proxy/loadbalancer/instance.go:526-549 | a URL found tested was on the list at the start, or was requested in this lap under this name by an attempt that failed |
| LapProperties.IdIsInjective | proxy/loadbalancer/instance.go:526-533 | the names kept for tested URLs tell provider and sub-index apart, when sub-indexes hold no bar |
| LapProperties.FirstEligibleWins | proxy/loadbalancer/instance.go:511-692 | the chosen URL is the stream's own, was untested and under its limit, answered 200, and everything earlier in pick and line order was ruled out |
| LapProperties.NoUrlTwice | proxy/loadbalancer/instance.go:526-549 | no URL is requested twice in a lap |
| LapProperties.RequestsAreBounded | proxy/loadbalancer/instance.go:169-233 | n laps make at most n times as many requests as there are URLs |
| LapProperties.LapEndsIff | proxy/loadbalancer/instance.go:398-414 | for any provider list a lap ends if and only if the distinct names, counting the empty one, are at least as many as the list is long |
| Laps.DistinctEnds | proxy/loadbalancer/instance.go:398-414 | over providers without repetitions it ends |
| LapProperties.ThreeTimesNeverEnds | proxy/loadbalancer/instance.go:398-414 | over one provider listed three times the lap never ends |
| Sorting.Sort | proxy/loadbalancer/instance.go:401-403 | the same elements in order; nothing about equal ones |
| SortKeys.SanitizeField | sourceproc/sorting.go:334-353 | at most 100 bytes, with no space and none of the characters a file name must not have |
| SortKeys.SanitizedEach | sourceproc/sorting.go:334-353 | spaces are dropped, each forbidden character becomes an underscore, and the first 100 bytes of that are kept |
| SortKeys.SanitizedStays | sourceproc/sorting.go:334-353 | sanitising again changes nothing, and clean short text is left alone |
| SortKeys.PaddedIsFixed | sourceproc/sorting.go:311-321 | a padded number that fits its width is that many decimal digits |
| SortKeys.PaddedCompares | sourceproc/sorting.go:311-321 | the order of zero-padded numbers as strings, whatever their sizes, in terms of their digits |
| SortKeys.SignedCompares | sourceproc/sorting.go:311-321 | the same with signs: negative numbers first, and among them by their digits |
| SortKeys.NumericKeysCompare | sourceproc/sorting.go:311-321 | of any two values that are 64-bit numbers, which key is the lesser, told from the sign and the digits of the numbers they show (for `desc` the distance from 2^31 - 1, wrapping at 64 bits); equal keys show equal numbers |
| SortKeys.DescendingTextAscends | sourceproc/sorting.go:323-332 | for text, the `desc` keys are ordered as the values are |
| SortKeys.FiveDigitsMisorder | sourceproc/sorting.go:254-255 | with width 5 the key of 100000 comes before that of 99999 |
| Sorter.MergeStreamInfoAttributes | sourceproc/sorting.go:263-309 | the merge field by field, URLs united provider by provider, the source taken from the lesser |
| Sorter.SortingManager.HandleExisting | sourceproc/sorting.go:113-127 | the title's entry in the shard file is merged or created; other titles and shards stay |
| Sorter.SortingManager.FlushShard | sourceproc/sorting.go:129-153 | the buffer is written over the file and emptied; other shards stay |
| Sorter.SortingManager.AddToSorter | sourceproc/sorting.go:52-106 | index, buffer and file of every shard say what the per-title reference record says after the add, with the flush at 250 |
| Sorter.SortingManager.GetSortedEntries | sourceproc/sorting.go:193-243 | emits, without repetition and ordered by key, exactly the final entries of all titles, and leaves every shard flushed |
| SorterProperties.KeysAreConserved | sourceproc/sorting.go:52-153 | a key is known after a run exactly if a stream of that key was added |
| SorterProperties.IndexIsBufferAndFile | sourceproc/sorting.go:66-97 | a shard's index is the buffered titles and those on file |
| SorterProperties.OneEntryPerKey | sourceproc/sorting.go:193-243 | the emitted list has exactly one entry per distinct (title hash mod 4096, sanitised title) that was added |
| SorterProperties.HistoryOfKey | sourceproc/sorting.go:52-153 | the first stream of a key stays the first, and what is merged into it later is an end of the key's adds |
| SorterProperties.EntryAfterFlush | sourceproc/sorting.go:113-127 | once flushed, a title's entry is the left fold of the merge over it and all later adds of its key |
| SorterProperties.FoldFillsIn | sourceproc/sorting.go:263-281 | the fold has the first non-empty value of each attribute |
| SorterProperties.FoldHasLeastSource | sourceproc/sorting.go:303-306 | and the least source and line of all that were folded |
| SorterProperties.MergedUrls | sourceproc/sorting.go:283-301 | a merge has the URLs of both, the second's where both have one |
| SorterProperties.EarlyAddsAreLost | sourceproc/sorting.go:66-69 | leaving some streams out of a merge changes it unless they had nothing to contribute: the exact condition |
| SorterProperties.MergedIffNothingLost | sourceproc/sorting.go:52-153 | on every run of adds, a title's entry is the merge of everything added under its key if and only if the adds made before its flush, other than the first, had nothing to contribute |
| Flushes.BufferIsRemainder | sourceproc/sorting.go:94-103 | on every run of adds a shard's buffer holds as many titles as its known titles leave over when divided by 250 |
| Flushes.FlushedWhen | sourceproc/sorting.go:94-103 | a title's record is its first stream, and is flushed if and only if its shard's distinct names have reached a multiple of 250 since it came |
| Flushes.FlushedBySome | sourceproc/sorting.go:94-103 | for every key that is added there is one add that flushes it, or it is never flushed |
| Flushes.EntryFromAdds | sourceproc/sorting.go:52-153 | a title's entry is its first stream merged with the adds of its key after the one that brought its shard to the next multiple of 250 |
| Flushes.MergedFromAdds | sourceproc/sorting.go:52-153 | so it is the merge of all adds of its key if and only if those between the first and that one had nothing to contribute |
| SorterProperties.SecondAddIsLost | sourceproc/sorting.go:139-145 | two adds of a title of which the second has an id: the emitted entry has none |
| SorterProperties.IdsAndChannelsInOrder | sourceproc/sorting.go:232-252 | ids and channel numbers from 0 to 2^31 - 1 come out in ascending, or for `desc` descending, numeric order |
| SorterProperties.EmittedInNumericOrder | sourceproc/sorting.go:246-261 | entries sorted by a numeric field that holds numbers, of any size and sign, are in numeric order, or for `desc` in reverse, if and only if no two of them have numbers whose digits compare the other way |
| SorterProperties.NotNumbersInTextOrder | sourceproc/sorting.go:311-315 | entries whose numeric field holds no number are in the order of the sanitised texts |
| SorterProperties.UnsetComesFirst | sourceproc/sorting.go:311-315 | entries without a value come before all that have a number |
| SorterProperties.EmittedInTextOrder | sourceproc/sorting.go:323-327 | entries sorted by a text key, such as the title by default, are in ascending order of the sanitised texts, and of the texts themselves where those are clean and short |
| SorterProperties.SourceKeysMisorder | sourceproc/sorting.go:254-255 | in a list sorted by source, an entry of source 100000 stands before every entry of source 99999 |
| SorterProperties.DescendingTextOnlyIfEqual | sourceproc/sorting.go:323-332 | a list sorted by a text key with `desc` is in ascending order, and in descending order if and only if all values are equal |
| Playlist.ParseLine | sourceproc/parser.go:25-133 | the stream an attribute line and a URL line describe, or none without a title, and the index file it leaves |
| Playlist.HandleDownloaded | sourceproc/processor.go:434-460 | the streams sent, in order, and the index files, for every list of lines |
| Playlist.FormatStreamEntry | sourceproc/parser.go:136-166 | the attributes that are not empty, in order, then the title, then the URL line |
| Pairing.PlaylistComesOf | sourceproc/processor.go:434-460 | for every list of lines: a URL line belongs to the nearest `#EXTINF` line above it with only `#` lines between; the streams sent are those of the pairs the filter keeps, in order; the first pair with a title, source and URL hash sends its URL with its line, a repeat sends none; there is an index file for every pair with a title |
| Pairing.CommentsAreIgnored | sourceproc/processor.go:447-459 | any other line that starts with `#` makes no difference wherever it stands |
| Attributes.KeyMeans | sourceproc/parser.go:42-62 | a key fills a field exactly when it is one of that field's names, in capitals or not |
| Attributes.LineSays | sourceproc/parser.go:36-72 | for any attributes in any order: each field has the value of its last attribute, trimmed, and the title is what follows the comma, whatever the attributes say |
| Attributes.QuotesAreDropped | utils/middlewares.go:12-18 | a value with quotes at both ends loses all of them, a quote at one end stays |
| Attributes.TrimsSpaces | sourceproc/parser.go:46-47 | trimming takes away the spaces round a text and nothing else |
| PlaylistProperties.EntryShows | sourceproc/parser.go:136-166 | an entry shows each attribute that is not empty under its name, the group under two, and nothing else |
| PlaylistProperties.MatchAtFinds | sourceproc/parser.go:19-22 | whatever text reads as key="value" at a place is found there, and it is the only such reading |
| PlaylistProperties.FindFromIsLeftmost | sourceproc/parser.go:42 | the scan finds the leftmost pair |
| PlaylistProperties.FindsPairs | sourceproc/parser.go:42-68 | printed attributes are found again, all of them, in order |
| PlaylistProperties.RemovesPairs | sourceproc/parser.go:63-64 | removing each pair's first occurrence leaves the spaces between them and the text around |
| PlaylistProperties.DescribesPrinted | sourceproc/parser.go:42-72 | a printed line describes the stream it was printed for, commas in the title included |
| PlaylistProperties.RoundTrip | sourceproc/processor.go:434-460 | printing a playlist and handling its lines sends, in order, exactly the streams the filter keeps, each with its title, trimmed attributes, source and line |
| PlaylistProperties.UnfilteredRoundTrip | sourceproc/parser.go:136-166 | without a filter every stream comes back with the same title, id, channel number, type and group, and the line number of its URL |
| PlaylistProperties.StoredUrlKeepsLine | sourceproc/parser.go:122-128 | the load balancer reads back, from a URL as the parser keeps it, its line and the URL itself, whatever the URL contains |

## Left out

- Wake-ups: a waiting reader is modelled by polls at arbitrary moments; that it is eventually woken is not stated, and the code does not ensure it, since it subscribes after it releases the lock.
- Coordinator.StreamCoordinator.Collect: does not model the wait inside a read; `Locate` and `Collect` are the two locked sections around it, and `Protocol` interleaves other threads between them.
- Coordinator.StreamCoordinator.Write: does not model chunk timestamps, nil ring values, or the notification of waiting readers.
- Coordinator.StreamCoordinator.constructor: needs a ring of at least one slot; the configuration accepts none, and then the ring is nil.
- Pipeline.EndToEnd: is stated for one writer on a new coordinator, for readers that stay less than a ring behind, and while nothing written is cleared; `Protocol.DeliveriesNeverRepeat` holds without these conditions. On a coordinator used before, completeness is stated for its readers (`Reuse.NothingLostSince`), not joined to a writer.
- Segments.SegmentsArrive: cancellation and timeouts end the writer at any moment, and which segments it opens is an input; what a playlist lists is not modelled.
- Wrap-around of the 64-bit write counter and the 32-bit counts, and overflow of retry delays.
- SourceLoop.ReadAndWriteStream: the block callback never fails, as neither caller's does; timeouts and the reset of the backoff are inputs.
- MediaStream.StreamHandler.Round: does not model response headers, the rejection of content types, flushing, or a missing client writer; other threads run between rounds and between the two parts of a waiting read.
- Panics and their recovery in the writers.
- LoadBalancer.LoadBalancerInstance.Balance: takes a bound on the laps it runs, for MaxRetries of 0 means without end; the pause between laps is one look at the context, and the fetching of backend URLs is left out, as are missing requests and clients.
- LoadBalancer.LoadBalancerInstance.TryAllStreams: is stated for the lists over which a lap ends, which `LapProperties.LapEndsIff` characterises. Counts that change while a sort is comparing are not modelled.
- Two simultaneous balance calls that share a list of tested URLs.
- Sorter.SortingManager.AddToSorter: file operations succeed, an entry read back is the entry written without its URLs; adds to one shard are atomic, as the shard map makes them.
- SorterProperties.EntryAfterFlush: does not cover a title over 100 bytes that is cut inside a multi-byte character; it is stored under another JSON key than its index name, so later adds are not merged into it. The same goes for what is built on it, `SorterProperties.MergedIffNothingLost` and `Flushes.EntryFromAdds`.
- The title hash is any function.
- Playlist.ParseLine: hashes and file operations succeed, which the index file of a title whose base64 form contains `/` does not in the code, since its path leads into a directory that does not exist (sourceproc/parser.go:100-110); the title substring filter is off; the logo rewriting is any function of the logo; the title and group filters are any predicate.
- PlaylistProperties.RoundTrip: logos come back rewritten, so only that the rewriting was applied is stated. Lines longer than the scanner's limit are left out.
- HLS playlist parsing and polling, the registry, slugs, downloads, the HTTP handlers, passthrough, the updater and logging: plumbing or library-bound, with little to prove.
