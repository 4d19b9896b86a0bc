# Outband audit pipeline: a verified model

Outband is a proxy that streams request bodies to an upstream service and, on
the side, copies them into audit blocks, reassembles them, redacts personal
data, and writes one telemetry record per request together with periodic
evidence reports. The audit side may never block or change the proxied
traffic, so almost every step of it may fail: a pool may be empty, a queue may
be full or closed, a buffer may be evicted, a write may stop half-way. The
project models that audit side and proves what holds in spite of every such
failure, under every schedule.

## Structure

The capture path is modelled on two levels that share one definition.

* `ReaderProtocol.dfy` is the automaton of one `auditReader`: a step is one
  interaction with the pool or the queue with the local code that follows it,
  and the answer of the pool or queue is the step's outcome.
  `Reassembly.dfy` is the assembler's table on values.
* `CaptureSystem.dfy` composes any number of readers, the pool, the bounded
  queue, the assembler, the stale sweep and a clock into a transition system;
  misses, refusals, evictions and the worker queue's answer are free choices.
  `CaptureTheorems.dfy` proves the invariant of every run and the main results
  for requests whose block numbers have not wrapped and whose source was silent
  after the end of the body. `Segments.dfy`, `Outcomes.dfy` and
  `Wraparound.dfy` say what holds without these two conditions, and give runs
  in which the stronger claims fail. `LateBytes.dfy` follows one reader whose
  source keeps delivering after EOF.
* `Blocks.dfy`, `TeeReader.dfy` and `Assembler.dfy` are the classes, with
  arrays and in-place updates. `Read` and `Close` are shown to play a script of
  the reader automaton with the answers that the real pool and queue gave;
  `ProcessBlock` and `SweepStale` are shown to compute the table functions,
  with the arrays of buffers and payloads apart from those of pooled blocks.

Behind the audit queue:

* `Pipeline.dfy` is the transition system of assemblers, N workers, bridges,
  session tracker, sweeper, collector and the waiter that shuts them down, for
  the request direction alone or both directions. A send on, or a second close
  of, a closed channel is recorded where Go would panic. `Conservation.dfy`
  counts payloads, and `Losses.dfy` says which full queue loses an entry and that
  nothing else does.
* `Session.dfy` and `SessionTrackers.dfy` are the tracker on values and as a
  class that merges entries in place; `CollectorLoop.dfy` is the collector's loop,
  which refines the collector of the transition system.
* `Percentile.dfy` and `Aggregators.dfy` are the histogram against a sorted
  list and the aggregator class; `Evidence.dfy` is the sequence of reports.
* `JsonlWriter.dfy` is the rotating writer over a directory that may fail.

The pure parts:

* `Luhn.dfy` and `Ipv4.dfy` are the two validators, `Regex.dfy` and
  `Redactor.dfy` the pattern table as expression trees with a matching relation
  and the replacing pass, `Patterns.dfy` what each expression matches, and
  `Cleanliness.dfy` and `Redaction.dfy` what each pass does and the proof that
  no social security number survives. The engine is any function that reports
  what a leftmost search finds.
* `Extractor.dfy` and `Sse.dfy` are content extraction from parsed bodies and
  streams.

`Prelude.dfy` holds small shared definitions.

## Findings

* The claim that a closed capture leaves nothing behind needs the source to be
  silent after EOF, since `finish` returns early when it has run before
  (teereader.go:162-165) and `Close` gives back a held block only of an
  abandoned reader (teereader.go:224-229). `LateBytesStrandABlock` gives a run
  with one late byte that leaves a block in the reader, and
  `StrandedExactlyWhen` the exact condition: the reader was not abandoned and
  the late bytes do not fill whole blocks. `Close` before EOF finishes the
  capture, so "complete" means all bytes that `Read` delivered by then.
* The claim that a rejected request never restarts needs the bound of 2^32
  blocks per request, because the block numbers wrap (teereader.go:89-90) and a
  block numbered 0 opens a buffer like any first one (assembler.go:133-158).
  `NeverRestarts` holds up to exactly 2^32 acquired blocks and `Restarts` is a
  run with one more; `WrappedNumberRestarts` says which block gives such a
  request a buffer.
* Fidelity needs the same bound: `FaithfulBelow` delivers every body of at most
  2^32 blocks whole, `WrongPayload` is a run that dispatches one byte, as
  complete, for a body one byte longer than that, and `PayloadIsTail` says what
  any payload is.
* A body that fills a multiple of 2^32 blocks exactly looks empty to `finish`
  (teereader.go:167-170): no final block is sent and no drop is counted.
  `FullTurnLooksEmpty` is such a run and `OutcomeExactlyUnless` shows that there
  is no other way to miss the three outcomes.
* The comment at session.go:22-26 speaks of one unified record per request. A
  sweep between the two sides that finds the first one expired makes two
  (session.go:146-156): `PairIsSplit` does this to any two sides, and
  `PairOutcome` says exactly when it happens.
* The comment at jsonlwriter.go:158-159 says later flushes still work after a
  failed rename. They do when the reopening succeeds; after a rotation that
  loses the handle (jsonlwriter.go:160-164, 172-174) no later flush ever writes
  a byte (`SilentAfterLostHandle`, and `RenameLosesHandle` for a new writer).

## Model

| member | source | states |
|---|---|---|
| ReaderProtocol.StepTagged | teereader.go:79-216 | a step only ever enqueues the block it offers, under the reader's own request id, and never runs the block counter backwards |
| ReaderProtocol.StepBalance | teereader.go:79-233 | in every step, what is put back, enqueued or still held is exactly what was held before or acquired |
| ReaderProtocol.PutAllFits | blockpool.go:101-108 | giving blocks back loses none while pool and returns fit the capacity |
| ReaderProtocol.InitInv | teereader.go:52-60 | a new reader satisfies the invariant of stream, held block, bytes and drop count |
| ReaderProtocol.StepInv | teereader.go:65-233 | every step of Read, capture, finish, abandon and Close keeps that invariant, whatever the pool and the queue answer |
| ReaderProtocol.CallsTerminate | teereader.go:80-140 | every step of a call leaves less work: a held block always has room, so capture consumes data or gives up |
| ReaderProtocol.NeverStuck | teereader.go:80-200 | a call that has not returned can go on for either answer of pool or queue |
| ReaderProtocol.ClosedOutcome | teereader.go:162-233 | after Close exactly one holds: nothing read and no drop; a final block carrying all bytes and no drop; no final block and one drop; and no block is held |
| ReaderProtocol.StreamShape | teereader.go:80-200 | enqueued blocks are numbered 0..k-1, full and unflagged up to the last, never both final and abort, and concatenate to a prefix of the bytes read |
| ReaderProtocol.LateBytesStrandABlock | teereader.go:162-165 | a concrete run with a byte after EOF in which the closed reader still holds a block |
| LateBytes.StepLate | teereader.go:65-233 | every step, whatever the source delivers, keeps the bytes in hand after finish equal to the late bytes up to whole blocks |
| LateBytes.StrandedExactlyWhen | teereader.go:162-233 | a closed reader holds a block exactly if it was not abandoned and the bytes after finish do not fill whole blocks |
| ReaderProtocol.StepFinalized | teereader.go:162-166 | once finished, the bytes read no longer change while the source is silent |
| Reassembly.DispatchedExactlyWhen | assembler.go:120-201 | a payload is dispatched exactly when an expected final block fits both limits and the worker queue takes it |
| Reassembly.BufferedExactlyWhen | assembler.go:120-201 | a request is buffered after its block exactly when the block was expected, fits both limits and is not the last |
| Reassembly.CountersExactlyWhen | assembler.go:120-201 | for every table, block and answer: oversized grows exactly for an expected block that makes its buffer too long, budgetExceeded exactly for a block refused before insertion or an expected one that breaks the budget but not the payload limit, workerQueueFull exactly for a welcome final block that is not taken |
| Reassembly.EndedExactlyWhen | assembler.go:120-201 | which deletion a block causes, if any, and for which reason, and when it makes a buffer |
| Reassembly.TableAfter | assembler.go:120-201 | the table after any block: a welcome one that is not the last leaves the grown buffer, seen now and waiting for the next number; otherwise the request has none; the payload is the bytes collected and the block's |
| Reassembly.ProcessAccounted | assembler.go:120-201 | the byte count stays the sum of the buffer lengths within 0..budget, and no buffer exceeds the payload limit |
| Reassembly.EvictAccounted | assembler.go:205-215 | an eviction keeps that account |
| Reassembly.ProcessLedger | assembler.go:120-201 | insertions equal buffers plus deletions, per request and in total, each counter counts its own kind of ending, and the budget counter is those endings plus the refusals |
| Reassembly.EvictLedger | assembler.go:99-108 | eviction by sweep or at shutdown keeps the ledger |
| Reassembly.SweepKeeps | assembler.go:205-215 | a whole sweep keeps account and ledger in whatever order the map is visited |
| Reassembly.SweepExactly | assembler.go:205-215 | a sweep keeps exactly the buffers seen within the timeout, as they were, and counts exactly the others |
| Reassembly.EndingsPartition | assembler.go:105-215 | every ended life has exactly one of the eight endings |
| CaptureSystem.NextOwned | blockpool.go:65-108 | every action of any component keeps each block in exactly one place |
| CaptureSystem.ProcessFrame | assembler.go:120-201 | handling a block leaves every other request's buffer, endings and payloads alone |
| CaptureSystem.ProcessLife | assembler.go:120-201 | handling a request's next block advances its one life: the buffer holds exactly the blocks so far, a request that is over stays over |
| CaptureTheorems.RunInvariant | teereader.go:65-233 | the system invariant holds after every run of readers, queue, assembler, sweeps and clock |
| CaptureTheorems.Fidelity | assembler.go:182-198 | for numbers that have not wrapped and a silent source, a dispatched payload is exactly the bytes its request's Read calls returned, and the only payload of that request |
| Segments.StepEmits | teereader.go:65-233 | every step of a reader, for any source and any number of blocks, keeps the shape of what it sends: full blocks with wrapped numbers, and at most one final block, which completes the bytes read at finish |
| Segments.ProcessSegment | assembler.go:120-201 | handling any block keeps a buffer equal to the blocks since a multiple of 2^32, and a payload equal to those up to the final one |
| Segments.PayloadIsTail | assembler.go:182-198 | in every run a request has at most one payload, and it is what Read had returned at finish without a multiple of 2^32 blocks at the front |
| Segments.FaithfulBelow | assembler.go:182-198 | a body of at most 2^32 blocks is dispatched whole or not at all, whatever the source delivers afterwards |
| CaptureTheorems.FinishedReadIsFixed | teereader.go:162-166 | what a reader had returned at finish is never changed, and a silent source adds nothing to it |
| CaptureTheorems.BlockOwnership | blockpool.go:62-69 | in every reachable state each block is in exactly one of pool, a reader's hands, queue, assembler's hands, and the total is the capacity |
| CaptureTheorems.PutNeverLoses | blockpool.go:101-108 | Put never takes its full-pool branch |
| Outcomes.AllBlocksReturn | teereader.go:218-233 | with all readers of silent sources closed and the queue drained every block is back in the pool, however long the bodies were |
| CaptureTheorems.CaptureOutcome | teereader.go:162-233 | the trichotomy of ClosedOutcome for every reader of every run |
| Outcomes.StepAccounts | teereader.go:65-233 | every step for a silent source keeps the account of drops and final blocks, for any number of blocks |
| Outcomes.OutcomeExactlyUnless | teereader.go:162-233 | a closed capture has one of the three outcomes exactly unless its bytes fill a positive multiple of 2^32 blocks and nothing was dropped; then all bytes were sent without a final block |
| Outcomes.DropsExactlyWhen | teereader.go:80-216 | a reader between calls has counted a drop exactly if some Get missed or some send was refused; without that a closed capture is complete, or nothing was read, or the body fills full turns |
| Wraparound.FullTurnLooksEmpty | teereader.go:167-170 | a run in which a body of 2^32 blocks has none of the three outcomes |
| CaptureTheorems.EmittedStream | teereader.go:80-200 | the stream shape for every reader of every run |
| CaptureTheorems.FifoSequencing | assembler.go:133-158 | a block that finds a buffer carries the number it expects; a mismatch happens exactly for a request that is over |
| CaptureTheorems.HeldIsKnown | assembler.go:96-110 | the assembler never holds a block of an unknown request |
| Wraparound.HeldNumber | teereader.go:82-128 | a block numbered 0 reaches the assembler for a request that is over only if that request has acquired more than 2^32 blocks |
| Wraparound.NeverRestarts | assembler.go:123-215 | once a request is over no action gives it a buffer, an ending or a payload again until it has acquired more than 2^32 blocks, whatever its source does |
| Wraparound.NumberingWraps | teereader.go:82-128 | in every run the block that a reader acquires after 2^32 others is numbered 0 again |
| Wraparound.WrappedNumberRestarts | assembler.go:133-158 | in every run a request that is over gets a buffer again exactly by a welcome block that is not final; such a block is numbered 0, and only numbering that has wrapped sends one |
| Wraparound.Restarts | assembler.go:133-158 | a run in which a request rejected for its size is over, has acquired one block more than 2^32, and gets a buffer again |
| Wraparound.WrongPayload | assembler.go:182-198 | a run in which one byte is dispatched as the complete body of a request that had read 2^32 + 1 bytes |
| CaptureTheorems.NoSilentLoss | assembler.go:120-201 | a complete stream that was handled was dispatched whole, or its one buffer was evicted for exactly one reason and nothing was dispatched, or the budget refused a block of this very request and no buffer of it outlived a stray block |
| CaptureTheorems.OneLife | assembler.go:123-215 | each request has at most one genuine ending and at most one payload, and none while it is buffered |
| CaptureTheorems.LivesAddUp | assembler.go:66-71 | lives begun equal live buffers plus payloads plus every other kind of ending, shutdown included; the budget counter is the endings over budget plus the refusals |
| CaptureTheorems.InflightAccounting | assembler.go:120-201 | in every reachable running state the byte count is the sum of buffer lengths, within the budget |
| CaptureTheorems.SweptExactlyWhen | assembler.go:205-215 | in every run a sweep can evict a request exactly if it is buffered and its latest block was handled longer ago than the timeout |
| Blocks.AuditBlock.Write | blockpool.go:46-51 | writes the longest prefix that fits after what is there and leaves the rest of the array alone |
| Blocks.AuditBlock.Reset | blockpool.go:53-60 | the block is as new |
| Blocks.BlockPool.constructor | blockpool.go:73-86 | totalBytes / blockSize blocks, at least one, all distinct, reset and in the channel |
| Blocks.BlockPool.Get | blockpool.go:90-99 | the oldest free block, reset, or null with the exhaustion counted |
| Blocks.BlockPool.Put | blockpool.go:102-108 | the block joins the free ones unless the channel is full |
| Blocks.BlockQueue.Offer | teereader.go:145-157 | sends without blocking; a full or closed queue refuses |
| Blocks.DropCounter.Increment | dropcounter.go:39-42 | both counters grow by one |
| Blocks.DropCounter.Poll | dropcounter.go:46-50 | returns and clears the interval count, keeps the total |
| TeeReader.AuditReader.Read | teereader.go:65-77 | the caller sees what the source returned; the reader, pool and queue end where the automaton ends for the answers really given |
| TeeReader.AuditReader.Capture | teereader.go:80-140 | the capture loop plays the automaton until the data is used up or the capture given up |
| TeeReader.AuditReader.SendFullBlock | teereader.go:115-128 | a full block and the next one: sent and tagged, or both given back with one drop |
| TeeReader.AuditReader.RecordDrop | teereader.go:212-214 | the recorder, if there is one, grows with the reader's lost captures |
| TeeReader.AuditReader.Finish | teereader.go:162-200 | plays the automaton's finish, with its sentinel or final block |
| TeeReader.AuditReader.AbandonHeld | teereader.go:204-216 | an abort block is offered or given back and one drop counted |
| TeeReader.AuditReader.Close | teereader.go:220-233 | plays one Close of the automaton; a second call changes nothing |
| TeeReader.ReadBeside | blockpool.go:65-108 | of two readers on one pool, a call of one leaves the other's block and state as they were and both valid |
| TeeReader.CallKeepsInv | teereader.go:65-233 | a whole call on the real objects keeps the reader's invariant |
| TeeReader.HonestIsPossible | teereader.go:145-157 | the answers of real pool and queue are among those the transition system allows |
| Assembler.PayloadBuffer.Append | assembler.go:160-163 | the slice grows by the block's bytes, in place or in a fresh array |
| Assembler.Table.HandleBlock | assembler.go:120-201 | the table ends as the value function says, messages already dispatched are unchanged |
| Assembler.Table.ProcessBlock | assembler.go:120-201 | the same, and the block is back in the pool in every branch |
| Assembler.Table.Dispatch | assembler.go:182-198 | the payload takes the buffer's bytes, or the full worker queue is counted |
| Assembler.Table.SweepStale | assembler.go:205-215 | a buffer stays, with its value, exactly if it was seen at most the timeout ago; nothing is added, and the stale counter grows by the number of those that go |
| Assembler.Table.EvictRemaining | assembler.go:99-108 | closing the queue empties the table |
| Assembler.Table.Recycle | blockpool.go:90-108 | whatever other readers write into recycled blocks, buffers and dispatched payloads keep their bytes |
| Pipeline.LineStepOk | worker.go:58-76 | a step of assembler, worker or bridge keeps the closing order of its line |
| Pipeline.RunSafe | run.go:259-296 | the closing order holds after every run |
| Pipeline.NoPanic | run.go:259-296 | no stage sends on or closes a closed channel under any schedule |
| Pipeline.CollectorIsFifo | collector.go:51-98 | flushed, in-flight and active batches concatenate to the records received, and once stopped all are flushed |
| Pipeline.StepWork | run.go:259-296 | every internal step leaves less work; a tick never adds any |
| Pipeline.ShutdownBound | run.go:259-296 | from any reachable state the work there bounds all further internal steps unless new blocks arrive |
| Pipeline.ClosedQueueStaysClosed | run.go:259-278 | past its closing a queue takes no block, so none can arrive |
| Pipeline.ShutdownProgress | run.go:259-296 | until the collector has exited some component can take an internal step |
| Conservation.NextBalanced | worker.go:60-74 | every step of any component keeps the count of every payload |
| Conservation.NothingLost | run.go:190-241 | in every reachable state each dispatched payload is in exactly one place from the worker queue to the flushed batches, a drop counter or a refusal |
| Conservation.ShutdownDelivers | run.go:259-296 | after the shutdown each dispatched payload was flushed, counted in resultDropped, or refused by the full collector channel |
| Losses.DroppedExactlyWhen | worker.go:64-72 | an entry is counted in resultDropped exactly if the result queue is full when it is delivered; otherwise it is the last one there |
| Losses.DispatchedExactlyIf | assembler.go:191-196 | a completed payload is dispatched exactly if the worker queue has room |
| Losses.OldestFirst | worker.go:64-66 | workers and bridge take the oldest entry |
| Losses.WorkersStay | worker.go:58-76 | every line has its configured number of workers in every run |
| Losses.RefusedExactlyWhen | session.go:158-165 | a record is lost exactly if the collector channel is full when it is sent; a side alone, or both sides in one record |
| Losses.HeldExactly | session.go:58-107 | the first side of a request is held, the second releases it, and so does the sweeper |
| Losses.RoomLosesNothing | run.go:190-241 | a run in which no queue is ever found full drops and refuses nothing, and dispatches all that was completed |
| Losses.RoomFlushesAll | run.go:259-296 | after the shutdown of such a run every completed payload has been flushed, as often as it was completed |
| Session.MergeCopies | session.go:168-184 | merging into a request entry copies the whole response side and nothing else |
| Session.StepTrace | session.go:58-156 | every submission and sweep treats each request id on its own |
| Session.PairOutcome | session.go:68-156 | both sides submitted once give one merged record exactly if no sweep between them finds the first expired, else two separate ones |
| Session.PairIsSplit | session.go:146-156 | for any time to live and any two sides of a request there is a run that emits them as two records |
| Session.SingleOutcome | session.go:58-156 | a side that stays alone is held until a sweep finds it expired or the tracker stops, and then goes out once, as it is |
| Session.RequestsPassThrough | session.go:58-66 | without response capture every request entry goes out at once and in order, and nothing is held |
| Session.OrderDoesNotMatter | session.go:71-98 | the merged record is the same whichever side came first |
| Session.TimelyPairIsNotSwept | session.go:146-156 | sides at most the TTL apart are never separated by a tick |
| Session.NothingHeldAfterStop | session.go:129-137 | after the final sweep nothing is held |
| SessionTrackers.TelemetryLog.MergeResponse | session.go:168-184 | the destination ends as the value function says |
| SessionTrackers.SessionTracker.SubmitRequest | session.go:58-84 | the tracker ends as the value function says, and records already sent are not written to |
| SessionTrackers.SessionTracker.SubmitResponse | session.go:90-107 | likewise for the response side |
| SessionTrackers.SessionTracker.SweepExpired | session.go:146-156 | every session is visited and exactly the expired ones are emitted |
| SessionTrackers.SessionTracker.FinalSweep | session.go:129-137 | everything held is emitted and nothing stays |
| CollectorLoop.Loop.TryFlushBatch | collector.go:59-77 | entries with no flush running are handed over as one batch and leave an empty one; with a flush running nothing but the backlog counter changes |
| CollectorLoop.Loop.Take | collector.go:90-93 | an entry joins the active batch, which is handed over exactly if it is full and no flush is running |
| CollectorLoop.FlushesInTime | collector.go:59-97 | in every run, after an entry a flush is running or the batch is not full, a tick leaves entries only behind a running flush, and each flush put off is counted |
| CollectorLoop.WindUpLossless | collector.go:82-88 | whatever was flushed, running and active, closing the input flushes the whole input in order |
| CollectorLoop.StartCollector | collector.go:51-98 | for every order of arrivals, ticks and flush ends the batches flushed concatenate to the whole input and none is empty; without ticks only the last is smaller than the batch size |
| Percentile.SortSorted | aggregator.go:141-162 | the reference list is sorted and a permutation of the samples |
| Percentile.SortedRank | aggregator.go:147-160 | in a sorted list an element is at most v exactly if its rank is below the count up to v |
| Percentile.WalkFindsRank | aggregator.go:154-161 | the first bucket whose cumulative count reaches the rank is the element of that rank |
| Percentile.NearestIsQuantile | aggregator.go:141-162 | the share of samples up to the percentile reaches it, the share below it does not |
| Percentile.NearestMonotone | aggregator.go:210-212 | a larger percentile is never smaller |
| Aggregators.TallySum | aggregator.go:124-128 | the PII total is the sum over the categories |
| Aggregators.TallyCounts | aggregator.go:124-137 | each category's number is how often the entries mention it |
| Aggregators.SidesCounted | aggregator.go:124-137 | request categories are counted for every entry, response categories and responses exactly for entries with a response side |
| Aggregators.OverflowCounts | aggregator.go:107-117 | the overflow is the number of samples outside 0 to 99 milliseconds |
| Aggregators.CoverageIsShare | aggregator.go:192-196 | coverage is a hundred times the audited share, and zero where there was nothing to audit |
| Aggregators.SummaryIsExact | aggregator.go:198-235 | every number of a report is that of the window's samples and entries, or the one passed in |
| Aggregators.SummaryIsConsistent | aggregator.go:168-247 | in every report p50 <= p95 <= p99, totals equal category sums, and response numbers agree with the entries |
| Aggregators.Aggregator.RecordLatency | aggregator.go:107-117 | the window gains the sample and the histogram still holds all samples |
| Aggregators.Aggregator.Ingest | aggregator.go:120-139 | the window gains the batch and the counters and maps still describe all entries |
| Aggregators.Aggregator.ComputePercentile | aggregator.go:143-162 | the result is the element of rank ceil(N*p) of the sorted samples |
| Aggregators.Aggregator.BucketsAddUp | aggregator.go:80-82 | bucket counts and overflow add up to the samples |
| Aggregators.Aggregator.SnapshotAndReset | aggregator.go:168-247 | the report describes the window, which starts anew |
| Evidence.ReportsTelescope | run.go:316-349 | over any run reported drops and errors add up to the values last read, and every audited entry, sample and detection is in exactly one report or in the current window |
| Evidence.FinalReportBalances | run.go:432-441 | with the final report the reports add up to all drops, errors, persisted entries, samples and detections |
| Evidence.ReportsAreConsistent | aggregator.go:168-247 | every report of a run has ordered percentiles and totals equal to its category sums |
| JsonlWriter.JSONLWriter.constructor | jsonlwriter.go:50-82 | the active file an earlier process left is resumed and its rotated files stay |
| JsonlWriter.JSONLWriter.EnforceRetention | jsonlwriter.go:183-212 | only the oldest files go, in order, and never so many that fewer than allowed remain |
| JsonlWriter.JSONLWriter.Rotate | jsonlwriter.go:149-181 | whatever fails, no written byte is lost or moved, and the handle survives exactly under the stated condition |
| JsonlWriter.JSONLWriter.WriteAll | jsonlwriter.go:104-121 | the entries reported written and at most a piece of the next are appended in order |
| JsonlWriter.JSONLWriter.Flush | jsonlwriter.go:91-129 | the reported entries are exactly what was added at the end of everything written before, all in one file; afterwards the file is no older than allowed and was begun anew unless the estimate fitted; no new one is begun when both limits hold |
| JsonlWriter.AverageBetween | jsonlwriter.go:123-126 | the running average moves half-way to that of the batch |
| JsonlWriter.JSONLWriter.SilentAfterLostHandle | jsonlwriter.go:157-174 | after a rotation that loses the handle no later flush writes anything |
| JsonlWriter.RenameLosesHandle | jsonlwriter.go:157-165 | a new writer whose first rename and reopening fail reports and writes nothing, even if all later calls work |
| Luhn.LuhnValid | redactor.go:214-239 | the loop accepts exactly 13 to 19 digits with a checksum divisible by ten |
| Luhn.ChecksumFromRight | redactor.go:225-238 | the last digit counts as it is, the one before it by the digits of its double, and so on to the left |
| Luhn.ValidExactly | redactor.go:214-239 | a number is valid exactly if it has 13 to 19 digits and that sum ends in zero |
| Luhn.SeparatorsIgnored | redactor.go:215-220 | non-digits change nothing, wherever they are |
| Luhn.SingleErrorDetected | redactor.go:225-238 | changing one digit of a valid number makes it invalid |
| Luhn.SwapDetected | redactor.go:225-238 | swapping adjacent digits of a valid number is detected exactly unless they are equal or 0 and 9 |
| Regex.StartIsClean | redactor.go:109-153 | no match of such an expression begins in the middle of a word |
| Regex.EndIsClean | redactor.go:109-153 | no match of such an expression ends in the middle of a word |
| Regex.SearchExists | redactor.go:175-184 | an expression without empty matches has a leftmost search on every text |
| Redactor.ReplaceAll | redactor.go:175-184 | the left-to-right copy equals the text with the accepted matches replaced, and reports whether there were any |
| Redactor.PassRewrites | redactor.go:175-184 | a pass turns exactly the matches its validator accepts into the marker, copies all else, and hits exactly if there is such a match |
| Cleanliness.SsnPattern | redactor.go:116-121 | the table's expression matches exactly NNN-NN-NNNN at word boundaries |
| Cleanliness.NoOverlap | redactor.go:116-121 | two occurrences never overlap |
| Cleanliness.AroundMarker | redactor.go:197-200 | no occurrence touches a marker |
| Cleanliness.StaysFree | redactor.go:171-184 | replacing at clean cuts by markers creates no occurrence |
| Cleanliness.BecomesFree | redactor.go:171-184 | replacing every occurrence leaves none |
| Patterns.EmailPattern | redactor.go:110-115 | the expression for mail addresses matches exactly a user part, an @, a host with a dot and at least two letters, between word edges |
| Patterns.CardPattern | redactor.go:122-136 | the expression for cards matches exactly 16 digits in fours that begin with 4000-4999, 5100-5599 or 2221-2720, or 15 in groups of 4, 6 and 5 that begin with 34 or 37, between word edges |
| Patterns.PhonePattern | redactor.go:137-144 | the expression for phone numbers matches exactly a three-digit area code not beginning with 0 or 1, three digits and four, with the separators, brackets and country code it allows |
| Patterns.Ipv4Pattern | redactor.go:145-152 | the expression for addresses matches exactly four groups of one to three digits with dots between, between word edges |
| Ipv4.ValidateIPv4 | redactor.go:242-261 | the loop accepts exactly four parts without leading zeros that are numbers up to 255 |
| Ipv4.Ipv4Exactly | redactor.go:242-261 | of digits and dots it accepts exactly four numbers up to 255 in their usual spelling with dots between |
| Ipv4.MatchExactly | redactor.go:145-152 | the same for whatever the table's expression matches |
| Redaction.TableIsTidy | redactor.go:108-154 | every pattern of the table cuts no word and leaves an inert marker |
| Redaction.SomeEngine | redactor.go:108-154 | an engine that searches for all the table's patterns exists, so what is proved of every such engine is not empty |
| Redaction.NoSsnLeft | redactor.go:171-192 | from the pass that searches for them on, no social security number is in the text, whatever later validators accept |
| Redaction.RunPasses | redactor.go:175-184 | the loop over the patterns computes the passes and the categories of those that replaced something |
| Redaction.MatchesReplaced | redactor.go:171-184 | every match for mail, social security and phone numbers becomes its marker, all else is copied, and the category is reported exactly if there was a match |
| Redaction.CardsReplaced | redactor.go:134-136 | a match for cards becomes its marker exactly if its checksum is right, and the category is reported exactly if there was one |
| Redaction.AddressesReplaced | redactor.go:145-152 | a match for addresses becomes its marker exactly if the address test accepts it, and the category is reported exactly if there was one |
| Redaction.SortedCategories | redactor.go:202-206 | the same categories in strictly ascending order |
| Redaction.Redact | redactor.go:171-192 | no social security number is left, categories are sorted and exact, and without any the text is unchanged |
| Extractor.ItoaInjective | extractor.go:163-163 | decimal numbers in paths tell apart |
| Extractor.ExtractContentParts | extractor.go:149-171 | exactly the non-empty text parts, filed under their position |
| Extractor.ExtractMessagesArray | extractor.go:200-213 | the fields of every message in order |
| Extractor.ExtractAnthropic | extractor.go:283-291 | the system prompt's fields, then the messages' |
| Extractor.ExtractOpenAI | extractor.go:219-224 | the messages' fields alone |
| Extractor.ExtractionIsInjective | extractor.go:149-315 | extracted paths are pairwise distinct and indices are 0..n-1 |
| Extractor.BodyFound | extractor.go:149-315 | a text is extracted under a path exactly if the body holds that non-empty text there, in the system prompt, a message or a text part |
| Extractor.BuildRedactedPayload | worker.go:173-187 | the map of paths to texts, later entries winning |
| Extractor.NoContentLost | worker.go:97-112 | every text the body holds has its own entry in the record, at its path and redacted, and every entry is such a text |
| Sse.SplitSSEChunks | extractor.go:125-140 | the payloads of the data lines |
| Sse.BlanksIgnored | extractor.go:132-132 | blanks around a payload are taken off, whatever the line ending |
| Sse.OtherLinesIgnored | extractor.go:127-130 | a line without the prefix is no payload |
| Sse.MarkersIgnored | extractor.go:133-135 | neither is an empty one, nor the end marker |
| Sse.FramesRoundTrip | extractor.go:125-140 | framing payloads of one line, without blanks at their ends and other than the end marker, and splitting again gives them back, with either line ending |
| Sse.ExtractOpenAIStream | extractor.go:230-277 | one field per index with the collected text, in ascending order |
| Sse.ExtractAnthropicStream | extractor.go:319-361 | the same for text deltas of content blocks |
| Sse.CollectedText | extractor.go:247-254 | each key holds exactly the concatenation of its deltas in order of arrival |
| Sse.NextEvent | extractor.go:323-342 | an event adds its text to its block exactly if it is a text delta with an index and a text |
| Sse.NextChoice | extractor.go:237-257 | a choice adds its text under its own index, or its position without one, exactly if it has a delta |
| Sse.OpenAICut | extractor.go:226-229 | cutting a chunk in two at one of its deltas, with explicit indices, leaves the fields unchanged |
| Sse.AnthropicCut | extractor.go:317-342 | cutting a text delta in two leaves the fields unchanged |
| Sse.StreamFieldsGood | extractor.go:260-276 | a stream has exactly one field for each key that text arrived for, with all of that text; paths are distinct and indices 0..n-1 |
| Sse.NoStreamContentLost | worker.go:97-112 | each choice or block that text arrived for has its own entry in the record, with all of its text redacted, and there are no other entries |

## Left out

- StepInv: assumes fewer than 2^32 blocks per request and a source that delivers no bytes after EOF or Close; `Segments`, `Outcomes`, `Wraparound` and `LateBytes` say what holds without them.
- Read: concurrent `Read` and `Close` on the same reader; one reader's calls are sequential, as the proxy makes them.
- Capture: nothing else runs during one call of a class; the interleaving of calls is the transition system's, whose steps the calls are made of.
- ProcessBlock: returns the block to the pool after the dispatch instead of just before it; the two commute, since neither looks at the other's state.
- SubmitResponse: removes the session before it emits instead of after, under the same lock.
- DropCounter: 64-bit counters, request ids and byte counts are unbounded integers; only block numbers and stream indices wrap.
- NeverRestarts: request ids are handed out by one counter and never reused.
- NothingLost: two payloads with the same request id and direction would make one record with both, where merging keeps one; ids are unique in the source.
- NoPanic: the response queue's senders, which recover from a closed channel, and the process's own time limits on the drain.
- ShutdownBound: each flush call returns, and the Go scheduler runs whoever can run.
- Pipeline: the assembler is abstract there; a block completes at most one payload, chosen freely.
- ComputePercentile: the percentile is an exact fraction and coverage an exact rational; floating-point rounding of either is not modelled.
- Flush: marshalling never fails and lines are given; permissions, directory creation and two rotations in the same nanosecond are not modelled.
- Redact: the regular-expression engine is a parameter restricted to leftmost non-overlapping search; the address test is a parameter, of which `Ipv4` holds the one the source uses; a chain with further redactors is not modelled.
- NoSsnLeft: no such claim is made for cards and addresses, because a rejected match consumes its text.
- ExtractOpenAI: JSON parsing is foreign; parsed bodies and chunks are the input.
- SplitSSEChunks: a stream is a sequence of characters; bytes that are not valid UTF-8 are not modelled.
- Hashes, timestamps of records and the constant fields of reports are not modelled.
- HTTP proxying, health and metrics endpoints, egress targets, flag parsing and API-type detection have no deep invariant.
