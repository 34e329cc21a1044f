# IOFlux, modelled in Dafny

IOFlux records storage traces, transforms them, and replays them against a backend. These modules
model its logic on decoded values and prove what its parts promise one another:

- **The trace as a contract.** `TraceContract` says what a well-formed trace is, and `TraceMeaning` says
  the same field by field and position by position. `Validator` reports no error exactly on those traces
  and `Findings` says what it names otherwise; `Preparation` says which of them a replay accepts, `Replay`,
  `ObjectWrite`, `PrepMeta`, `Extents` and `ExtentSources` what it then does with them, and `ReplayTheorems`,
  `TraceReplay` and `ObjectReplay` which replay without a failure. Every producer meets the contract: the
  strace importer (`StraceSpec`, `Strace`, `StraceTheorems`, `StraceImport`, `ImportReport`) with its descriptor table
  (`FDTable`), the importer's `Builder` (`Clamp`, `Merge`, `BuilderTheorems`), the checkpoint generator
  (`Checkpoint`, `CheckpointTheorems`, `CheckpointLayout`, `CheckpointReplay`), and the split-reads transformation
  (`SplitReads`, `SplitTheorems`, `SplitComposition`). `Pipeline` puts them together.
- **Reference models.** `Kernel` keeps descriptors as an operating system does, with requests and
  results; `KernelSimulation` shows that what the importer reconstructs from results alone agrees with
  it, and `KernelReplay` that such a recording replays without a failure. `Files` gives the meaning of
  positional reads and writes that `DirectIO`, `ObjectWrite` and `Payload` are compared with.
  `MedianInterval` counts the below/above patterns of a sample as sets.
- **Transition systems.** `Scheduler` is the replay of all streams under one semaphore, with the
  atomic counters and the compare-and-swap maximum as separate steps; `Coordinator` is the PREPARE,
  RUN and COLLECT protocol. Their theorems are about every interleaving. `Partition`, `Pacing` and
  `Rollover` cover stream assignment, think-mode timing, and time-of-day timestamps.

Code that updates fields or arrays in place is a class or a method with loops, tied by its
postconditions to specification functions; code made of expressions is functions. Timestamps, offsets
and lengths are unbounded integers.

## Where the code and its description differ

The model follows the code. Each difference has a lemma with a concrete input or an exact condition.

- Split-reads is described as leaving no request larger than a block. A short read whose result already
  fits keeps its larger request (`SplitTheorems.ShortReadKeepsItsRequest`); the exact condition is
  `SplitTheorems.RequestsAreBounded`. What each output read *moves* is always within the block.
- Sizes derived from transfers do not reproduce every recorded short read. An empty read recorded past
  the end of the file extends it (`Extents.StrayReadBreaksReproduction`); and sizes are derived by
  target id but kept by name, the last id winning, so a second id of the same file can shrink it
  (`Extents.SharedNameBreaksReproduction`). The exact condition is `Extents.PreparedSizeReproducesReads`;
  the files a strace recording only reads always meet it (`StraceImport.ImportedReadsAreReproduced`), and the checkpoint
  generator declares its sizes and repeats no name (`CheckpointReplay.ShardsArePreparedWhole`).
- A trace the validator accepts may still be refused by PREPARE: for a group other than the default one
  (`Preparation.GroupedTraceIsRefused`), a kind the engine lacks, or a write that cannot be coalesced.
  `Preparation.Prepare` states exactly which. What the importer, the generator and split-reads write is
  never refused by an engine with offset writes (`Pipeline.ImportSplitReplay`,
  `CheckpointReplay.GeneratedIsPreparable`).
- Neither the validator nor PREPARE compares a transfer with the mode its handle was opened in, but the
  local file engine does, save for an empty WRITE (`ReplayWitnesses.IdleWriteSucceeds`). The exact
  condition for a replay without failures is `TraceReplay.FilesReplayExactlyWhen`; every recording of a
  kernel's run meets it (`KernelReplay.RunsNeverFail`), and splitting keeps it
  (`Pipeline.SplitKeepsAccess`).
- PREPARE for an object engine accepts traces some of whose operations then fail: a READ through a
  write-only handle that became a PUT (`ReplayWitnesses.ReadBackFails`), an OPEN for writing that no CLOSE
  completes (`ReplayWitnesses.UnfinishedWriteFails`), an FSYNC through a handle opened for reading, an
  empty WRITE to a PUT that has all it was announced with, or a PUT announced with the wrong length. A
  failure is recorded and the stream goes on to its end (`Replay.ReplayStream`). The exact condition for
  there to be none is `ReplayTheorems.ReplaySucceedsExactlyWhen` for one stream and
  `ObjectReplay.ObjectReplayExactlyWhen` for a trace; every generated checkpoint meets it
  (`CheckpointReplay.GeneratedNeverFails`).
- The PUT sizes of object replay are kept by target, the last CLOSE winning (`ObjectWrite.LastCloseWins`),
  so a file of undeclared size written twice is announced with the wrong length whenever the two differ
  (`ObjectWrite.RewriteIsAnnouncedWrong`), and then its first WRITE or its first CLOSE fails
  (`ReplayWitnesses.TwiceWrittenFails`); all its completed PUTs are announced right exactly when all its
  writes are equally long (`ObjectWrite.AnnouncedRightExactlyWhen`).
- Materializing the files refuses the whole table when any target has no size (`PrepMeta.Materialize`), so
  a recording that only opens or asks about some file cannot be prepared that way
  (`StraceImport.ImportedIsMaterializedExactlyWhen`).
- The O_DIRECT read path calls some empty reads short that the buffered path does not
  (`DirectIO.EmptyReadDiffers`; `DirectIO.AlignedReadAt` states exactly which).
- An imported trace is described as starting at time zero. It does when some process makes its earliest call
  first; where a clock goes back after the first call, the clamp moves the whole start up
  (`BuilderTheorems.LateStart`; the exact condition is `BuilderTheorems.StartsAtZeroExactlyWhen`).
- An appending write is skipped because its offset is unknown, but the cursor it moves is kept, so a
  sequential read after it is recorded at a stale offset (`KernelSimulation.AppendLosesTheCursor`). Every
  other transfer is recorded where the kernel made it (`KernelSimulation.OffsetsAreTheKernels`).
- Splitting by one block and then another equals splitting by the second only when the second divides
  the first (`SplitComposition.CompositionLaw`).

## Model

| member | source | states |
|---|---|---|
| Pipeline.ImportSplitReplay | pkg/importer/strace/parse.go:46-72 | Import, split and replay compose: where the calls that succeeded name their files, the import always succeeds, every one of any number of workers prepares the split of what was imported, every output operation is dispatched, the bytes moved are those recorded, no output read moves more than a block, and nothing fails exactly when the recorded transfers respect the access their descriptors were opened for |
| Pipeline.SplitKeepsAccess | pkg/transform/splitreads.go:77-88 | Splitting neither adds nor removes a transfer beyond the access its handle was opened for |
| Pipeline.ReplayAll | pkg/cluster/coordinator.go:80-171 | Whatever the number of workers, either each prepares the trace or none does, exactly as PREPARE decides for the trace; then each operation is dispatched exactly once, the operations that fail are those of the streams taken alone, and there are none exactly when no stream fails |
| Pipeline.SharesAreEverything | pkg/cluster/coordinator.go:328-335 | Whatever is counted stream by stream, such as operations or failures, all workers' shares add up to the whole |
| Validator.ValidateWithOps | pkg/trace/validate.go:65-194 | The one-pass loop reports no error exactly on well-formed traces (header, shapes, time order, ids, handles, summary agreement), and otherwise its first finding points at the first record at fault; on every trace it counts operations, streams and the partial reads of known kinds and lists the handles its table holds unclosed; on accepted ones these are the partial reads and the handles never closed |
| Findings.HeaderIssuesNameFields | pkg/trace/validate.go:320-409 | A header finding names a field exactly when that field breaks a rule of the format, stated field by field |
| Findings.OpIssuesNameFields | pkg/trace/validate.go:113-176 | For every operation a finding names a field exactly when that field by itself breaks a rule: target, handle and its use, offset, length, mode, flags, ret, duration, kind |
| Findings.SummaryIssuesNameFields | pkg/trace/validate.go:206-228 | A closing finding names exactly the counts of the header that disagree with what was read |
| TraceMeaning.HeaderByField | pkg/trace/validate.go:320-409 | Well-formed headers, field by field: versions 1 to 3, nanoseconds, and the capture methods each kind of trace may name |
| TraceMeaning.ShapeByField | pkg/trace/validate.go:113-176 | The per-kind checks of an operation amount to one rule for each field: which kinds carry a target, a handle, an offset, a length, a mode, flags or a ret |
| TraceMeaning.IdsByGroup | pkg/trace/validate.go:263-288 | The rule for ids, group by group: none missing, negative or used twice, and ascending among the operations of one stream and group, no group being group 0 |
| TraceMeaning.HandlesByStream | pkg/trace/validate.go:430-453 | Handle soundness of a trace in terms of positions: every use of a handle lies after its one OPEN in the same stream with no CLOSE in between, and no two streams open one handle |
| TraceMeaning.BytesAreCarried | pkg/trace/types.go:318-336 | The byte total is the sum over READ, WRITE, GET and PUT of what each moved, ret where there is one, and never more than was asked for |
| TraceMeaning.PartialsAreCounted | pkg/trace/types.go:314-316 | The partial count is the number of operations that carry a ret |
| TraceMeaning.VersionIsNeeded | pkg/trace/types.go:292-312 | The version operations need is 2 when some transfer was partial and 1 otherwise |
| Validator.HeaderIssues | pkg/trace/validate.go:320-409 | No header finding exactly when version, kind, time unit, capture fields, target table and summary signs obey the format |
| Validator.IdIssuesMeaning | pkg/trace/validate.go:263-288 | The seen-id and last-id tables yield no finding exactly when the id is new and greater than every earlier id of its stream and group |
| Validator.OpIssuesMeaning | pkg/trace/validate.go:113-176 | No finding for an operation exactly when its fields fit its kind and its handle is one its own stream holds, or for OPEN one no stream ever used |
| Validator.HandleTableStep | pkg/trace/validate.go:251-256 | The handle table keeps, for every handle any stream opened, which stream opened it and whether it was closed |
| Validator.NeverClosedMeaning | pkg/trace/validate.go:183-189 | The handles left over are those some stream opened and did not close |
| TraceContract.HandlesOkOnStream | pkg/trace/validate.go:430-453 | Handle soundness of a trace carries over to each stream taken alone with its own handle map |
| TraceContract.HandlesOkFromStreams | pkg/trace/validate.go:430-453 | Conversely, streams that are sound alone and share no handle make a sound trace however they are interleaved |
| TraceContract.RenumberKeepsHandles | pkg/trace/validate.go:263-288 | Renumbering by file position keeps handle soundness |
| Replay.GroupByStream | pkg/replay/executor.go:152-165 | The filter keeps exactly the assigned streams the trace has, each whole and in trace order |
| Replay.ReplayStream | pkg/replay/scheduler.go:162-275 | Every operation of a sound stream is dispatched, whatever failed before it; the positions that fail are exactly those that the way their handle was opened and the bytes fed to it condemn; the handles left are those whose OPEN was not refused and that are live or whose PUT was cut short, each under the name of the target its OPEN gave |
| Replay.DispatchSucceeds | pkg/replay/scheduler.go:582-699 | One well-formed operation never lacks a field or a target; it fails exactly when its OPEN was refused, as a READ of a handle coalesced into a PUT or not opened for reading, as a WRITE that brings something to a file not opened for writing, as a WRITE past what a PUT was announced with or an empty one once that is there, as a CLOSE of a PUT that got less, or as a WRITE or FSYNC through a handle of an object engine |
| Replay.DispatchKeepsMap | pkg/replay/scheduler.go:593-660 | Whether the operation succeeds or fails, the per-stream handle map holds exactly the handles whose OPEN succeeded and that are open or failed to close, a coalesced one with the size its PUT was announced with and the bytes it took |
| Replay.FilesHoldLiveHandles | pkg/replay/scheduler.go:593-611 | Against an engine with offset writes no OPEN is refused, so the handles held are the live ones |
| Preparation.Prepare | pkg/replay/executor.go:88-194 | PREPARE accepts exactly the traces the validator accepts, with every operation in the default group and within the engine's capabilities, whose writes an object engine can coalesce, and which record some duration when think mode needs one; it keeps the assigned streams whole, the derived extents and the PUT sizes, none of them negative |
| Preparation.GroupedTraceIsRefused | pkg/replay/executor.go:144-146 | Concrete trace the validator accepts and no PREPARE does, its one operation being in group 1 |
| Preparation.AdmittedKinds | pkg/replay/executor.go:300-333 | A file engine is admitted exactly the file operations of the default group, an object engine every kind |
| ReplayTheorems.BindingIsOpeners | pkg/replay/scheduler.go:593-611 | What an operation finds under its handle is decided by the one OPEN of its stream that names it |
| ReplayTheorems.ReplaySucceedsExactlyWhen | pkg/replay/scheduler.go:593-660 | On either kind of engine a stream replays without a failure exactly when each OPEN is one the engine makes or a write a size was kept for, READs use handles that read, WRITEs that bring something handles that write or feed a PUT, FSYNCs no handle of an object engine, and every PUT gets from its handle all it was announced with if that is closed, no more in any case, and no empty WRITE once it has all |
| TraceReplay.FilesReplayExactlyWhen | pkg/engine/localfile/localfile.go:342-453 | With offset writes a trace replays without a failure exactly when every READ goes through a handle opened for reading, or for writing through O_DIRECT, and every WRITE that brings something through one opened for writing |
| ObjectReplay.ObjectReplayExactlyWhen | pkg/replay/objectwrite.go:85-135 | An object engine replays an eligible trace without a failure exactly when every OPEN reads, or writes a target a size was kept for, only what was opened for it is read, written or synced, all completed writes of a target are equally long, none left open is longer than the size kept for its target, and no empty WRITE comes when all of that is there |
| ObjectReplay.EligibleByOpeners | pkg/replay/objectwrite.go:11-98 | Eligibility in terms of the trace alone: every WRITE is through a handle its OPEN made write-only and starts where the earlier WRITEs of that handle ended, and at its CLOSE they add up to the declared size if there is one |
| ReplayWitnesses.ReadBackFails | pkg/replay/scheduler.go:613-619 | Concrete trace PREPARE accepts for an object engine in which a READ through a coalesced write fails and the CLOSE after it is still dispatched |
| ReplayWitnesses.UnfinishedWriteFails | pkg/engine/s3/s3.go:205-208 | Concrete trace PREPARE accepts for an object engine whose OPEN for writing is never completed by a CLOSE: the engine refuses the OPEN, and the WRITE finds no handle |
| ReplayWitnesses.IdleWriteSucceeds | pkg/engine/localfile/localfile.go:435-443 | Concrete accepted trace with an empty WRITE through a handle opened for reading, which the file engine performs on either path |
| ReplayWitnesses.TwiceWrittenFails | pkg/engine/s3/s3.go:263-270 | For all lengths m and n, the accepted trace that writes a file of undeclared size with m bytes and then n: if m is less the first CLOSE fails, if it is more the first WRITE, if n is zero both WRITEs, and if both are equal and not zero nothing |
| Scheduler.EveryRunKeepsInv | pkg/replay/scheduler.go:116-281 | Every interleaving, with cancellation at any point, keeps counters equal to the standing of the processes and the recorded depth at the peak or about to be raised to it |
| Scheduler.InflightIsCapped | pkg/replay/scheduler.go:198-231 | Whatever the caller asks for, operations in flight never exceed the tokens held, and these never the caller's limit, or 512 when that is not positive; a stream has one operation in flight or none, and its peak is one as soon as it dispatched |
| Scheduler.TokensAreGrantedUpToTheLimit | pkg/replay/scheduler.go:198-211 | A stream that wants a token gets one while fewer than the limit are held; when all are, the first send makes it wait and the waiting send has no step |
| Scheduler.BacklogIsCounted | pkg/replay/scheduler.go:198-211 | Backlog events are exactly the grants to streams that had to wait |
| Scheduler.CancelledStreamsStop | pkg/replay/scheduler.go:167-211 | After a cancellation a stream dispatches at most the one operation it was already on its way to |
| Scheduler.CancelEndsWaits | pkg/replay/scheduler.go:185-211 | A stream waiting for its time or for a token can leave exactly when the run was cancelled, and takes no token with it |
| Scheduler.StreamsDispatchInOrder | pkg/replay/scheduler.go:167-170 | A stream has always dispatched a prefix of its operations in order, and all of them when it ended without cancellation |
| Scheduler.PeakIsMeasured | pkg/replay/scheduler.go:213-223 | The peak kept as history is the maximum of the in-flight counter over all states of the run |
| Scheduler.EndsClean | pkg/replay/scheduler.go:213-275 | When all streams have ended no token is leaked, nothing is in flight, and the compare-and-swap loop left the depth at the true peak |
| Scheduler.NoDeadlock | pkg/replay/scheduler.go:198-211 | Until all streams have ended some stream has an enabled step |
| Scheduler.StepDecreasesMeasure | pkg/replay/scheduler.go:213-223 | Every step, failed swaps included, brings the run closer to its end |
| Scheduler.StepsAreBounded | pkg/replay/scheduler.go:167-275 | No schedule, fair or not, runs for more steps than a bound fixed at the start |
| Pacing.PaceThink | pkg/replay/scheduler.go:162-240 | The think-mode loop starts operation i at the first arrival plus earlier service times, recorded gaps and holding times, and reports exactly the holding time as drift |
| Pacing.StartIsSumOfTurns | pkg/replay/scheduler.go:96-114 | Start times in closed form: only recorded gaps and actual service and holding times count after the first arrival |
| Pacing.BackendShiftsByItsExtraTime | pkg/replay/scheduler.go:100-104 | Another backend shifts operation i by exactly the extra service time before it and the extra holding time up to it |
| Pacing.RecordedServiceReproducesTimestamps | pkg/replay/scheduler.go:105-114 | A backend that takes the recorded durations reproduces every timestamp exactly when the recorded operations come one after another from time zero on, directly so after one without a recorded duration |
| PrepMeta.Metadata.Update | pkg/replay/executor.go:196-237 | One observed operation changes the extents and the handle table as the specification function says |
| PrepMeta.Metadata.UpdateAll | pkg/replay/executor.go:196-237 | The callback over a whole trace computes the specified extents |
| PrepMeta.ComputeRequiredSizes | pkg/prepare/prepare.go:188-202 | The loop over the targets computes the specified sizes, kept by name |
| PrepMeta.LastProviderWins | pkg/prepare/prepare.go:188-202 | A file gets a size exactly when some target of its name declares or derives one, and it is the last such target's |
| PrepMeta.Materialize | pkg/prepare/prepare.go:148-173 | The loop over the targets succeeds exactly when every one has a size, stops at the first that has none, and leaves every file it wrote, and no other, at the size kept for its name |
| Extents.ExtentIsFurthestEnd | pkg/replay/executor.go:205-236 | A derived extent is the furthest end any transfer of that target reached, and is reached by one |
| ExtentSources.ExtentOfTransfers | pkg/replay/executor.go:196-237 | On a trace the validator accepts, in terms of its operations alone: the extent of a target is the furthest end of a READ or WRITE through a handle some OPEN gave that target, or of a GET or PUT naming it, and zero when there is none |
| ExtentSources.TableIsLive | pkg/replay/executor.go:196-237 | The handle table behind the extents holds exactly the handles opened and not closed since |
| Extents.ReproducedMeaning | pkg/replay/scheduler.go:704-728 | checkedReadTransfer reports the recorded count with no short read and no error exactly when the file offers the recorded count |
| Extents.CheckedMeaning | pkg/replay/scheduler.go:704-749 | What a read is reported as: short when its count is not the recorded one or impossible, with the bytes clamped to the request, and with a short-read error exactly when the count is possible and differs |
| Extents.LengthReproducesExactlyWhen | pkg/replay/scheduler.go:704-728 | A file of a given length reproduces every read of it exactly when the bytes each read moved are within it and it ends no later than where any read stopped short |
| Extents.PreparedSizeReproducesReads | pkg/prepare/prepare.go:188-202 | A file nothing writes and no target of which declares a size is given one exactly when some read of it ended past zero; with it every read, through any target of that name, is reproduced exactly when the last target read past zero reached furthest and none of its empty reads lies past where a short read of the file stopped |
| Extents.DistinctNamesReproduceReads | pkg/prepare/prepare.go:188-202 | Where no two targets share a name, such a file's reads are reproduced exactly when no empty read of it lies past where a short one stopped |
| Extents.DeclaredSizeReproducesReads | pkg/prepare/prepare.go:188-202 | When every target of a file declares the length its reads were recorded from, that is its size and every read is reproduced |
| Extents.StrayReadBreaksReproduction | pkg/replay/executor.go:205-236 | Concrete accepted recording of a 50-byte file that an empty read past its end gets prepared at 100 bytes, so that a recorded short read comes back full |
| Extents.SharedNameBreaksReproduction | pkg/prepare/prepare.go:188-202 | Concrete accepted recording of a 50-byte file under two ids, without empty reads, that gets prepared at the 20 bytes the second id needs |
| Extents.LengthNeverChanges | pkg/replay/executor.go:196-237 | In every interleaving of the replay the length of a file that no target of its name writes stays the materialized one |
| SplitReads.SplitOne | pkg/transform/splitreads.go:53-92 | One operation becomes the specified pieces, or the no-offset error |
| SplitReads.Run | pkg/transform/splitreads.go:29-50 | The in-place loops compute the specified output or refuse a block that is not positive |
| SplitReads.PiecesTile | pkg/transform/splitreads.go:73-90 | The pieces of a large read tile exactly the extent it moved, in order, each one block long but the last, which takes the rest |
| SplitReads.PiecesDerived | pkg/transform/splitreads.go:77-88 | A read is cut in several exactly when it moved more than a block; a piece keeps stream, time, target, handle and everything else of its source but offset and length, and has neither ret nor duration; what is not cut stays whole |
| SplitReads.RecomputeSummary | pkg/transform/splitreads.go:127-145 | The loop recomputes operations, streams, bytes and partial reads of the output and leaves duration and groups |
| SplitReads.FlattenHandles | pkg/transform/splitreads.go:53-92 | Splitting keeps handle soundness |
| SplitTheorems.SplitIsClean | pkg/transform/splitreads.go:29-113 | On every trace the validator accepts the split succeeds and its output under the new header is accepted again; that header counts exactly the output, its byte total is the output's and so the source's where the source header agreed, duration, groups, kind and targets are the source's, and the source's transformations are followed by this block and digest |
| SplitTheorems.SplitMovesTheSameBytes | pkg/transform/splitreads.go:16-28 | Total bytes are unchanged and no output READ or GET moves more than a block |
| SplitTheorems.SplitKeepsExtents | pkg/transform/splitreads.go:53-92 | The extents derived for every target are the same before and after |
| SplitTheorems.RequestsAreBounded | pkg/transform/splitreads.go:66-71 | No output read requests more than a block exactly when no source read asked for more and received no more |
| SplitTheorems.ShortReadKeepsItsRequest | pkg/transform/splitreads.go:16-18 | Concrete accepted trace, OPEN and one READ, for which the documented bound on requests fails |
| SplitComposition.SplitTwice | pkg/transform/splitreads.go:29-92 | Splitting by b1 and then by b2 dividing b1 equals splitting by b2, ids and cleared fields included |
| SplitComposition.SplitIsIdempotent | pkg/transform/splitreads.go:29-92 | Splitting twice by one block equals splitting once |
| SplitComposition.CompositionLaw | pkg/transform/splitreads.go:73-77 | The composition law holds for exactly the pairs where b2 divides b1 |
| Clamp.PrefixMaxIsLeast | pkg/importer/build.go:170-184 | The clamp yields the least non-decreasing sequence at or above its input |
| Clamp.NumRaisedCountsChanges | pkg/importer/build.go:176-181 | The clamp count is the number of timestamps it changed |
| Builder.Builder.Target | pkg/importer/build.go:82-92 | A repeated name keeps its id and kind; a new one gets the next id; the table stays interned |
| Builder.Builder.Add | pkg/importer/build.go:94-102 | The operation is appended to its own stream and no other |
| Builder.Builder.MinTimestamp | pkg/importer/build.go:283-296 | A timestamp of some operation in the listed streams that none of theirs is before, and none when there are no operations |
| Builder.ClampStream | pkg/importer/build.go:170-184 | One stream rebased and clamped in place, with the number of raised timestamps |
| Builder.Builder.RebaseAndClamp | pkg/importer/build.go:163-184 | Every stream rebased and clamped in place, with the total count |
| Builder.Assemble | pkg/importer/build.go:203-262 | Numbering, byte total, partial count, duration and version of the merged operations |
| Builder.Builder.WriteTo | pkg/importer/build.go:156-279 | Writes the assembled trace exactly when it is well formed, and nothing otherwise |
| Merge.SortKeeps | pkg/importer/build.go:186-201 | Sorting is a permutation of the added operations |
| Merge.SortSorts | pkg/importer/build.go:191-201 | The sorted operations are ordered by time, stream and position |
| Merge.SortedArrangementIsUnique | pkg/importer/build.go:191-201 | A list without ties has only one sorted arrangement |
| Merge.AnySortGivesTheMerge | pkg/importer/build.go:191-201 | What is merged has no ties, so every sorted arrangement of it, whatever routine made it, is the merge |
| Merge.MergedKeepsStream | pkg/importer/build.go:186-201 | The merge restricted to a stream is that stream in its own order |
| Merge.MergedIsClean | pkg/importer/build.go:186-262 | Merging sound streams that share no handle and numbering the result gives a well-formed trace |
| SortedIds.SortIdsLists | pkg/importer/build.go:157-161 | The sorted id list has every id once, ascending |
| BuilderTheorems.TimedIsLeastCorrection | pkg/importer/build.go:163-184 | A written stream differs from the added one only in timestamps, which are the least correction, and the clamp count is the number changed |
| BuilderTheorems.WritesEveryStream | pkg/importer/build.go:186-201 | The written trace is in time order and its restriction to each stream is the added operations in Add order, clamped |
| BuilderTheorems.StartsAtZero | pkg/importer/build.go:163-169 | No written operation is before time zero |
| BuilderTheorems.OriginIsEarliest | pkg/importer/build.go:283-296 | The origin all times are counted from is the timestamp of some added operation, and no added operation is before it |
| BuilderTheorems.StartsAtZeroExactlyWhen | pkg/importer/build.go:163-184 | The first written operation is the least first timestamp of a stream, counted from the origin, and no later one is before it; it is at time zero exactly when some stream begins at the origin |
| BuilderTheorems.LateStart | pkg/importer/build.go:163-166 | Concrete recording of one process whose clock goes back after its first call: the written trace is accepted and starts at 2 |
| BuilderTheorems.HeaderTellsTheTrace | pkg/importer/build.go:203-262 | The written header has the given kind, capture fields and targets, counts the operations, the streams and the operations that carry a ret, sums the bytes of the added streams, ends with the latest timestamp, and has version 2 exactly when some transfer was partial |
| BuilderTheorems.WriteToSucceedsExactlyWhen | pkg/importer/build.go:264-275 | Self-validation can only fail for a nameless target or an operation of the wrong shape; order, ids, handles, summary and version never fail |
| FDTable.FDTable.Open | pkg/importer/fdtable.go:39-51 | A fresh handle id, cursor zero, and the entry replaced for that descriptor only |
| FDTable.FDTable.OpenDir | pkg/importer/fdtable.go:54-57 | An entry without a handle, used to resolve paths |
| FDTable.FDTable.Resolve | pkg/importer/fdtable.go:59-63 | The entry the table holds |
| FDTable.FDTable.Advance | pkg/importer/fdtable.go:76-80 | Moves one cursor through the shared entry and changes no other |
| FDTable.FDTable.SetCursor | pkg/importer/fdtable.go:84-88 | Sets one cursor through the shared entry and changes no other |
| FDTable.FDTable.Close | pkg/importer/fdtable.go:93-104 | Removes the entry and returns its handle if it had one |
| Strace.ParseOpenFlags | pkg/importer/strace/parse.go:737-776 | The loop over the tokens finds the last access mode named, the flags, the directory and the append bit of the specification function |
| StraceTheorems.FlagsMeaning | pkg/importer/strace/parse.go:751-768 | Each of direct, create, trunc, append and sync is recorded, once, exactly when its token is there, and nothing else is |
| StraceTheorems.LastModeCounts | pkg/importer/strace/parse.go:737-750 | The access mode is the one named last, and reading when none is named |
| Strace.Parser.DoOpen | pkg/importer/strace/parse.go:247-300 | Opens track the descriptor and emit one OPEN, directories are only tracked, failures and unresolved directories are counted |
| Strace.Parser.DoCreat | pkg/importer/strace/parse.go:302-323 | creat opens for writing with create and trunc |
| Strace.Parser.DoRW | pkg/importer/strace/parse.go:325-366 | Untracked, failed, empty and append transfers are skipped for the reason given |
| Strace.Parser.Transfer | pkg/importer/strace/parse.go:354-398 | Offset from the cursor or the argument, requested length, and a recorded result only for a short read |
| Strace.Parser.DoClose | pkg/importer/strace/parse.go:400-419 | A successful close forgets the descriptor and emits CLOSE for its handle; a failed one changes nothing |
| Strace.Parser.DoFsync | pkg/importer/strace/parse.go:421-441 | FSYNC on the tracked handle or a counted skip |
| Strace.Parser.DoLseek | pkg/importer/strace/parse.go:443-456 | A successful seek sets the cursor to its result |
| Strace.Parser.DoStatPath | pkg/importer/strace/parse.go:458-507 | STAT of the resolved path, with the empty-path form naming the descriptor's file |
| Strace.Parser.DoFstat | pkg/importer/strace/parse.go:509-525 | STAT of the file a descriptor names |
| Strace.Parser.ResolveAt | pkg/importer/strace/parse.go:550-569 | Absolute and current-directory paths unchanged, others joined to the directory on record or shown |
| Strace.Parser.FdTarget | pkg/importer/strace/parse.go:531-543 | The path on record, else the shown one |
| StraceTheorems.DecorationStandsIn | pkg/importer/strace/parse.go:531-569 | For a descriptor not on record, paths and targets come out as if one were on record under the shown name; with nothing shown only absolute paths resolve |
| StraceTheorems.SlashesTrimmed | pkg/importer/strace/parse.go:550-569 | A directory is joined without its trailing slashes, and nothing but slashes is lost |
| Strace.Parser.Stream | pkg/importer/strace/parse.go:571-580 | A process keeps its stream; a new one gets the next number |
| StraceTheorems.StreamsByFirstAppearance | pkg/importer/strace/parse.go:571-580 | Over every sequence of calls there is one stream for each process, and its number is how many processes appeared before it |
| Strace.Parser.Handle | pkg/importer/strace/parse.go:181-216 | One call moves the parser's whole state as the specification function says |
| Strace.Import | pkg/importer/strace/parse.go:46-72 | The trace is written exactly when well formed, and always when the calls that succeeded name their files and positions are not negative |
| StraceTheorems.EveryRunKeepsInv | pkg/importer/strace/parse.go:181-456 | Every sequence of calls keeps: descriptors hold live handles of their own stream, handles are issued once, targets are interned, and a recorded ret is positive and below len |
| StraceImport.ImportIsCleanExactlyWhen | pkg/importer/build.go:264-275 | For every sequence of calls the assembled trace is accepted exactly when no target is nameless and no recorded offset is negative |
| StraceImport.ImportAlwaysValidates | pkg/importer/build.go:156-279 | Calls that, where they succeeded, name their files and give non-negative positions always import into an accepted trace |
| StraceImport.ImportedIsAdmitted | pkg/importer/strace/parse.go:181-216 | PREPARE for an engine with offset writes admits every operation of every imported trace: the default group and file operations only |
| StraceImport.ImportedTargets | pkg/importer/build.go:82-92 | In every imported trace each file has one target, of undeclared size |
| StraceImport.ImportedReadsAreReproduced | pkg/importer/strace/parse.go:342-349 | Reads at end of file being dropped, a file that is only read is given a size exactly when a read of it was recorded, and then one that reproduces every imported read |
| StraceImport.ImportedIsMaterializedExactlyWhen | pkg/prepare/prepare.go:155-167 | The table of an imported trace can be materialized exactly when every file of it was read or written, and not only opened or asked about |
| KernelSimulation.OffsetsAreTheKernels | pkg/importer/strace/parse.go:325-456 | For every run a kernel can produce over open, creat, read, write, pread, pwrite, lseek, fsync, close, stat and fstat, with descriptor reuse, append mode and failures, a stream records exactly which open description each call used, what the open created, truncated, appended, bypassed or synced, with which access mode, at which time and for how long, how much was asked for and moved, and at which offset, or which file it asked about; only sequential reads after an appending write may have another offset |
| KernelSimulation.AppendLosesTheCursor | pkg/importer/strace/parse.go:342-349 | Concrete run in which a sequential read after an appending write is recorded at offset 0 and not where the kernel made it, at 104 |
| ImportReport.ReportCountsTheRun | pkg/importer/strace/parse.go:247-525 | For every run of the kernel and every reason, the importer's report counts exactly the calls lost for it: failed opens, failed calls, reads at end of file, untracked descriptors, appending writes; and no recorded call is reported as approximate |
| ImportReport.GarbledIsSkipped | pkg/importer/strace/parse.go:247-525 | Of a call an argument of which is missing or does not parse nothing is recorded and no cursor or descriptor moves; if it succeeded it is counted as unparsed |
| ImportReport.UnresolvedIsSkipped | pkg/importer/strace/parse.go:458-569 | A path or file named through a descriptor of which nothing is known is counted as unresolved, and nothing else changes |
| ImportReport.UnknownRequestIsReported | pkg/importer/strace/parse.go:360-381 | A read whose requested count does not parse is recorded as a full read of what it got, and noted as a capture loss |
| KernelSimulation.StepSimulates | pkg/importer/strace/parse.go:181-216 | Each call keeps the importer's table equal to the kernel's: path, cursor and open description |
| KernelSimulation.TransferSimulates | pkg/importer/strace/parse.go:325-398 | A transfer at a position or at the cursor, short or empty, is recorded where the kernel made it |
| KernelSimulation.StatPathAgrees | pkg/importer/strace/parse.go:458-569 | A stat names the file the kernel would examine: the path, the path under a held directory, or the descriptor's own file |
| KernelSimulation.PathAgrees | pkg/importer/strace/parse.go:550-569 | A path relative to a directory the process holds always resolves, to the kernel's path |
| KernelSimulation.StreamsWithinModes | pkg/importer/strace/parse.go:737-776 | What any stream records of a kernel's run stays within the access mode its file was opened with |
| KernelReplay.RunsNeverFail | pkg/importer/strace/parse.go:247-398 | Every run a kernel can produce is imported into a trace none of whose operations fails in a replay with offset writes |
| Rollover.Clock.ApplyRollover | pkg/importer/strace/parse.go:674-683 | One time of day moves the clock state as specified |
| Rollover.Clock.ApplyAll | pkg/importer/strace/parse.go:640-683 | Over the lines of a file the clock gives back the true times from the first midnight on exactly when no step of theirs is one the rule confuses |
| Rollover.RolloverReconstructsExactlyWhen | pkg/importer/strace/parse.go:670-683 | Times of day give back all true times, from the first midnight on, exactly when each step stays within its day and goes back at most half a day, or enters the next day in under half a day |
| Rollover.ForwardClockIsReconstructed | pkg/importer/strace/parse.go:670-683 | Every forward clock with gaps under twelve hours is reconstructed across any number of midnights |
| ObjectWrite.Eligibility.Update | pkg/replay/objectwrite.go:41-98 | One observed operation is accepted or refused, and tracked, as specified |
| ObjectWrite.Eligibility.UpdateAll | pkg/replay/objectwrite.go:41-98 | The pass over a trace accepts what the specification accepts and stops at the first refusal |
| ObjectWrite.EligibleExactlyWhen | pkg/replay/objectwrite.go:11-20 | A clean trace is eligible exactly when every WRITE continues a write-only stream where it left off and every such stream closes at its declared size |
| ObjectWrite.CoalescingPreservesBytes | pkg/replay/objectwrite.go:54-96 | Streaming a handle's writes into one PUT stores the bytes that offset writes into an empty file would, and for a declared size the PUT is announced with exactly that many |
| ObjectWrite.LastCloseWins | pkg/replay/objectwrite.go:85-96 | A size is kept for exactly the listed targets some write of which was closed, and it is the streamed length of the last write of the target to close |
| ObjectWrite.AnnouncedRightExactlyWhen | pkg/replay/objectwrite.go:95 | Every completed PUT of a target is announced with its true length exactly when all closed writes of the target are equally long |
| ObjectWrite.RewriteIsAnnouncedWrong | pkg/replay/objectwrite.go:95 | For any two different lengths, an accepted and eligible trace that writes a file of undeclared size with the one and then the other: the first PUT is announced with the second length |
| Checkpoint.BuildTargets | pkg/gen/checkpoint/generate.go:196-215 | One shard per checkpoint and rank, in order, the last rank taking the remainder |
| Checkpoint.EmitShard | pkg/gen/checkpoint/generate.go:107-149 | The loop appends the specified operations of one shard and counts its bytes |
| Checkpoint.Generate | pkg/gen/checkpoint/generate.go:76-191 | Refuses exactly the bad parameters, and otherwise emits the specified header and merged trace |
| Checkpoint.ShardsHoldTheModel | pkg/gen/checkpoint/generate.go:193-202 | The shards of one checkpoint add up to the model size |
| CheckpointTheorems.GeneratedIsClean | pkg/gen/checkpoint/generate.go:76-191 | Every accepted parameter set gives a trace the validator accepts |
| CheckpointLayout.EveryOpInLayout | pkg/gen/checkpoint/generate.go:107-149 | Every generated operation belongs to a checkpoint and a rank and has that rank's stream, that checkpoint's time, and that shard's handle; an OPEN creates and truncates the shard's target for writing; a WRITE is a full block from a multiple of the block on, or what is left of the shard |
| CheckpointLayout.TableLayout | pkg/gen/checkpoint/generate.go:193-215 | The target table row by row: checkpoint c's rank r at c times the ranks plus r, sized an equal share, the last rank with the remainder |
| CheckpointLayout.ShardNameReads | pkg/gen/checkpoint/generate.go:204-208 | A shard's name reads back as its checkpoint and rank, in at least four digits each without further padding |
| CheckpointLayout.GeneratedDuration | pkg/gen/checkpoint/generate.go:151-191 | The declared duration is the number of intervals between the first checkpoint and the last |
| CheckpointLayout.SyncedByPolicy | pkg/gen/checkpoint/generate.go:132-137 | Every shard's file is synced once, only those of the last checkpoint are, or none is, by policy |
| CheckpointLayout.NothingWrittenAfterSync | pkg/gen/checkpoint/generate.go:119-142 | No WRITE of a file comes after its FSYNC |
| CheckpointTheorems.GeneratedIsEligible | pkg/gen/checkpoint/generate.go:76-191 | Every generated trace is eligible for object-store replay |
| CheckpointTheorems.EveryShardIsComplete | pkg/gen/checkpoint/generate.go:120-137 | Every shard's WRITEs bring exactly its size to its target through one handle, and its file is closed |
| CheckpointTheorems.EveryWriteContinues | pkg/gen/checkpoint/generate.go:120-131 | Every WRITE of a generated trace starts where the earlier ones of its shard ended, and before their file is closed |
| CheckpointTheorems.GeneratedBytes | pkg/gen/checkpoint/generate.go:83-137 | The bytes the WRITEs move are the declared total, the model size times the number of checkpoints |
| CheckpointTheorems.MergedIsRank | pkg/gen/checkpoint/generate.go:226-257 | The merge keeps each rank's operations in order |
| CheckpointReplay.GeneratedIsPreparable | pkg/gen/checkpoint/generate.go:76-191 | PREPARE accepts every generated trace, for an engine with offset writes and for an object engine |
| CheckpointReplay.GeneratedNeverFails | pkg/gen/checkpoint/generate.go:107-149 | No operation of a generated trace fails in a replay, with offset writes or against an object engine |
| CheckpointReplay.GeneratedNamesDiffer | pkg/gen/checkpoint/generate.go:196-215 | No two shards of any checkpoints and ranks share a file name |
| CheckpointReplay.ShardsArePreparedWhole | pkg/gen/checkpoint/generate.go:196-215 | Whatever extents were derived, preparation gives every shard's file exactly the shard's size |
| Partition.ParseTraceStreams | pkg/cluster/coordinator.go:340-363 | The distinct stream ids, ascending |
| Partition.PartitionStreams | pkg/cluster/coordinator.go:328-335 | Each worker gets the specified share |
| Partition.DealtInTurn | pkg/cluster/coordinator.go:326-335 | The k-th stream of worker w is the one at position w plus k times the number of workers, and its share ends where the ids do |
| Partition.EveryOpExactlyOnce | pkg/cluster/coordinator.go:326-335 | Every operation belongs to the streams of exactly one worker, and no worker is given a stream the trace lacks |
| Partition.SharesAreEven | pkg/cluster/coordinator.go:326-335 | The size of each share, so that no two differ by more than one stream |
| Partition.WorkerStreams | pkg/cluster/coordinator.go:326-335 | A worker holds exactly its streams, each whole and in trace order |
| Coordinator.FirstRunError | pkg/cluster/coordinator.go:176-191 | A worker's own failure with the lowest index is reported, a stopped bystander only when there is none, nothing when all succeeded |
| Coordinator.EveryRunKeepsInv | pkg/cluster/coordinator.go:80-270 | The invariant behind the barriers, over every order of answers, failures and cancellation |
| Coordinator.RunWaitsForEveryPrepare | pkg/cluster/coordinator.go:114-120 | No worker starts to run before every PREPARE succeeded, none is collected before every RUN did, and under shared scope none but worker 0 starts to prepare before worker 0 succeeded |
| Coordinator.ResultNeedsEveryRun | pkg/cluster/coordinator.go:149-168 | A merged result means every worker ran to the end and was collected; any failed run or preparation means there is none |
| Coordinator.RootCauseIsReported | pkg/cluster/coordinator.go:173-191 | The error reported is that of the worker to blame: the first whose preparation failed, the first whose run failed by itself, the first stopped one if none did, or the one whose output could not be collected |
| Coordinator.CancelledExactlyWhen | pkg/cluster/coordinator.go:122-147 | The run is cancelled exactly when its caller cancels it or a worker's run failed by itself, and no worker is stopped before |
| Coordinator.NeverStuck | pkg/cluster/coordinator.go:122-171 | Until a result or an error is out, some worker or the coordinator can move |
| DirectIO.AlignIsNearest | pkg/engine/localfile/direct_linux.go:47-55 | The mask expressions give the nearest multiples of a power of two |
| DirectIO.BlocksRefineWrite | pkg/engine/localfile/direct_linux.go:120-151 | Writing the patched blocks and truncating when they overhang is a plain positional write |
| DirectIO.AlignedWriteAt | pkg/engine/localfile/direct_linux.go:104-154 | The read-modify-write leaves exactly what a plain positional write leaves: old bytes outside, data inside, zeros in a gap, and the right length |
| DirectIO.AlignedReadAt | pkg/engine/localfile/direct_linux.go:72-98 | The bytes of a plain read; reported short as the buffered path does exactly when it is not an empty read at a block boundary or from the end of the file on |
| DirectIO.EmptyReadDiffers | pkg/engine/localfile/direct_linux.go:72-98 | Concrete empty read, at the start of a one-byte file, that the direct path calls short and the buffered path does not |
| Payload.Fill | pkg/payload/payload.go:44-79 | Leading, whole-word and trailing cases together put at every index the byte of its absolute position, and touch nothing else |
| Payload.ChunkingIsInvisible | pkg/payload/payload.go:36-43 | Filling in any sequence of chunks equals filling at once |
| Payload.WholeBlockIsItsWord | pkg/payload/payload.go:44-79 | An aligned block is its word, byte for byte |
| Payload.WritePOSIX | pkg/prepare/prepare.go:213-246 | Chunked writes leave a file that is the fill of its whole length, whatever the buffer size |
| Payload.FillReadSeeker.Read | pkg/prepare/prepare.go:254-265 | A read gives the fill from the current position, up to the end, and advances |
| Payload.FillReadSeeker.Seek | pkg/prepare/prepare.go:267-280 | The position after each kind of seek, reported only when not negative |
| Payload.Drain | pkg/prepare/prepare.go:206-211 | A PUT reading in any sizes stores the same contents as the chunked writes |
| MedianInterval.MedianCIBounds | pkg/results/trials.go:178-204 | Succeeds exactly when n is at least 6, with mirrored indexes inside the sample, the lower one at the largest admissible order statistic |
| MedianInterval.TailsComplement | pkg/results/trials.go:172-177 | The two tails of a binomial row add up to all patterns |
| MedianInterval.FewerSize | pkg/results/trials.go:174-176 | The tail sum counts the patterns with fewer than k values below the median |
| MedianInterval.AdmissibleCovers | pkg/results/trials.go:169-177 | At most one pattern in twenty leaves the median outside the interval |
| MedianInterval.IntervalCoversByCounts | pkg/results/trials.go:155-157 | The closed interval contains the median exactly when neither side of the median holds more than n - k values |
| MedianInterval.IntervalCoversExactlyWhen | pkg/results/trials.go:155-157 | The closed interval contains the median exactly when the sample, values equal to the median counting on either side, may stand for a pattern that is not one of the missing ones |
| MedianInterval.UntiedIntervalCovers | pkg/results/trials.go:155-157 | A sample without the median itself stands for one pattern, and the open interval contains the median exactly when that pattern is not missing |

## Left out

- JSON, YAML and CSV encoding, file and network I/O, command lines and reports: the model starts from decoded headers and operations. Missing-field checks on the raw header (`pkg/trace/validate.go:290-318`) are not modelled for that reason.
- Fixed integer width: times, offsets, sizes and ids do not wrap. The block masks of O_DIRECT are modelled bit by bit on naturals.
- Finding texts and warnings of the validator: a finding is its line and field. The callback given to the validator is modelled as a separate pass, since it neither reads nor changes the validator's state.
- Tokenising strace lines (pid column, timestamps, quoting, argument splitting, unfinished and resumed pairs): calls arrive as tokens in the order they are handled, flags as names of an enumeration, skip reasons as constructors for the report's strings.
- `_llseek` results, duplicated or inherited descriptors, descriptors used across threads, and open calls naming two access modes: the importer does not reconstruct them, so `Kernel` excludes them.
- Replay.ReplayStream: counts as failures what the dispatcher, the coalesced PUTs and the engine's interface decide: an OPEN mode, a READ, WRITE or FSYNC the engine does not have or the handle was not opened for, an unknown handle, a PUT fed another length than announced. It does not count what a backend may add: a missing file, a full disk, a key outside the target root, a store that is down. That a READ or GET gets another count than the one recorded is the subject of `Extents`. Cancellation of the run is modelled in `Scheduler` and `Coordinator`.
- A PUT is taken to fail only for its length. The pipe between WRITEs and PUT is modelled by the bytes it takes; how the S3 engine cuts them into parts is not.
- The in-memory engine: it ignores access modes, and FSYNC is beyond its capabilities. The engine with offset writes is the local file engine.
- slices.SortStableFunc and sort.Slice are an insertion sort and a selection of least elements; `Merge.AnySortGivesTheMerge` and `SortedIds.SortIdsLists` make the choice immaterial.
- `Scheduler` has no clocks: a pacing wait may end at any time. Times are the subject of `Pacing`, where the semaphore wait of each operation is an input. Timeline and scaled modes are left out.
- `Coordinator` starts after registration; worker versions, host names and progress callbacks are left out, and so is the skew between workers.
- Payload words are a parameter: how splitmix64 and FNV mix seed, operation and target is not modelled.
- `DirectIO.File` is one regular file nobody else writes; a positional read returns everything there is up to the buffer's length.
- `MedianInterval` uses exact binomial coefficients where the code adds exponentials of log-gamma values; mean, deviation and coefficient of variation are left out.
- The interval in seconds of the checkpoint generator is an integer number of nanoseconds, so its check for a finite number is not modelled; the notes and profile strings of headers are left out.
- Prepare modes that verify or copy existing data, target maps, root containment, cache controls, time series and straggler windows: easy members beside the ones above.
- The DFTracer front end, the training-read generator, S3 transfers and gRPC: they repeat these shapes or belong to libraries.
