# dial9 recording pipeline and metrique adapter: verification

This project models dial9's recording pipeline and its metrique adapter in Dafny and proves what
they promise about recorded events. It covers:

- the path of an event from a thread-local buffer through the bounded ring to a trace segment,
  under every interleaving of recording calls, self-flushes, thread exits, the drain, the flush
  loop and the shutdown, and what a segment's completeness stamp says about it
  (`Recording*.dfy`, `EndToEnd.dfy`, `StampWitness.dfy`);
- the same operations as objects whose methods run one after another (`Collector.dfy`,
  `SharedState.dfy`, `FlushLoop.dfy`), and what an undisturbed drain and flush cycle of the
  protocol do (`DrainAlone.dfy`, `FlushAlone.dfy`);
- the segment writer: rotation, seal stamps, eviction, metadata, byte-rate adaptation
  (`Segment*.dfy`, `Rotation.dfy`);
- the metrique adapter: compiling a descriptor into a plan, walking an entry by position, the
  plan cache (`Metrique*.dfy`);
- the location cache, the dump debounce gate, the S3 stage with its circuit breaker and dump
  manifests, object keys, and the splitmix64 generator.

## How to read the model

`RecordingProtocol` is a transition system over sequentially consistent steps. Each step reads or
writes one shared location, or runs under the lock that the code holds there. The handle of a
thread's first call is registered after its buffer's lock is released; the drain tests a buffer's
epoch before locking it; the flush thread's buffer is never registered. A thread that exits while
the drain holds a reference hands its buffer's drop to the drain. `recorded`, `returned`,
`removed`, `marks`, `missed`, `notes` and `writeFailed` are history: no step decides by them.

The segment writer appears twice. `SegmentSpec` says what each operation does to the writer's state
as a value; the class in `SegmentWriter` is the code's own form, each method proved against its
function. The system's state embeds the value, so that what holds for every sequence of calls on a
writer and what the protocol delivers to it combine in `EndToEnd`.

File operations, encoded sizes, clock readings, uploads and client construction are parameters, so
every claim holds for every outcome of theirs. Instants and durations are real seconds in the
writer and whole nanoseconds in the breaker and the debounce gate.

## Where the code and its comments differ

- The comment on the concurrency test (dial9-core/src/shared_state.rs:475-481) says that no event
  is lost whatever the interleaving. The ring evicts when it is full, and a drain does not see a
  thread between its exit and its buffer's drop. `ExactlyOnce` accounts for the former,
  `DrainSound` excludes the latter and `ExitedThreadEscapesDrain` shows that it happens.
- `evict_oldest` (dial9-core/src/buffer.rs:887) says that the current file is always kept. It
  stops writing when the current file alone exceeds the budget; `EvictFits` says when.
- `segment.complete` is documented as `false` for a segment that misses events still buffered at
  its seal or holds its predecessor's (dial9-core/src/buffer.rs:65-69). It can be `true` for both.
  After a failed batch write the flush cycle still reports the drain, so the segment is sealed
  without that batch and without what remained in the ring
  (dial9-core/src/flush_loop.rs:67-77, 242-249): `StampCanBeWrong`. No drain reaches the flush
  thread's own buffer, which has its turn every 200 cycles only
  (dial9-core/src/flush_loop.rs:48-53, 184), nor a thread between its exit and its buffer's drop:
  `StampWrongWithoutFailure`. `CompleteSegment` and `NothingOlder` say for every run, stamped
  segment and event exactly when the stamp is right about it.
- `rotate` says that a failing rotation is not retried on every tick
  (dial9-core/src/buffer.rs:740-742). It leaves the writer finished with its events flag set, and
  a finished writer returns before moving its timers, so once the next rotation deadline has
  passed every drain is followed by another (`FailedRotationDrainsForever`). `DrainPostponed` says
  exactly when the promise is kept.
- Debouncing promises one dump per window; with a zero window requests can even be accepted out of
  the order of their stamps (`ZeroWindowOutOfOrder`), so the window is required to be positive.

## Model

| member | source | states |
|---|---|---|
| EndToEnd.CompleteSegment | dial9-core/src/buffer.rs:684-696 | for every segment stamped `segment.complete=true` and every event, on whatever thread, whose call had returned before the epoch bump of the segment's own drain: it is in this or an earlier segment, exactly once, or was evicted, exactly if at the seal it was in no buffer, not in the ring and in no batch whose write had failed. It can be in a buffer only if the drain met its thread between its exit and its buffer's drop or if it is the flush thread's own, held back and not flushed since the bump; in the ring only in the former case or if a failed write cut the drain's cycle short |
| EndToEnd.NothingOlder | dial9-core/src/buffer.rs:730-738 | every segment so stamped holds an event, on whatever thread, that had returned before the bump of the previous seal's drain exactly if that seal left it in a buffer or in the ring and the writer has accepted it since; what a seal leaves is restricted in the same way |
| EndToEnd.CleanExactly | dial9-core/src/flush_loop.rs:65-77 | the segments up to a drained seal hold everything the writer had been handed exactly if no write had failed |
| EndToEnd.FailedNowhere | dial9-core/src/buffer.rs:1068-1090 | a batch whose write failed is in no segment of any later state, nor in a buffer, the ring or an evicted batch |
| EndToEnd.OneFate | dial9-core/src/shared_state.rs:475-481 | a recorded event is in exactly one of: a buffer, the ring, an evicted batch, a batch the writer accepted, dropped or failed to write |
| StampWitness.StampCanBeWrong | dial9-core/src/flush_loop.rs:67-77 | a failed write makes stamps wrong: from every fresh recorder with room, at any sizes and any clock readings that do not go back, a run exists in which a segment stamped complete lacks a returned event of its own window, which no segment ever holds, and the next one stamped complete holds an event of its predecessor |
| StampWitness.StampWrongWithoutFailure | dial9-core/src/flush_loop.rs:48-53 | so do the flush thread's own buffer and a thread caught between its exit and its buffer's drop, with no failed write: in some run from every such recorder both have a returned event missing from a segment stamped complete and present in the next one stamped complete |
| RecordingSeals.SealFound | dial9-core/src/buffer.rs:730-823 | every sealed segment was sealed by some step of the run, so the claims above apply to each |
| RecordingSeals.RunGrows | dial9-core/src/buffer.rs:730-823 | sealed segments, their notes, offers and removals are never taken back |
| EndToEnd.LiveNotMissed | dial9-core/src/shared_state.rs:256-260 | a thread that is still alive was missed by no drain |
| EndToEnd.ShutdownDelivers | dial9-core/src/recording.rs:212-242 | after a shutdown an event that had returned when it was called, on whatever thread, was written to a segment, exactly once, or evicted, exactly if it is in no buffer, not in the ring and in no batch whose write failed or that a finished writer refused. It is in a buffer only if the last drain missed its thread between its exit and its buffer's drop, in the ring only then or if a failed write cut the last cycle short; a thread gone before or alive after was not missed |
| EndToEnd.RunOrderly | dial9-core/src/buffer.rs:730-823 | along every run of the whole pipeline the writer's stamps, indices, byte budget and metadata records are in order |
| RecordingTheorems.ExactlyOnce | dial9-core/src/shared_state.rs:475-481 | in every reachable state a recorded event is in exactly one of: a thread-local buffer, the ring, an evicted batch, a batch handed to the writer; an event that was not recorded is nowhere |
| RecordingTheorems.FirstInFirstOut | dial9-core/src/collector.rs:79-92 | batches leave the ring in push order, each thread's events are pushed in recording order, the writer is offered exactly the popped non-empty batches, and taken plus pending plus flagged drop counts equal the evictions |
| RecordingTheorems.DrainSound | dial9-core/src/shared_state.rs:209-263 | when a drain has gone through its handles, no buffer of a thread other than the flush thread holds an event whose call returned before the bump, unless its thread is between its exit and the drop of a buffer still behind the epoch |
| RecordingTheorems.SkipSound | dial9-core/src/shared_state.rs:224-229 | a buffer whose own epoch has reached the drain epoch holds nothing that had returned before the bump, so skipping it without its lock is sound |
| RecordingTheorems.DrainNeverStuck | dial9-core/src/shared_state.rs:224-254 | the drain can always take its next step, except while it waits for a lock that a recording thread holds |
| RecordingTheorems.LockExclusive | dial9-core/src/shared_state.rs:230-253 | a buffer's owner and the drain never hold its lock at the same time |
| RecordingWitness.ExitedThreadEscapesDrain | dial9-core/src/shared_state.rs:230-254 | the exemption is needed: from every fresh recorder a run exists in which a drain ends with a returned event still in the buffer of an exited thread |
| RecordingDrain.DrainCompletes | dial9-core/src/shared_state.rs:224-254 | at the end of a drain every thread it did not miss has flushed all that had returned when the epoch began |
| RecordingSteps.ThreadActionKeeps | dial9-core/src/encoder.rs:372-403 | every step of a recording call, of a thread's exit and of its buffer's drop keeps the invariant; that a full buffer is flushed is `NeverLeftFull` |
| RecordingDrain.DecidedKeeps | dial9-core/src/flush_loop.rs:183-214 | the two-state drain machine, the epoch bump and the exit bump keep the invariant |
| RecordingDrain.DrainActionKeeps | dial9-core/src/shared_state.rs:224-260 | every step of the drain keeps it: unlocked test, upgrade, lock, flush, count, stamp, release, prune |
| RecordingFlush.FlushActionKeeps | dial9-core/src/flush_loop.rs:34-91 | every step of a flush cycle keeps it: self-drain, drop count, pop, write, failed write, rotation, finalize |
| RecordingControl.ControlActionKeeps | dial9-core/src/recording.rs:212-242 | lifecycle changes, new threads and every step of a shutdown keep it |
| RecordingRuns.RunInv | dial9-core/src/shared_state.rs:475-481 | the invariant holds in every state of every run from a fresh recorder |
| RecordingRuns.MarkMeans | dial9-core/src/shared_state.rs:270-272 | the history the claims refer to is what each thread had returned at the step that bumped the epoch |
| RecordingRuns.BumpFound | dial9-core/src/shared_state.rs:270-272 | every epoch a run has reached was bumped to at some earlier step |
| RecordingRuns.GoneNotMissed | dial9-core/src/recording.rs:212-242 | a thread gone before the shutdown began is not among those its last drain missed |
| RecordingRuns.RecordingStaysOff | dial9-core/src/shared_state.rs:116-145 | once recording has failed for good or stopped, no thread begins a recording call again |
| RecordingCalls.NeverLeftFull | dial9-core/src/encoder.rs:285-287 | in every state of every run, outside the two positions between encoding and the test, a buffer with events is below the batch size: a full buffer is always self-flushed |
| RecordingCalls.CallCatchesUp | dial9-core/src/encoder.rs:372-403 | a call that encodes once the epoch has been bumped leaves its buffer flushed in that epoch or a later one |
| RecordingBytes.BytesConserved | dial9-core/src/encoder.rs:285-301 | in every state of every run the bytes of a thread's batches and buffer are exactly what its calls encoded and one header each, so the self-flush limit and segment sizes measure what was recorded |
| RecordingStop.ShutdownStops | dial9-core/src/recording.rs:212-242 | in every state of every run after a shutdown is done, recording is stopped |
| FlushAlone.WakeBegins | dial9-core/src/flush_loop.rs:120-138 | told to exit or left without senders, the loop begins its last iteration even if recording is off; otherwise it begins one only if recording is on, and does nothing else |
| FlushAlone.CycleAlone | dial9-core/src/flush_loop.rs:34-91 | every undisturbed flush cycle of the protocol, whatever its writes do, ends within the ring's length plus nine steps; sources get their turn exactly if recording is on; the loop's own buffer is in the ring if its turn has come, the eviction count is taken, and the ring is empty, or a failed write of a batch with events cut the cycle short and turned recording off, which cannot happen if all writes succeed; the writer is told of the drain, or finished on exit |
| FlushAlone.DueIsDrained | dial9-core/src/flush_loop.rs:196-214 | over every run: a due drain bumps the epoch at once and is carried out and reported by the next iteration, whatever happened in between; one that is not due is not begun |
| FlushAlone.SendsEvery200 | dial9-core/src/flush_loop.rs:183-185 | over every run the loop's own buffer has its turn on exit and in exactly every 200th iteration |
| Collector.BoundedQueue.ForcePush | dial9-core/src/primitives.rs:961-970 | pushing evicts exactly the front element exactly when the queue is full; order is kept |
| Collector.BoundedQueue.Pop | dial9-core/src/primitives.rs:972-974 | popping takes the front, and nothing exactly from an empty queue |
| Collector.CentralCollector.AcceptFlush | dial9-core/src/collector.rs:79-83 | the batch is pushed and an eviction raises the counter; evictions counted plus taken always equal the evicted batches |
| Collector.CentralCollector.Next | dial9-core/src/collector.rs:85-87 | the next batch in push order that was not evicted |
| Collector.CentralCollector.TakeDroppedBatches | dial9-core/src/collector.rs:90-92 | the pending count is handed out once |
| SharedState.SharedState.Enable | dial9-core/src/shared_state.rs:116-123 | recording turns on only from disabled |
| SharedState.SharedState.Disable | dial9-core/src/shared_state.rs:127-134 | recording turns off only from enabled |
| SharedState.SharedState.DisablePermanently | dial9-core/src/shared_state.rs:137-139 | a failure is permanent and does not undo a stop |
| SharedState.SharedState.MarkStopped | dial9-core/src/shared_state.rs:143-145 | stopping is final |
| SharedState.SharedState.BumpDrainEpoch | dial9-core/src/shared_state.rs:270-272 | the epoch grows by one and no buffer changes |
| SharedState.SharedState.WithEncoder | dial9-core/src/encoder.rs:372-403 | events are appended, the buffer is flushed and stamped if full or behind, the first call yields a handle; all events stay accounted for in order |
| SharedState.SharedState.Record | dial9-core/src/shared_state.rs:316-328 | the handle of a thread's first call is registered, later calls register nothing |
| SharedState.SharedState.DrainToCollector | dial9-core/src/encoder.rs:347-362 | the buffer ends empty, its events handed on, other buffers unchanged |
| SharedState.SharedState.DropBuffer | dial9-core/src/encoder.rs:317-332 | a dropped buffer hands on what it still held |
| SharedState.SharedState.DrainAllTlBuffers | dial9-core/src/shared_state.rs:209-263 | registered live buffers behind the epoch are emptied and stamped, all others are untouched, exactly the dead handles are pruned, and no event is lost or repeated |
| DrainAlone.DrainsAlone | dial9-core/src/shared_state.rs:209-263 | the protocol's drain, a snapshot and then drain steps only, empties and stamps the buffers and prunes the handles as this method promises |
| FlushLoop.FlushLoop.FlushSources | dial9-core/src/source.rs:41-52 | the recorded events grow by what the sources emit, on the flush thread's own buffer, whose handle is never registered |
| FlushLoop.FlushLoop.WriteRing | dial9-core/src/flush_loop.rs:65-80 | the ring is emptied unless a write fails, which it reports only after popping a batch with events and never if all file operations succeed; the events of the popped batches written are added to the count; what the writer was offered is exactly the popped non-empty batches in order |
| FlushLoop.FlushLoop.FlushOnce | dial9-core/src/flush_loop.rs:34-91 | sources recorded if recording is on, own buffer empty if its turn has come, ring empty if no write failed, recording off if one did, which no cycle reports whose file operations all succeed |
| FlushLoop.FlushLoop.Coordinate | dial9-core/src/flush_loop.rs:196-214 | the epoch is bumped exactly when a drain becomes due or on exit, and the drain follows in the next iteration |
| FlushLoop.FlushLoop.Cycle | dial9-core/src/flush_loop.rs:120-304 | a disabled iteration changes nothing; otherwise metadata is merged and a drain iteration empties every live registered buffer that was behind and reports the drain to the writer; the last one merges late metadata, writes it and seals, and if no write fails, as when all file operations succeed, leaves the ring, the own buffer and every live registered buffer empty |
| FlushLoop.StopFlushThread | dial9-core/src/recording.rs:212-242 | the same for a shutdown, including the caller's buffer; recording is refused afterwards, and it reports success if all file operations succeed |
| SegmentWriter.SegmentWriter.Create | dial9-core/src/buffer.rs:365-427 | refuses a zero period, an index past 32 bits and a failed open; otherwise opens with the budget enforced at once |
| SegmentWriter.SegmentWriter.EvictOldest | dial9-core/src/buffer.rs:883-898 | the eviction loop computes the specified eviction and stops the writer if the active segment alone is too large |
| SegmentWriter.SegmentWriter.WriteMetadataIfNeeded | dial9-core/src/buffer.rs:663-677 | metadata is written when needed; a failed write leaves the need and a torn piece |
| SegmentWriter.SegmentWriter.WriteSealMetadata | dial9-core/src/buffer.rs:684-696 | the stamp is true exactly if this seal and the previous one were drained |
| SegmentWriter.SegmentWriter.UpdateSegmentMetadata | dial9-core/src/buffer.rs:938-946 | a changed merge is remembered and forces a metadata record |
| SegmentWriter.SegmentWriter.AdaptRotationPeriod | dial9-core/src/buffer.rs:854-871 | the new period is the specified clamped estimate |
| SegmentWriter.SegmentWriter.Rotate | dial9-core/src/buffer.rs:730-823 | stamp, timers, seal with each outcome, next index, fresh segment, eviction, in the code's order and with its error exits; `RotationAccounts` says what becomes of the file |
| SegmentWriter.SegmentWriter.MaybeRotate | dial9-core/src/buffer.rs:902-910 | an outgrown segment is sealed as an overflow |
| SegmentWriter.SegmentWriter.WriteEncodedBatch | dial9-core/src/buffer.rs:1068-1090 | the batch is accepted, dropped or failed exactly as specified; a failed write leaves a torn piece in the segment and in its size |
| SegmentWriter.SegmentWriter.DrainDone | dial9-core/src/buffer.rs:969-984 | rotate when the period is over, else postpone the next drain |
| SegmentWriter.SegmentWriter.Finalize | dial9-core/src/buffer.rs:988-1062 | seal or discard the last segment, then nothing is active any more; `FinalizeAccounts` says what becomes of the file |
| SegmentProofs.RunConserves | dial9-core/src/buffer.rs:730-823 | over every sequence of calls and outcomes, segments in index order and then the active one hold exactly the accepted batches in order, whatever failed writes left between them, and dropped events are exactly those offered after the writer finished |
| SegmentProofs.RunKeepsReal | dial9-core/src/buffer.rs:1017-1051 | finalizing never discards a segment that holds a batch |
| SegmentInvariants.RunKeeps | dial9-core/src/buffer.rs:684-911 | over every sequence of calls: stamps tell this and the previous seal's kind, indices are consecutive, evicted files are the oldest, the total exceeds the budget by at most what the active segment grew, each batch follows the metadata in force, and a stamped segment ends with its metadata and stamp |
| SegmentInvariants.EvictsLeast | dial9-core/src/buffer.rs:883-898 | eviction takes the shortest oldest-first prefix after which the rest fits |
| SegmentInvariants.EvictFits | dial9-core/src/buffer.rs:883-898 | afterwards everything fits the budget, or nothing is left and the writer is finished |
| SegmentInvariants.RotatedInBudget | dial9-core/src/buffer.rs:730-823 | a successful rotation ends within the budget |
| SegmentInvariants.FinalizedInBudget | dial9-core/src/buffer.rs:1053-1061 | a successful finalize ends within the budget |
| SegmentInvariants.CreatedInBudget | dial9-core/src/buffer.rs:423-426 | a new writer starts within the budget whatever files it finds |
| SegmentHistory.RotationAccounts | dial9-core/src/buffer.rs:761-823 | the file of a rotated segment, under its index and with its size including the stamp, joins the files that count towards the budget exactly if on disk and its seal returned `Ok`; one that had disappeared or failed to seal does not; the call fails exactly if the seal or the next open fails |
| SegmentHistory.FinalizeAccounts | dial9-core/src/buffer.rs:996-1062 | the same for the last segment, if it has events or changed metadata and is not the first; otherwise it is discarded and does not count |
| SegmentHistory.CallEnds | dial9-core/src/buffer.rs:900-1090 | for every call, read off the call: whether it ends the segment, as what kind and at which size; otherwise the segment goes on with exactly the bytes of the call's records |
| SegmentHistory.RunTold | dial9-core/src/buffer.rs:684-1062 | over every sequence of calls, from their outcomes alone: the files that count or were evicted are those found at start and then those of the wanted segments whose seal returned `Ok`, in order; ended segments have consecutive indices from the first and are counted by kind; a timed rotation comes at the opening time plus the period; the period is the adaptation folded over the sizes and open times of the segments so far |
| SegmentHistory.DueTold | dial9-core/src/buffer.rs:965-967 | a drain is due exactly if a batch landed in the active segment and the smaller of 30 seconds and the period has passed since it was opened or last drained |
| SegmentHistory.WithinLimit | dial9-core/src/buffer.rs:900-910 | after a successful write of a batch the active segment is within the file limit or was opened by that call |
| SegmentHistory.RunFills | dial9-core/src/buffer.rs:969-984 | over every sequence of calls only the last segment, sealed by finalizing, can be without a batch |
| SegmentHistory.MetadataDue | dial9-core/src/buffer.rs:663-677 | metadata is due exactly from an update that changed it until a call has written it |
| SegmentInvariants.DrainPostponed | dial9-core/src/buffer.rs:739-752 | after a due drain was reported, also when its rotation failed, no drain is due again within the drain interval, exactly if the writer was still active or its rotation was not due |
| SegmentInvariants.FailedRotationDrainsForever | dial9-core/src/buffer.rs:965-984 | after a rotation failed to seal, once the next rotation deadline has passed a drain is due at every instant, and however many are carried out and reported, nothing changes |
| SegmentMetadata.Merge | dial9-core/src/buffer.rs:130-142 | the merge loop computes the specified list and reports whether it differs |
| SegmentMetadata.MergeIsUnion | dial9-core/src/buffer.rs:130-142 | for distinct keys the merge is map union in which incoming entries win, with distinct keys again |
| SegmentMetadata.MergeIdempotent | dial9-core/src/buffer.rs:130-142 | repeating an update changes nothing, entry order included |
| Rotation.ConstantRateDoubles | dial9-core/src/buffer.rs:854-871 | at a constant byte rate whose ideal lies between floor and ceiling, the period after n rotations is the smaller of the ideal and the floor doubled n times |
| Rotation.DoubledIsPow2 | dial9-core/src/buffer.rs:854-871 | n doublings are 2^n times the floor |
| Rotation.ReachesAndKeepsIdeal | dial9-core/src/buffer.rs:854-871 | the ideal is never overshot and is met exactly from the rotation on at which the doublings pass it |
| Rotation.DefaultTargetStaysUnderLimit | dial9-core/src/buffer.rs:835-841 | with the default target a segment filled for its period stays under the file limit |
| Rotation.DefaultTarget | dial9-core/src/buffer.rs:835-841 | without a configured target segments aim for 80% of the file limit, at most 80 bytes less |
| Rotation.PeriodBounded | dial9-core/src/buffer.rs:854-871 | at any rates the period stays between floor and ceiling and at most doubles |
| LocationCache.ThreadLocalBuffer.InternLocationOf | dial9-core/src/encoder.rs:102-123 | the returned ID and the pool are those of interning the location's text |
| LocationCache.ThreadLocalBuffer.Flush | dial9-core/src/encoder.rs:289-301 | pool emptied, generation advanced, cache cleared at the wrap; the cache stays sound |
| LocationCache.CacheRefines | dial9-core/src/encoder.rs:102-123 | one cached lookup equals interning the text, and its ID resolves to that text in the current pool |
| LocationCache.CacheIsTransparent | dial9-core/src/encoder.rs:102-301 | over any interns and flushes from any generation, so across the wrap to zero, IDs and pools equal those without a cache |
| LocationCache.StaleWithoutClearing | dial9-core/src/encoder.rs:294-298 | without the clearing at the wrap a stale entry would be returned for an empty pool |
| MetriquePlan.BuildPlan | dial9-metrique/src/plan.rs:225-406 | the two nested loops build the specified plan and names, which the next rows read off the descriptor |
| MetriquePlan.ContextAction | dial9-metrique/src/plan.rs:415-451 | a context field is routed to thread, task, start or end exactly if it has that role's literal base name and the role is not taken |
| MetriquePlan.PlanFollowsDescriptor | dial9-metrique/src/plan.rs:225-406 | for every descriptor: each field's action, the schema's fields and types, and inertness are read off the descriptor, and field names are pairwise distinct, headers included |
| MetriquePlan.SpanNameOnce | dial9-metrique/src/plan.rs:257-346 | however many fields ask, at most one names the span, and it is a scalar string |
| MetriqueSchema.ShapeResolves | dial9-metrique/src/plan.rs:522-631 | a field resolves exactly if it is a known type or a list of one, optional at most once outside the list, and interned only if its data are strings; the wire type of each known type is given by a table |
| MetriqueSchema.PlanAnnotations | dial9-metrique/src/plan.rs:184-350 | the annotations are the header's five, the unit of each recorded field at its index, and the span name at the first field that asks for it if that one is recorded and a scalar string; none beyond 16-bit indices |
| MetriqueSchema.PlanName | dial9-metrique/src/plan.rs:462-497 | the first live plan of an entry name has the bare schema name, every later one has its suffix appended; inert plans take no name |
| MetriqueSchema.NamesDiffer | dial9-metrique/src/plan.rs:453-461 | live plans of one entry name have different schema names if their suffixes differ |
| MetriqueCapture.CaptureMeans | dial9-metrique/src/writer.rs:315-386 | a captured value means what was written and is in range for its kind; mismatch and absence are told apart; what an observation means is told without the capture, by `OneMeaning` |
| MetriqueCapture.MappedMeans | dial9-metrique/src/writer.rs:467-491 | an observation is captured exactly if it stands for something in its field: a truth for an unsigned, true if not zero; a natural; an integer of that very value within 64 signed bits; a number, a repeated one by its total; never a string |
| MetriqueCapture.OneMeaning | dial9-metrique/src/writer.rs:467-491 | an observation has at most one such meaning |
| MetriqueCapture.ListMeans | dial9-metrique/src/writer.rs:345-381 | absent elements are left out and one mismatch poisons the list |
| MetriqueWalk.EntryWalk.OnValue | dial9-metrique/src/writer.rs:181-235 | each callback takes the next action; one too many is remembered |
| MetriqueWalk.EntryWalk.OnTimestamp | dial9-metrique/src/writer.rs:162-179 | a wall clock outside 64-bit nanoseconds since the epoch is left absent |
| MetriqueWalk.EntryWalk.CaptureItems | dial9-metrique/src/writer.rs:345-381 | the element loop computes the specified list, stopping at a mismatch |
| MetriqueWalk.EntryWalk.Complete | dial9-metrique/src/writer.rs:102-149 | counts, missing fields and missing context are checked in this order before the header is filled |
| MetriqueRefinement.WalkReads | dial9-metrique/src/writer.rs:181-235 | after any callbacks the walk's counters, context and values are those the plan and the callbacks call for |
| MetriqueRefinement.MismatchIffCount | dial9-metrique/src/writer.rs:103-105 | the walk is a plan mismatch exactly if the number of value callbacks differs from the descriptor's |
| MetriqueRefinement.RecordedIff | dial9-metrique/src/writer.rs:102-149 | an event is recorded exactly if the counts agree, every recorded field delivers or is optional, and thread, start and end were captured |
| MetriqueRefinement.MissingIsFirst | dial9-metrique/src/writer.rs:106-110 | a missing field is reported by name and is the first recorded field that delivered nothing |
| MetriqueRefinement.EventIsByName | dial9-metrique/src/writer.rs:139-149 | a recorded event is the one found by looking descriptor fields up by name: the one field recorded under each name, which is its first eligible occurrence, skipped and colliding ones left out, one value per schema field plus the timestamp, in range, absent only where optional |
| MetriqueRefinement.EventFromCallbackNames | dial9-metrique/src/writer.rs:181-235 | when the value callbacks name the descriptor's fields in order, under each payload field's name stands the value of the one recorded callback of that name, and every recorded callback's name is a payload field |
| MetriqueHeader.HeaderIsByName | dial9-metrique/src/writer.rs:112-149 | a recorded event, by the literal names of the context fields: its timestamp is what the first one named `dial9.monotonic_ns_end` wrote; then thread, task or nothing, end minus start or zero, and the last representable wall clock or nothing |
| MetriqueHeader.RecordedByName | dial9-metrique/src/writer.rs:102-149 | an event is recorded exactly if the counts agree, every recorded field delivers or is optional, and the first context fields named for thread, start and end wrote unsigned values |
| MetriqueHeader.MissingContextIsFirst | dial9-metrique/src/writer.rs:119-127 | missing context is reported by the name of the first of thread, start and end that gave no value |
| MetriqueHeader.SchemaStarts | dial9-metrique/src/plan.rs:125-182 | every schema starts with the four header fields under their names and types |
| MetriqueStream.Dial9Stream.PlanFor | dial9-metrique/src/stream.rs:181-204 | whichever of last plan, index or fresh build serves it, the plan is the one built at the key's first occurrence; plans number the distinct keys |
| MetriqueStream.Dial9Stream.Next | dial9-metrique/src/stream.rs:158-292 | each entry past the enabled check has exactly one fate and raises exactly the counter of that fate; it is emitted exactly if the encoder ran, writing it did not panic, its values meet the descriptor and the encoder took the event, and the event is then the outcome of its walk |
| MetriqueStream.PlansNumberKeys | dial9-metrique/src/stream.rs:189-198 | the first occurrences are as many as the distinct keys |
| Debounce.Gate.Request | dial9-core/src/dump.rs:250-266 | under the lock a request folds into the reservation or replaces it |
| Debounce.Gate.Release | dial9-core/src/dump.rs:186-191 | only the reserved ID frees the reservation |
| Debounce.DumpRun.Dispatch | dial9-core/src/dump.rs:336-343 | a request is sent at most once |
| Debounce.DumpRun.AwaitThenDrop | dial9-core/src/dump.rs:345-370 | awaiting and then dropping a run sends it once |
| Debounce.RunInv | dial9-core/src/dump.rs:250-283 | in every interleaving for a positive window: the reservation is the acceptance that stands, acceptances are spaced, coalesced requests name the standing acceptance, and sent IDs are the dispatched accepted runs |
| Debounce.AcceptedApart | dial9-core/src/dump.rs:257-266 | an acceptance is stamped at least a window after the one that still stands |
| Debounce.DecidedByWindow | dial9-core/src/dump.rs:250-270 | a request folds exactly if its clock was read less than a window after the acceptance that stands, and is accepted if it was read later or none stands |
| Debounce.OldReleaseIsHarmless | dial9-core/src/dump.rs:186-191 | releasing an old ID never frees a newer reservation |
| Debounce.SentExactlyOnce | dial9-core/src/dump.rs:336-351 | each dispatched accepted run is sent exactly once, unless it found the channel closed, and coalesced runs never |
| Debounce.ZeroWindowOutOfOrder | dial9-core/src/dump.rs:260-265 | with a zero window spacing fails: two triggers can be accepted with stamps in the opposite order |
| CircuitBreaker.CircuitBreaker.RetryDelay | dial9-destinations-s3/src/connection.rs:41-46 | the delay is the shortest wait after which an attempt is permitted |
| CircuitBreaker.CircuitBreaker.OnFailure | dial9-destinations-s3/src/connection.rs:54-63 | a failure opens the breaker from that moment with the doubled, capped backoff |
| CircuitBreaker.BackoffDoubles | dial9-destinations-s3/src/connection.rs:54-63 | the k-th consecutive failure sets min(2^(k-1), 300) seconds |
| CircuitBreaker.FailuresSpread | dial9-destinations-s3/src/connection.rs:33-63 | gated attempts: n + 1 failures in a row span at least 2^n - 1 seconds up to n = 9 and 511 + 300 (n - 9) from there |
| CircuitBreaker.SpreadIsTight | dial9-destinations-s3/src/connection.rs:33-63 | that bound is attained for every n |
| Manifest.S3PipelineUploader.EnsureInitialized | dial9-destinations-s3/src/s3.rs:812-854 | the client outcome is decided once and kept |
| Manifest.S3PipelineUploader.Process | dial9-destinations-s3/src/s3.rs:884-951 | initialization, disabled pass-through, breaker, upload outcome and tag loop as specified; `ProcessOutcome` says when each outcome occurs |
| Manifest.ProcessOutcome | dial9-destinations-s3/src/s3.rs:884-951 | each outcome of a segment, exactly by the uploader, the breaker's wait and the upload; only a stored one is remembered |
| Manifest.S3PipelineUploader.FinalizeDump | dial9-destinations-s3/src/s3.rs:953-1017 | the entry is always taken; a manifest is written exactly if `ManifestWritten` says so |
| Manifest.ManifestWritten | dial9-destinations-s3/src/s3.rs:953-1017 | a manifest is written exactly if the dump completed, could be serialized, the stage can use S3 and the upload succeeded |
| Manifest.PiecesSplit | dial9-destinations-s3/src/s3.rs:925-926 | a tag is split into its comma-free stretches, losslessly |
| Manifest.DumpsAreTheTags | dial9-destinations-s3/src/s3.rs:921-927 | a segment belongs to each dump named by a non-empty piece of its tag, as often as the piece occurs, and to none without a tag |
| Manifest.KeysAreTagged | dial9-destinations-s3/src/s3.rs:921-932 | over any calls a dump's keys are those uploaded under its tag since it was last finalized, in upload order |
| Manifest.ManifestIsExact | dial9-destinations-s3/src/s3.rs:953-1017 | over any calls, when a manifest is written, and that it lists exactly those keys; other dumps' keys are unaffected |
| Manifest.StageBacksOff | dial9-destinations-s3/src/s3.rs:909-946 | uploads and manifests together: consecutive failures are spread by the backoffs over every run |
| HiveKey.HiveEscape | dial9-destinations-s3/src/segment_object_key.rs:8-23 | the loop computes the specified escape |
| HiveKey.PunctuationEscapes | dial9-destinations-s3/src/segment_object_key.rs:53-72 | the escapes of eight punctuation characters, literally |
| HiveKey.BracketEscapes | dial9-destinations-s3/src/segment_object_key.rs:53-72 | the escapes of the other six, literally |
| HiveKey.OtherEscapes | dial9-destinations-s3/src/segment_object_key.rs:53-72 | controls and DEL are escaped by their code in hexadecimal, and every other character stands for itself |
| HiveKey.UnescapeUndoes | dial9-destinations-s3/src/segment_object_key.rs:8-23 | unescaping gives back every string |
| HiveKey.EscapedIsSafe | dial9-destinations-s3/src/segment_object_key.rs:53-72 | an escaped value contains neither `/` nor `=` nor any other character that needs escaping, except the `%` of an escape |
| HiveKey.KeyIsInjective | dial9-destinations-s3/src/segment_object_key.rs:29-51 | for a fixed prefix two keys are equal exactly if all six parts are, with no condition on the filename |
| HiveKey.KeyLayout | dial9-destinations-s3/src/segment_object_key.rs:25-51 | keys are prefix, version, date, service, time, instance, boot and file name in this order, which time-scoped listing relies on |
| HiveKey.FilenameIsInjective | dial9-destinations-s3/src/s3.rs:229-240 | within one recorder file names are equal exactly if epoch, index and encoding are |
| HiveKey.FilenameLayout | dial9-destinations-s3/src/s3.rs:229-240 | file names are epoch, dash, index and `.bin` or `.bin.gz` |
| SplitMix.SplitMix64.NextU64 | dial9-core/src/sampling.rs:18-24 | the state advances by the increment and the output is the specified mix |
| SplitMix.KnownOutputs | dial9-core/src/sampling.rs:18-24 | the first two outputs from seed 0 are those of splitmix64 |
| SplitMix.MixedIsBijective | dial9-core/src/sampling.rs:20-23 | every output comes from exactly one state |
| SplitMix.FullPeriod | dial9-core/src/sampling.rs:19-19 | from any seed every 64-bit value is the state after exactly one number of draws below 2^64 |
| SplitMix.PeriodCloses | dial9-core/src/sampling.rs:19-19 | after 2^64 draws the state is the seed |
| SplitMix.OutputsDistinct | dial9-core/src/sampling.rs:18-24 | the first 2^64 outputs are pairwise distinct |

## Left out

- Relaxed memory ordering: every step sees the latest value of each atomic.
- Mutex poisoning and panics while encoding; a panicking source appears only as a metadata entry.
- DrainSound: excludes threads between their exit and their buffer's drop, which no weak handle can reach.
- RunConserves: speaks of what the writer took; its file buffer can still lose accepted bytes when a later flush fails, which the code ignores.
- ShutdownDelivers: counts what was written to a segment, whatever became of that segment's seal, and covers the first call of a shutdown; the second call, on drop, is not modelled.
- RecordingProtocol is on values, not objects: its steps interleave, which methods do not. `SharedState` and `FlushLoop` have the objects without the interleaving; `DrainsAlone` ties the two for the drain, and `CycleAlone` says of the protocol's flush cycle what `FlushOnce` promises.
- Wrap-around of the 64-bit drain epoch, cycle counter and byte counters, and of the 32-bit segment index after creation.
- Rounding of floating-point numbers in the period adaptation and when a 64-bit integer is recorded as a double, and overflow of durations.
- ConstantRateDoubles: assumes a positive minimum period no longer than the ceiling and an ideal period between them; outside, `PeriodBounded` applies.
- Several recorders sharing one thread's buffer, global and thread handles, recording hooks, source registration and release.
- The memory backend's own eviction, segment discovery, file locks, namespaces, `single_file` and the extra argument checks of in-memory creation; `dial9-core/src/fs.rs` is not part of this model.
- The trace encoding: an encoder is a string pool and a byte count, and stack-frame pools are left out.
- Names of schemas whose layout hashes collide; the FNV-1a suffix is a parameter.
- Values of the metrique crate that write a list inside a list, or a list for a context field: its default callbacks are not part of this model.
- The one-byte tags of field types and the mapping of units to annotation values.
- Fields of a dump manifest other than its ID and segments, receipts, look-back and look-forward windows, and the checks of user metadata.
- The calendar date and time in an object key, which are inputs, and custom key functions.
- `draw_exponential`, the worker loop, logging, metrics, rate limiting and `Debug` output.
