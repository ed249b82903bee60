/**
 The flush loop as an object over the shared state and the segment writer
 (dial9-core/src/flush_loop.rs), one iteration after another.
 */
module FlushLoop {
  import opened Wrappers
  import opened Collector
  import opened SegmentMetadata
  import opened Rotation
  import opened SegmentSpec
  import opened RecordingInvariant
  import F = RecordingFrames
  import Pr = SegmentProofs
  import P = RecordingProtocol
  import SS = SharedState
  import SW = SegmentWriter

  datatype DrainState = Idle | EpochBumped

  /** What the sources record in one cycle: event counts and sizes. */
  datatype Emission = Emission(events: nat, size: nat)

  /** The environment of one iteration; `write` gives the outcome of the n-th batch write. */
  datatype CycleEnv = CycleEnv(
    entries: seq<Entry>, decideAt: real, emissions: seq<Emission>, write: nat -> WriteEnv,
    drainedAt: real, rotate: RotateEnv, panics: seq<Entry>, meta: RecordWrite, sealMeta: RecordWrite, io: IoResult)

  /** Every batch write succeeds. */
  ghost predicate AllSucceed(write: nat -> WriteEnv) {
    forall i: nat :: Succeeds(write(i))
  }

  /** The events that the sources record. */
  function EmittedEvents(emissions: seq<Emission>): nat {
    if |emissions| == 0 then 0 else EmittedEvents(emissions[..|emissions| - 1]) + emissions[|emissions| - 1].events
  }

  /** The events of the batches that left the ring since it was at `from`. */
  ghost function EventsSince(removed: seq<Removal>, from: nat): nat
    requires from <= |removed|
  {
    Pr.EventCount(Batches(removed[from..]))
  }

  lemma EventsNext(removed: seq<Removal>, from: nat, r: Removal)
    requires from <= |removed|
    ensures EventsSince(removed + [r], from) == EventsSince(removed, from) + |r.batch.events|
  {
    assert (removed + [r])[from..] == removed[from..] + [r];
    BatchesAppend(removed[from..], r);
    Pr.EventCountAppend(Batches(removed[from..]), r.batch);
  }

  /** A writer whose metadata was updated, unless there was nothing to merge. */
  function MergedInto(w: Writer, entries: seq<Entry>): Writer {
    if entries == [] then w else Updated(w, entries)
  }

  /** How a writer ends: late metadata is merged and written, then the last segment is sealed or discarded. */
  function LastSealed(c: Config, w: Writer, env: CycleEnv): Writer {
    Finalized(c, MetadataIfNeeded(MergedInto(w, env.panics), env.meta).writer, env.sealMeta, env.io).writer
  }

  /** Writing, rotating and finalizing leave the metadata as it is. */
  lemma WrittenMetadata(c: Config, w: Writer, b: Batch, env: WriteEnv)
    ensures Written(c, w, b, env).writer.metadata == w.metadata
  {
    hide Rotated;
    if Takes(w, b, env) {
      TakesMeans(c, w, b, env);
      RotatedOffers(c, Appended(MetadataIfNeeded(w, env.meta).writer, b), Overflow, env.rotate);
    } else {
      RefusedKeeps(c, w, b, env);
    }
  }

  /** A batch just popped extends what the writer is to be offered, unless it is empty. */
  lemma {:induction false} PoppedLast(removed: seq<Removal>, b: Batch)
    requires |removed| > 0 && removed[|removed| - 1] == Removal(b, Popped)
    ensures NonEmpty(WithFate(removed, Popped))
         == NonEmpty(WithFate(removed[..|removed| - 1], Popped)) + (if |b.events| > 0 then [b] else [])
  {
    var before := removed[..|removed| - 1];
    assert removed == before + [Removal(b, Popped)];
    WithFateAppend(before, Removal(b, Popped), Popped);
    F.NonEmptyAppend(WithFate(before, Popped), b);
  }

  /** A non-empty batch is offered to the writer, and written if its file operations succeed. */
  lemma HandsOver(c: Config, w: Writer, b: Batch, env: WriteEnv)
    requires |b.events| > 0
    ensures var out := Written(c, w, b, env);
      && OfferedBatches(out.writer.offers) == OfferedBatches(w.offers) + [b]
      && out.writer.metadata == w.metadata && (Succeeds(env) ==> out.ok)
  {
    hide Written, Pr.WriteFate, Succeeds;
    Pr.WrittenOffers(c, w, b, env);
    WrittenMetadata(c, w, b, env);
    if Succeeds(env) {
      SuccessIsOk(c, w, b, env);
    }
  }

  /**
   The batches removed since `from` were popped; the events of those written are counted, and it
   failed only on the last one taken, which had events.
   */
  ghost predicate TookFrom(removed: seq<Removal>, from: nat, before: nat, written: nat, ok: bool) {
    && from <= |removed|
    && (forall i :: from <= i < |removed| ==> removed[i].fate == Popped)
    && (ok ==> written == before + EventsSince(removed, from))
    && (!ok ==>
          && from < |removed| && |removed[|removed| - 1].batch.events| > 0
          && written == before + EventsSince(removed[..|removed| - 1], from))
  }

  lemma TookNone(removed: seq<Removal>, written: nat)
    ensures TookFrom(removed, |removed|, written, written, true)
  {
    assert removed[|removed|..] == [];
  }

  lemma TookOne(removed: seq<Removal>, from: nat, before: nat, written: nat, b: Batch, ok: bool)
    requires TookFrom(removed, from, before, written, true) && (|b.events| == 0 ==> ok)
    ensures TookFrom(removed + [Removal(b, Popped)], from, before, written + (if ok then |b.events| else 0), ok)
  {
    EventsNext(removed, from, Removal(b, Popped));
    assert (removed + [Removal(b, Popped)])[..|removed|] == removed;
    hide EventsSince;
  }

  class FlushLoop {
    const shared: SS.SharedState
    const writer: SW.SegmentWriter
    var drainState: DrainState
    var cycleCount: nat
    var eventsWritten: nat

    /** The writer was offered exactly the non-empty batches that left the ring towards it, in order. */
    ghost predicate Valid()
      reads shared`tlBuffers, shared`buffers, shared`drainEpoch, shared.collector, shared.collector.queue, writer`offers, writer`nextIndex
    {
      && shared.Valid() && P.FLUSH_THREAD in shared.buffers && shared.buffers[P.FLUSH_THREAD].alive
      && writer.nextIndex >= 1
      && OfferedBatches(writer.offers) == NonEmpty(WithFate(shared.collector.removed, Popped))
    }

    constructor (shared: SS.SharedState, writer: SW.SegmentWriter)
      requires shared.Valid() && P.FLUSH_THREAD in shared.buffers && shared.buffers[P.FLUSH_THREAD].alive
      requires writer.nextIndex >= 1 && writer.offers == [] && shared.collector.removed == []
      ensures Valid() && this.shared == shared && this.writer == writer
      ensures drainState == Idle && cycleCount == 0 && eventsWritten == 0
    {
      this.shared := shared;
      this.writer := writer;
      drainState, cycleCount, eventsWritten := Idle, 0, 0;
    }

    /** The sources record on the flush thread's own buffer, whose handle is never registered. */
    method FlushSources(emissions: seq<Emission>)
      requires Valid()
      modifies shared`buffers, shared.collector, shared.collector.queue
      ensures Valid() && shared.buffers.Keys == old(shared.buffers.Keys)
      ensures forall t :: t in shared.buffers && t != P.FLUSH_THREAD ==> shared.buffers[t] == old(shared.buffers)[t]
      ensures shared.buffers[P.FLUSH_THREAD].recorded == old(shared.buffers[P.FLUSH_THREAD].recorded) + EmittedEvents(emissions)
    {
      assert emissions[..|emissions|] == emissions;
      for i := 0 to |emissions|
        invariant Valid() && shared.buffers.Keys == old(shared.buffers.Keys)
        invariant shared.buffers[P.FLUSH_THREAD].recorded
               == old(shared.buffers[P.FLUSH_THREAD].recorded) + EmittedEvents(emissions[..i])
        invariant forall t :: t in shared.buffers && t != P.FLUSH_THREAD ==> shared.buffers[t] == old(shared.buffers)[t]
      {
        assert emissions[..i + 1][..i] == emissions[..i];
        var handle := shared.WithEncoder(P.FLUSH_THREAD, emissions[i].events, emissions[i].size);
      }
    }

    /** Hand one popped batch to the writer, unless it is empty. */
    method HandOver(b: Batch, env: WriteEnv) returns (ok: bool)
      requires shared.Valid() && P.FLUSH_THREAD in shared.buffers && shared.buffers[P.FLUSH_THREAD].alive && writer.nextIndex >= 1
      requires |shared.collector.removed| > 0 && shared.collector.removed[|shared.collector.removed| - 1] == Removal(b, Popped)
      requires OfferedBatches(writer.offers)
            == NonEmpty(WithFate(shared.collector.removed[..|shared.collector.removed| - 1], Popped))
      modifies this`eventsWritten, writer
      ensures Valid()
      ensures writer.segmentMetadata == old(writer.segmentMetadata)
      ensures eventsWritten == old(eventsWritten) + (if ok then |b.events| else 0)
      ensures Succeeds(env) || |b.events| == 0 ==> ok
    {
      PoppedLast(shared.collector.removed, b);
      hide *;
      ok := true;
      if |b.events| > 0 {
        HandsOver(writer.config, writer.State(), b, env);
        ok := writer.WriteEncodedBatch(b, env);
        if ok {
          eventsWritten := eventsWritten + |b.events|;
        }
      }
    }

    /** What taking batches from the ring since `from` has done to the count of written events. */
    ghost predicate Took(from: nat, before: nat, ok: bool)
      reads this`eventsWritten, shared.collector
    {
      TookFrom(shared.collector.removed, from, before, eventsWritten, ok)
    }

    /** Pop batches and hand them over until the ring is empty or a write fails. */
    method WriteRing(write: nat -> WriteEnv) returns (ok: bool)
      requires Valid()
      modifies this`eventsWritten, shared.collector, shared.collector.queue, writer
      ensures Valid() && shared.collector.pushed == old(shared.collector.pushed)
      ensures ok ==> shared.collector.queue.items == []
      ensures AllSucceed(write) ==> ok
      ensures Took(old(|shared.collector.removed|), old(eventsWritten), ok)
      ensures writer.segmentMetadata == old(writer.segmentMetadata)
    {
      ok := true;
      var n := 0;
      TookNone(shared.collector.removed, eventsWritten);
      hide Took;
      while ok
        invariant Valid() && shared.collector.pushed == old(shared.collector.pushed)
        invariant AllSucceed(write) ==> ok
        invariant writer.segmentMetadata == old(writer.segmentMetadata)
        invariant Took(old(|shared.collector.removed|), old(eventsWritten), ok)
        decreases ok, |shared.collector.pushed| - |shared.collector.removed|
      {
        var more;
        more, ok := WriteNext(write(n), old(|shared.collector.removed|), old(eventsWritten));
        if !more {
          return;
        }
        n := n + 1;
      }
    }

    /** Pop one batch, if there is one, and hand it over. */
    method WriteNext(env: WriteEnv, ghost from: nat, ghost before: nat) returns (more: bool, ok: bool)
      requires Valid() && Took(from, before, true)
      modifies this`eventsWritten, shared.collector, shared.collector.queue, writer
      ensures Valid() && shared.collector.pushed == old(shared.collector.pushed)
      ensures !more ==> ok && shared.collector.queue.items == []
      ensures more ==> |shared.collector.removed| == old(|shared.collector.removed|) + 1 <= |shared.collector.pushed|
      ensures Succeeds(env) ==> ok
      ensures Took(from, before, ok)
      ensures writer.segmentMetadata == old(writer.segmentMetadata)
    {
      ghost var removed, written := shared.collector.removed, eventsWritten;
      var batch := shared.collector.Next();
      hide *;
      if batch.None? {
        EmptyQueue();
        return false, true;
      }
      assert shared.collector.removed[..|removed|] == removed;
      ok := HandOver(batch.value, env);
      TookOne(removed, from, before, written, batch.value, ok);
      more := true;
    }

    /** All that was pushed has been removed: the ring is empty. */
    lemma EmptyQueue()
      requires shared.collector.Valid() && |shared.collector.removed| == |shared.collector.pushed|
      ensures shared.collector.queue.items == []
    {
    }

    /** Drain the flush thread's own buffer. */
    method DrainSelf()
      requires Valid()
      modifies shared`buffers, shared.collector, shared.collector.queue
      ensures Valid() && shared.buffers.Keys == old(shared.buffers.Keys) && shared.buffers[P.FLUSH_THREAD].events == []
      ensures forall t :: t in shared.buffers && t != P.FLUSH_THREAD ==> shared.buffers[t] == old(shared.buffers)[t]
      ensures shared.buffers[P.FLUSH_THREAD].recorded == old(shared.buffers[P.FLUSH_THREAD].recorded)
    {
      hide OfferedBatches, NonEmpty, WithFate;
      shared.DrainToCollector(P.FLUSH_THREAD);
    }

    /** The evictions since the last cycle. */
    method TakeDropped() returns (dropped: nat)
      requires Valid()
      modifies shared.collector
      ensures Valid() && dropped == old(shared.collector.droppedBatches) && shared.collector.droppedBatches == 0
    {
      hide OfferedBatches, NonEmpty;
      dropped := shared.collector.TakeDroppedBatches();
    }

    /** Sources, the loop's own buffer, then the ring; a failed write turns recording off. */
    method FlushOnce(drainSelf: bool, emissions: seq<Emission>, write: nat -> WriteEnv) returns (ok: bool)
      requires Valid()
      modifies this`eventsWritten, shared`state, shared`buffers, shared.collector, shared.collector.queue, writer
      ensures Valid() && shared.buffers.Keys == old(shared.buffers.Keys)
      ensures forall t :: t in shared.buffers && t != P.FLUSH_THREAD ==> shared.buffers[t] == old(shared.buffers)[t]
      ensures drainSelf ==> shared.buffers[P.FLUSH_THREAD].events == []
      ensures ok ==> shared.collector.queue.items == [] && shared.state == old(shared.state)
      ensures !ok ==> shared.state != P.Enabled
      ensures AllSucceed(write) ==> ok
      ensures writer.segmentMetadata == old(writer.segmentMetadata)
      ensures shared.buffers[P.FLUSH_THREAD].recorded == old(shared.buffers[P.FLUSH_THREAD].recorded)
           + (if old(shared.state) == P.Enabled then EmittedEvents(emissions) else 0)
    {
      hide *;
      if shared.state == P.Enabled {
        FlushSources(emissions);
      }
      if drainSelf {
        DrainSelf();
      }
      var dropped := TakeDropped();
      ok := WriteRing(write);
      if !ok {
        shared.Disable();
      }
    }

    /** Every registered live buffer was flushed in the current epoch, and holds nothing if it was behind. */
    ghost predicate Caught(before: map<nat, SS.TlBuffer>, handles: seq<nat>)
      reads shared`buffers, shared`drainEpoch
    {
      forall t :: t in before && t in handles && before[t].alive && t != P.FLUSH_THREAD ==>
        t in shared.buffers && shared.buffers[t].flushEpoch >= shared.drainEpoch
        && (before[t].flushEpoch < shared.drainEpoch ==> shared.buffers[t].events == [])
    }

    /** A drain empties buffers or leaves them as they are. */
    ghost predicate OnlyEmptied(before: map<nat, SS.TlBuffer>)
      reads shared`buffers
    {
      forall t :: t in before && t != P.FLUSH_THREAD ==>
        t in shared.buffers && (shared.buffers[t].events == before[t].events || shared.buffers[t].events == [])
    }

    /** Drain the thread-local buffers. */
    method Drain()
      requires Valid()
      modifies shared`buffers, shared`tlBuffers, shared.collector, shared.collector.queue
      ensures Valid() && shared.buffers.Keys == old(shared.buffers.Keys)
      ensures Caught(old(shared.buffers), old(shared.tlBuffers)) && OnlyEmptied(old(shared.buffers))
      ensures shared.buffers[P.FLUSH_THREAD].recorded == old(shared.buffers[P.FLUSH_THREAD].recorded)
    {
      ghost var before := shared.buffers;
      var stats := shared.DrainAllTlBuffers();
      assert shared.buffers[P.FLUSH_THREAD].alive == before[P.FLUSH_THREAD].alive;
      hide OfferedBatches, NonEmpty, WithFate;
    }

    /** The two-state machine: bump the epoch when a drain is due, drain in the next iteration. */
    method Coordinate(exit: bool, decideAt: real) returns (doDrain: bool)
      requires Valid()
      modifies this`drainState, shared`drainEpoch
      ensures Valid() && doDrain == old(drainState.EpochBumped?)
      ensures drainState == EpochBumped <==> old(drainState) == Idle && !exit && ShouldDrain(writer.State(), decideAt)
      ensures shared.drainEpoch == old(shared.drainEpoch) + (if drainState == EpochBumped || exit then 1 else 0)
    {
      hide OfferedBatches, NonEmpty, WithFate;
      doDrain := false;
      match drainState {
        case Idle =>
          if !exit && writer.DrainDue(decideAt) {
            shared.BumpDrainEpoch();
            drainState := EpochBumped;
          }
        case EpochBumped =>
          drainState := Idle;
          doDrain := true;
      }
      if exit {
        shared.BumpDrainEpoch();
      }
    }

    /** Seal the last segment: late metadata, the metadata record, then the seal. */
    method FinishWriter(env: CycleEnv)
      requires Valid()
      modifies writer
      ensures Valid() && writer.active.None? && writer.offers == old(writer.offers)
      ensures writer.State() == LastSealed(writer.config, old(writer.State()), env)
    {
      hide OfferedBatches, NonEmpty, WithFate, Updated, MetadataIfNeeded, Finalized, Valid;
      MergeEntries(env.panics);
      DescribeLast(env.meta);
      SealLast(env.sealMeta, env.io);
    }

    method DescribeLast(write: RecordWrite)
      requires Valid()
      modifies writer
      ensures Valid() && writer.offers == old(writer.offers)
      ensures writer.State() == MetadataIfNeeded(old(writer.State()), write).writer
    {
      hide OfferedBatches, NonEmpty, WithFate;
      ghost var offers := writer.offers;
      var written := writer.WriteMetadataIfNeeded(write);
      assert writer.offers == offers;
    }

    method SealLast(sealMeta: RecordWrite, io: IoResult)
      requires Valid()
      modifies writer
      ensures Valid() && writer.active.None? && writer.offers == old(writer.offers)
      ensures writer.State() == Finalized(writer.config, old(writer.State()), sealMeta, io).writer
    {
      FinalizedOffers(writer.config, writer.State(), sealMeta, io);
      hide Finalized, OfferedBatches, NonEmpty, WithFate;
      var finalized := writer.Finalize(sealMeta, io);
    }

    /**
     One iteration. On exit with no failed write, whatever any live registered thread or the flush
     thread itself had recorded has been handed to the writer or was evicted, and the writer is
     finished.
     */
    method Cycle(exit: bool, env: CycleEnv) returns (ok: bool)
      requires Valid()
      modifies this, shared`state, shared`drainEpoch, shared`buffers, shared`tlBuffers, shared.collector, shared.collector.queue, writer
      ensures Valid()
      ensures !exit && old(shared.state) != P.Enabled ==> unchanged(this) && unchanged(shared) && unchanged(writer)
      ensures exit ==> writer.active.None?
      ensures exit ==> exists w: Writer ::
        && w.offers == writer.offers && w.metadata == MergedInto(old(writer.State()), env.entries).metadata
        && writer.State() == LastSealed(writer.config, w, env)
      ensures !exit && old(shared.state) == P.Enabled ==>
        writer.segmentMetadata == MergedInto(old(writer.State()), env.entries).metadata
      ensures old(shared.state) == P.Enabled && (old(cycleCount) + 1) % 200 == 0 ==> shared.buffers[P.FLUSH_THREAD].events == []
      ensures AllSucceed(env.write) ==> ok
      ensures !exit && old(shared.state) == P.Enabled && old(drainState) == EpochBumped ==>
        exists w: Writer :: w.offers == writer.offers && writer.State() == AfterDrain(writer.config, w, env.drainedAt, env.rotate).writer
      ensures !exit && old(shared.state) == P.Enabled && old(drainState) == EpochBumped ==>
        forall t :: t in old(shared.buffers) && t in old(shared.tlBuffers) && old(shared.buffers)[t].alive && t != P.FLUSH_THREAD && old(shared.buffers)[t].flushEpoch < old(shared.drainEpoch) ==>
          t in shared.buffers && shared.buffers[t].events == []
      ensures old(shared.state) == P.Enabled ==>
        shared.buffers[P.FLUSH_THREAD].recorded == old(shared.buffers[P.FLUSH_THREAD].recorded) + EmittedEvents(env.emissions)
      ensures OnlyEmptied(old(shared.buffers))
      ensures exit && ok ==>
        && shared.collector.queue.items == []
        && shared.buffers[P.FLUSH_THREAD].events == []
        && forall t :: t in old(shared.buffers) && t in old(shared.tlBuffers) && old(shared.buffers)[t].alive ==>
             t in shared.buffers && shared.buffers[t].events == []
    {
      assert OnlyEmptied(shared.buffers);
      hide *;
      if !exit && shared.state != P.Enabled {
        return true;
      }
      ghost var before := shared.buffers;
      var doDrain := Begin(exit, env);
      var drainSelf := exit || cycleCount % P.SELF_DRAIN_INTERVAL == 0;
      WasEmptied(before);
      ghost var drained := shared.buffers;
      ok := FlushOnce(drainSelf, env.emissions, env.write);
      StillEmptied(before, drained);
      WindUp(exit, doDrain, env);
    }

    /** The end of an iteration: notify the writer of a drain, or finish it. */
    method WindUp(exit: bool, doDrain: bool, env: CycleEnv)
      requires Valid()
      modifies writer
      ensures Valid() && writer.offers == old(writer.offers)
      ensures exit ==> writer.active.None? && writer.State() == LastSealed(writer.config, old(writer.State()), env)
      ensures !exit ==> writer.segmentMetadata == old(writer.segmentMetadata)
      ensures !exit && doDrain ==>
        writer.State() == AfterDrain(writer.config, old(writer.State()), env.drainedAt, env.rotate).writer
      ensures !exit && !doDrain ==> writer.State() == old(writer.State())
    {
      hide *;
      if doDrain && !exit {
        RotateAfterDrain(env.drainedAt, env.rotate);
      }
      if exit {
        FinishWriter(env);
      }
    }

    /** The first half of an iteration: metadata, coordination and, when due, the intrusive drain. */
    method Begin(exit: bool, env: CycleEnv) returns (doDrain: bool)
      requires Valid()
      modifies this`drainState, this`cycleCount, shared`drainEpoch, shared`buffers, shared`tlBuffers, shared.collector, shared.collector.queue, writer
      ensures Valid() && shared.buffers.Keys == old(shared.buffers.Keys) && OnlyEmptied(old(shared.buffers))
      ensures doDrain == old(drainState.EpochBumped?) && cycleCount == old(cycleCount) + 1
      ensures writer.State() == MergedInto(old(writer.State()), env.entries)
      ensures shared.buffers[P.FLUSH_THREAD].recorded == old(shared.buffers[P.FLUSH_THREAD].recorded)
      ensures doDrain ==>
        forall t :: t in old(shared.buffers) && t in old(shared.tlBuffers) && old(shared.buffers)[t].alive && t != P.FLUSH_THREAD && old(shared.buffers)[t].flushEpoch < old(shared.drainEpoch) ==>
          t in shared.buffers && shared.buffers[t].events == []
      ensures exit ==>
        forall t :: t in old(shared.buffers) && t in old(shared.tlBuffers) && old(shared.buffers)[t].alive && t != P.FLUSH_THREAD ==>
          t in shared.buffers && shared.buffers[t].events == []
    {
      ghost var before, handles, epoch := shared.buffers, shared.tlBuffers, shared.drainEpoch;
      assert forall t :: t in before ==> before[t].flushEpoch <= epoch;
      assert OnlyEmptied(before);
      hide *;
      MergeEntries(env.entries);
      cycleCount := cycleCount + 1;
      doDrain := Coordinate(exit, env.decideAt);
      if exit || doDrain {
        Drain();
        CaughtStale(before, handles, epoch);
        CaughtBehind(before, handles, epoch);
      }
    }

    /** The flush cycle touches no other thread's buffer. */
    lemma StillEmptied(before: map<nat, SS.TlBuffer>, drained: map<nat, SS.TlBuffer>)
      requires shared.buffers.Keys == drained.Keys == before.Keys
      requires forall t :: t in shared.buffers && t != P.FLUSH_THREAD ==> shared.buffers[t] == drained[t]
      requires forall t :: t in before && t != P.FLUSH_THREAD ==>
        t in drained && (drained[t].events == before[t].events || drained[t].events == [])
      ensures OnlyEmptied(before)
    {
    }

    lemma WasEmptied(before: map<nat, SS.TlBuffer>)
      requires OnlyEmptied(before)
      ensures forall t :: t in before && t != P.FLUSH_THREAD ==>
        t in shared.buffers && (shared.buffers[t].events == before[t].events || shared.buffers[t].events == [])
    {
    }

    /** Everything behind the bumped epoch was flushed by the drain. */
    lemma CaughtStale(before: map<nat, SS.TlBuffer>, handles: seq<nat>, epoch: nat)
      requires Caught(before, handles) && forall t :: t in before ==> before[t].flushEpoch <= epoch
      ensures epoch < shared.drainEpoch ==>
        forall t :: t in before && t in handles && before[t].alive && t != P.FLUSH_THREAD ==>
          t in shared.buffers && shared.buffers[t].events == []
    {
    }

    lemma CaughtBehind(before: map<nat, SS.TlBuffer>, handles: seq<nat>, epoch: nat)
      requires Caught(before, handles) && epoch <= shared.drainEpoch
      ensures forall t :: t in before && t in handles && before[t].alive && t != P.FLUSH_THREAD && before[t].flushEpoch < epoch ==>
        t in shared.buffers && shared.buffers[t].events == []
    {
    }

    method MergeEntries(entries: seq<Entry>)
      requires Valid()
      modifies writer
      ensures Valid() && writer.offers == old(writer.offers)
      ensures writer.State() == MergedInto(old(writer.State()), entries)
    {
      ghost var offers := writer.offers;
      if entries != [] {
        writer.UpdateSegmentMetadata(entries);
      }
      assert writer.offers == offers;
      hide OfferedBatches, NonEmpty, WithFate;
    }

    /** Tell the writer that the buffers have been drained; a failure is only logged. */
    method RotateAfterDrain(now: real, env: RotateEnv)
      requires Valid()
      modifies writer
      ensures Valid() && writer.offers == old(writer.offers) && writer.segmentMetadata == old(writer.segmentMetadata)
      ensures writer.State() == AfterDrain(writer.config, old(writer.State()), now, env).writer
    {
      RotatedOffers(writer.config, writer.State(), Drained, env);
      hide Rotated, OfferedBatches, NonEmpty, WithFate;
      var ok, rotated := writer.DrainDone(now, env);
    }
  }

  /**
   Stop the recorder: drain the caller's buffer, run the last iteration of the flush loop, then
   refuse recording for good. With no failed write, the buffers of the caller, of the flush thread
   and of every live registered thread are empty and so is the ring.
   */
  method StopFlushThread(loop: FlushLoop, caller: nat, env: CycleEnv) returns (ok: bool)
    requires loop.Valid() && caller in loop.shared.buffers && caller != P.FLUSH_THREAD
    modifies loop, loop.shared, loop.shared.collector, loop.shared.collector.queue, loop.writer
    ensures AllSucceed(env.write) ==> ok
    ensures loop.Valid() && loop.shared.state == P.Stopped && loop.writer.active.None?
    ensures ok ==>
      && loop.shared.collector.queue.items == []
      && loop.shared.buffers[P.FLUSH_THREAD].events == []
      && caller in loop.shared.buffers && loop.shared.buffers[caller].events == []
      && forall t :: t in old(loop.shared.buffers) && t in old(loop.shared.tlBuffers) && old(loop.shared.buffers)[t].alive ==>
           t in loop.shared.buffers && loop.shared.buffers[t].events == []
  {
    DrainCaller(loop, caller);
    hide *;
    ghost var before := loop.shared.buffers;
    ok := loop.Cycle(true, env);
    loop.WasEmptied(before);
    loop.shared.MarkStopped();
  }

  method DrainCaller(loop: FlushLoop, caller: nat)
    requires loop.Valid() && caller in loop.shared.buffers && caller != P.FLUSH_THREAD
    modifies loop.shared`buffers, loop.shared.collector, loop.shared.collector.queue
    ensures loop.Valid() && loop.shared.buffers.Keys == old(loop.shared.buffers.Keys) && loop.shared.buffers[caller].events == []
    ensures forall t :: t in loop.shared.buffers ==> loop.shared.buffers[t].alive == old(loop.shared.buffers)[t].alive
  {
    hide OfferedBatches, NonEmpty, WithFate;
    loop.shared.DrainToCollector(caller);
  }

  lemma FinalizedOffers(c: Config, w: Writer, sealMeta: RecordWrite, io: IoResult)
    ensures Finalized(c, w, sealMeta, io).writer.offers == w.offers
  {
    if w.active.Some? {
      FinalizedSeals(c, w, sealMeta, io);
    }
  }

  lemma RotatedOffers(c: Config, w: Writer, kind: SealKind, env: RotateEnv)
    ensures Rotated(c, w, kind, env).writer.offers == w.offers && Rotated(c, w, kind, env).writer.metadata == w.metadata
  {
    if w.active.Some? {
      RotatedSeals(c, w, kind, env);
    }
  }
}
