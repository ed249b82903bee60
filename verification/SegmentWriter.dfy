/**
 The segment writer as an object whose methods update its fields in place
 (dial9-core/src/buffer.rs). Each method is proved against the function of the same operation in
 `SegmentSpec`, about which the other segment modules prove what every sequence of calls keeps.
 */
module SegmentWriter {
  import opened Wrappers
  import opened Collector
  import opened SegmentMetadata
  import opened Rotation
  import opened SegmentSpec

  /** One more eviction: the count of what is still to go drops by one. */
  lemma EvictCountStep(closed: seq<ClosedFile>, n: nat, activeBytes: nat, budget: nat)
    requires n < |closed| && Total(closed[n..]) + activeBytes > budget
    ensures EvictCount(closed[n..], activeBytes, budget) == 1 + EvictCount(closed[n + 1..], activeBytes, budget)
    ensures closed[n..][1..] == closed[n + 1..]
    ensures closed[..n + 1] == closed[..n] + [closed[n..][0]]
  {
    assert closed[n..][1..] == closed[n + 1..];
  }

  lemma EvictCountEnd(closed: seq<ClosedFile>, activeBytes: nat, budget: nat)
    requires |closed| == 0 || Total(closed) + activeBytes <= budget
    ensures EvictCount(closed, activeBytes, budget) == 0
  {
  }

  class SegmentWriter {
    const config: Config
    var active: Option<Active>
    var closedFiles: seq<ClosedFile>
    var nextIndex: nat
    var segmentMetadata: seq<Entry>
    var droppedEvents: nat
    var sealedClean: nat
    var sealedUndrained: nat
    var hasRealEvents: bool
    var metadataChanged: bool
    var currentPeriod: real
    var segmentStartedAt: real
    var nextRotationTime: Option<real>
    var nextDrainTime: real
    var priorSealKind: SealKind
    ghost var log: seq<Sealed>
    ghost const found: seq<ClosedFile>
    ghost var evicted: seq<ClosedFile>
    ghost var offers: seq<Offer>

    /** The writer's fields as a value. */
    ghost function State(): Writer
      reads this
    {
      Writer(active, closedFiles, nextIndex, segmentMetadata, droppedEvents, sealedClean, sealedUndrained,
        hasRealEvents, metadataChanged, currentPeriod, segmentStartedAt, nextRotationTime, nextDrainTime,
        priorSealKind, log, found, evicted, offers)
    }

    /** A writer on an opened first segment; the budget is not enforced yet. */
    constructor Opened(c: Config, existing: seq<ClosedFile>, firstIndex: nat, metadata: seq<Entry>, now: real, openBytes: nat)
      ensures config == c
      ensures State() == Writer(
        Some(Active(openBytes, openBytes, true, [])),
        existing, firstIndex + 1, metadata, 0, 0, 0, false, false,
        FirstPeriod(c), now, NextRotation(now, FirstPeriod(c)), now + DrainInterval(FirstPeriod(c)), Drained,
        [], existing, [], [])
    {
      var firstPeriod := FirstPeriod(c);
      config := c;
      active := Some(Active(openBytes, openBytes, true, []));
      closedFiles := existing;
      nextIndex := firstIndex + 1;
      segmentMetadata := metadata;
      droppedEvents, sealedClean, sealedUndrained := 0, 0, 0;
      hasRealEvents, metadataChanged := false, false;
      currentPeriod := firstPeriod;
      segmentStartedAt := now;
      nextRotationTime := NextRotation(now, firstPeriod);
      nextDrainTime := now + DrainInterval(firstPeriod);
      priorSealKind := Drained;
      log, found, evicted, offers := [], existing, [], [];
    }

    /**
     Open a writer beside the files an earlier lifetime left. It refuses a zero rotation period
     and an index past the 32-bit range, and fails if the first segment cannot be opened.
     */
    static method Create(c: Config, existing: seq<ClosedFile>, firstIndex: nat, metadata: seq<Entry>, now: real, open: Option<nat>)
      returns (writer: Option<SegmentWriter>)
      ensures writer.None? <==> c.rotationPeriod == 0.0 || firstIndex + 1 > MAX_SEGMENT_INDEX || open.None?
      ensures writer.Some? ==>
        fresh(writer.value) && writer.value.config == c
        && writer.value.State() == Created(c, existing, firstIndex, metadata, now, open.value)
    {
      if c.rotationPeriod == 0.0 || firstIndex + 1 > MAX_SEGMENT_INDEX || open.None? {
        return None;
      }
      var w := new SegmentWriter.Opened(c, existing, firstIndex, metadata, now, open.value);
      w.EvictOldest();
      return Some(w);
    }

    // ----- Sizes -----

    function BytesWritten(): nat
      reads this
    {
      if active.Some? then active.value.bytes else 0
    }

    /** The bytes of all closed segments and the active one; nothing counts in memory mode. */
    method TotalSize() returns (size: nat)
      ensures size == if config.isDisk then Total(closedFiles) + BytesWritten() else 0
    {
      if !config.isDisk {
        return 0;
      }
      size := 0;
      for i := 0 to |closedFiles|
        invariant size + Total(closedFiles[i..]) == Total(closedFiles)
      {
        size := size + closedFiles[i].bytes;
      }
      size := size + BytesWritten();
    }

    /** Evict oldest-first; stop writing if even the active segment alone exceeds the budget. */
    method EvictOldest()
      modifies this`closedFiles, this`evicted, this`active
      ensures State() == Evict(config, old(State()))
    {
      if !config.isDisk {
        return;
      }
      hide EvictCount;
      var size := EvictWhileOver();
      if size > config.maxTotalSize {
        active := None;
      }
    }

    /** Pop closed files off the front until the rest fits or none is left. */
    method EvictWhileOver() returns (size: nat)
      requires config.isDisk
      modifies this`closedFiles, this`evicted
      ensures var n := EvictCount(old(closedFiles), BytesWritten(), config.maxTotalSize);
        closedFiles == old(closedFiles)[n..] && evicted == old(evicted) + old(closedFiles)[..n]
      ensures size == Total(closedFiles) + BytesWritten()
    {
      ghost var before := closedFiles;
      ghost var n := 0;
      size := TotalSize();
      hide EvictCount, Total;
      while size > config.maxTotalSize && closedFiles != []
        invariant n <= |before| && closedFiles == before[n..] && evicted == old(evicted) + before[..n]
        invariant size == Total(closedFiles) + BytesWritten()
        invariant n + EvictCount(before[n..], BytesWritten(), config.maxTotalSize)
               == EvictCount(before, BytesWritten(), config.maxTotalSize)
        decreases |closedFiles|
      {
        EvictCountStep(before, n, BytesWritten(), config.maxTotalSize);
        ghost var front := closedFiles[0];
        closedFiles := closedFiles[1..];
        evicted := evicted + [front];
        n := n + 1;
        size := TotalSize();
      }
      EvictCountEnd(closedFiles, BytesWritten(), config.maxTotalSize);
    }

    // ----- Metadata -----

    method WriteMetadataIfNeeded(write: RecordWrite) returns (ok: bool)
      modifies this`active
      ensures active.Some? == old(active.Some?)
      ensures Outcome(State(), ok) == MetadataIfNeeded(old(State()), write)
    {
      if active.Some? && active.value.needMetadata {
        if write.Tore? {
          active := Some(WithTorn(active.value, write.left));
          return false;
        }
        active := Some(WithMeta(active.value, segmentMetadata, write.size).(needMetadata := false));
      }
      ok := true;
    }

    /** Stamp whether this seal and the one before it were drained. */
    method WriteSealMetadata(kind: SealKind, write: RecordWrite)
      modifies this`active
      ensures active.Some? == old(active.Some?)
      ensures State() == SealMetadata(old(State()), kind, write)
    {
      var complete := kind == Drained && priorSealKind == Drained;
      var entries := segmentMetadata + [StampEntry(complete)];
      if active.Some? {
        match write {
          case Wrote(size) => active := Some(WithMeta(active.value, entries, size));
          case Tore(left) => active := Some(WithTorn(active.value, left));
        }
      }
    }

    method UpdateSegmentMetadata(entries: seq<Entry>)
      modifies this
      ensures State() == Updated(old(State()), entries)
    {
      var merged, changed := Merge(segmentMetadata, entries);
      if changed {
        segmentMetadata := merged;
        if active.Some? {
          active := Some(active.value.(needMetadata := true));
        }
        metadataChanged := true;
      }
    }

    // ----- Rotation -----

    method AdaptRotationPeriod(closedBytes: nat, elapsed: real)
      modifies this`currentPeriod
      ensures currentPeriod == Adapt(config, old(currentPeriod), closedBytes, elapsed)
    {
      if config.adaptive.None? || closedBytes == 0 || elapsed <= 0.0 {
        return;
      }
      var rate := closedBytes as real / elapsed;
      var estimate := TargetBytes(config) as real / rate;
      if estimate > MAX_DURATION {
        return;
      }
      var ceiling := Ceiling(config);
      var floor := Min(config.adaptive.value.minPeriod, ceiling);
      var capped := Min(estimate, currentPeriod * ROTATION_GROWTH_FACTOR);
      currentPeriod := Max(floor, Min(capped, ceiling));
    }

    method CountSealed(kind: SealKind)
      modifies this`sealedClean, this`sealedUndrained
      ensures State() == CountSeal(old(State()), kind)
    {
      if kind == Drained {
        sealedClean := sealedClean + 1;
      } else {
        sealedUndrained := sealedUndrained + 1;
      }
    }

    /** Advance all timers, so that a failure further on is not retried at once. */
    method AdvanceTimers(now: real)
      modifies this`currentPeriod, this`segmentStartedAt, this`nextRotationTime, this`nextDrainTime
      ensures State() == Timed(config, old(State()), now)
    {
      AdaptRotationPeriod(BytesWritten(), Max(0.0, now - segmentStartedAt));
      segmentStartedAt := now;
      nextRotationTime := NextRotation(now, currentPeriod);
      nextDrainTime := now + DrainInterval(currentPeriod);
    }

    /** Close the active segment with the given outcome of its seal. */
    method CloseActive(fate: SealFate, ghost kind: SealKind, ghost stamp: Option<bool>)
      requires active.Some? && nextIndex >= 1
      modifies this`log, this`active, this`closedFiles
      ensures active.None?
      ensures State() == Closed(config, old(State()), SealEntry(old(State()), kind, stamp, fate))
    {
      var closedSize := active.value.bytes;
      var currentIndex := nextIndex - 1;
      log := log + [SealEntry(State(), kind, stamp, fate)];
      active := None;
      if fate == Kept && config.isDisk {
        closedFiles := closedFiles + [ClosedFile(currentIndex, closedSize)];
      }
    }

    /** Stamp and close the active segment, advancing the timers in between. */
    method SealActive(kind: SealKind, env: RotateEnv)
      requires active.Some? && nextIndex >= 1
      modifies this
      ensures State() == SealedActive(config, old(State()), kind, env)
      ensures nextIndex == old(nextIndex)
    {
      ghost var stamp := StampOf(State(), kind, env.sealMeta);
      hide SealMetadata, CountSeal, Timed, Closed, SealEntry, StampOf, FateOf;
      WriteSealMetadata(kind, env.sealMeta);
      priorSealKind := kind;
      CountSealed(kind);
      AdvanceTimers(env.now);
      CloseActive(FateOf(env.seal), kind, stamp);
    }

    method Rotate(kind: SealKind, env: RotateEnv) returns (ok: bool)
      requires nextIndex >= 1
      modifies this
      ensures Outcome(State(), ok) == Rotated(config, old(State()), kind, env)
      ensures nextIndex >= 1
    {
      if active.None? {
        return true;
      }
      hide SealedActive, Reopened;
      SealActive(kind, env);
      if env.seal == IoError {
        return false;
      }
      nextIndex := nextIndex + 1;
      if env.open.None? {
        return false;
      }
      OpenNext(env.open.value);
      ok := true;
    }

    /** Write into a fresh segment from now on. */
    method OpenNext(openBytes: nat)
      modifies this`active, this`hasRealEvents, this`metadataChanged, this`closedFiles, this`evicted
      ensures State() == Reopened(config, old(State()), openBytes)
    {
      hide Evict;
      active := Some(Active(openBytes, openBytes, true, []));
      hasRealEvents := false;
      metadataChanged := false;
      EvictOldest();
    }

    method MaybeRotate(env: RotateEnv) returns (ok: bool)
      requires nextIndex >= 1
      modifies this
      ensures Outcome(State(), ok) == MaybeRotated(config, old(State()), env)
      ensures nextIndex >= 1
    {
      ok := true;
      if active.Some? && active.value.bytes > config.maxFileSize {
        ok := Rotate(Overflow, env);
      }
    }

    // ----- Writing, draining, finalizing -----

    method WriteEncodedBatch(b: Batch, env: WriteEnv) returns (ok: bool)
      requires nextIndex >= 1
      modifies this
      ensures Outcome(State(), ok) == Written(config, old(State()), b, env)
      ensures nextIndex >= 1
    {
      hide MetadataIfNeeded, MaybeRotated;
      var ready := WriteMetadataIfNeeded(env.meta);
      if !ready {
        Offer(b, Failed);
        return false;
      }
      if active.None? {
        droppedEvents := droppedEvents + |b.events|;
        Offer(b, Dropped);
        return true;
      }
      ok := true;
      if |b.events| > 0 {
        if env.batch.BatchTore? {
          active := Some(WithTorn(active.value, env.batch.left));
          Offer(b, Failed);
          return false;
        }
        Offer(b, Accepted);
        active := Some(active.value.(
          bytes := active.value.bytes + b.bytes,
          records := active.value.records + [Data(b, segmentMetadata)]));
        hasRealEvents := true;
        ok := MaybeRotate(env.rotate);
      }
    }

    /** Note in the history what became of a non-empty batch. */
    ghost method Offer(b: Batch, fate: OfferFate)
      modifies this`offers
      ensures State() == Offered(old(State()), b, fate)
    {
      if |b.events| > 0 {
        offers := offers + [SegmentSpec.Offer(b, fate)];
      }
    }

    predicate DrainDue(now: real)
      reads this
      ensures DrainDue(now) <==> ShouldDrain(State(), now)
    {
      hasRealEvents && now >= nextDrainTime
    }

    /** The flush loop finished a drain; `rotated` tells whether it sealed the segment. */
    method DrainDone(now: real, env: RotateEnv) returns (ok: bool, rotated: bool)
      requires nextIndex >= 1
      modifies this
      ensures Outcome(State(), ok) == AfterDrain(config, old(State()), now, env)
      ensures ok && rotated <==> ok && old(hasRealEvents && nextRotationTime.Some? && now >= nextRotationTime.value)
      ensures nextIndex >= 1
    {
      if !hasRealEvents {
        return true, false;
      }
      if nextRotationTime.Some? && now >= nextRotationTime.value {
        ok := Rotate(Drained, env);
        return ok, true;
      }
      nextDrainTime := now + DrainInterval(currentPeriod);
      return true, false;
    }

    /** Stamp the last segment, then seal it if it is worth keeping and discard it otherwise. */
    method SealLast(sealMeta: RecordWrite, io: IoResult)
      requires active.Some? && nextIndex >= 1
      modifies this
      ensures State() == FinalSealed(config, old(State()), sealMeta, io)
      ensures active.None? && nextIndex == old(nextIndex)
    {
      hide SealMetadata, CountSeal, Closed, SealEntry, StampOf, FateOf;
      ghost var stamp := StampOf(State(), Drained, sealMeta);
      WriteSealMetadata(Drained, sealMeta);
      CountSealed(Drained);
      var fate;
      if hasRealEvents || (metadataChanged && nextIndex > 1) {
        fate := FateOf(io);
      } else {
        fate := Discarded;
      }
      CloseActive(fate, Drained, stamp);
    }

    /** Seal or discard the last segment; nothing can be written afterwards. */
    method Finalize(sealMeta: RecordWrite, io: IoResult) returns (ok: bool)
      requires nextIndex >= 1
      modifies this
      ensures Outcome(State(), ok) == Finalized(config, old(State()), sealMeta, io)
      ensures active.None? && nextIndex >= 1
    {
      if active.None? {
        return true;
      }
      hide SealMetadata, CountSeal, Closed, SealEntry, StampOf, FateOf;
      hide FinalSealed, Evict;
      SealLast(sealMeta, io);
      if io == IoError {
        return false;
      }
      EvictOldest();
      ok := true;
    }
  }
}
