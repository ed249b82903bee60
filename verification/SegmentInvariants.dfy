/** Seal stamps, the byte budget and the metadata records of a segment writer (dial9-core/src/buffer.rs). */
module SegmentInvariants {
  import opened Wrappers
  import opened Collector
  import opened SegmentMetadata
  import opened Rotation
  import opened SegmentSpec

  // ----- Seal stamps and indices -----

  /** This segment and the one before it were both sealed after a drain. */
  predicate CleanAt(log: seq<Sealed>, i: nat)
    requires i < |log|
  {
    log[i].kind == Drained && (i > 0 ==> log[i - 1].kind == Drained)
  }

  /** Indices are consecutive, and every stamp tells whether this seal and the one before it were drained. */
  ghost predicate Chained(w: Writer) {
    && (forall i :: 0 <= i < |w.log| ==> w.log[i].stamp.Some? ==> (w.log[i].stamp.value <==> CleanAt(w.log, i)))
    && (forall i :: 0 < i < |w.log| ==> w.log[i].index == w.log[i - 1].index + 1)
    && (w.active.Some? ==>
        && w.nextIndex >= 1
        && (|w.log| > 0 ==> w.nextIndex == w.log[|w.log| - 1].index + 2)
        && w.priorSeal == (if |w.log| == 0 then Drained else w.log[|w.log| - 1].kind))
  }

  lemma SealChained(w: Writer, w': Writer, kind: SealKind)
    requires Chained(w) && Seals(w, w', kind)
    ensures Chained(w')
  {
    assert w'.log == w.log + [w'.log[|w.log|]];
    assert w'.log[|w.log|].stamp.Some? ==> (w'.log[|w.log|].stamp.value <==> CleanAt(w'.log, |w.log|));
    forall i | 0 <= i < |w.log|
      ensures w'.log[i] == w.log[i] && CleanAt(w'.log, i) == CleanAt(w.log, i)
    {
    }
  }

  lemma RotatedChained(c: Config, w: Writer, kind: SealKind, env: RotateEnv)
    requires Chained(w)
    ensures Chained(Rotated(c, w, kind, env).writer)
  {
    if w.active.Some? {
      RotatedSeals(c, w, kind, env);
      SealChained(w, Rotated(c, w, kind, env).writer, kind);
    }
  }

  /** Appending records changes nothing a seal stamp depends on. */
  lemma SameChain(w: Writer, w': Writer)
    requires Chained(w) && w'.log == w.log && w'.nextIndex == w.nextIndex && w'.priorSeal == w.priorSeal
    requires w'.active.Some? ==> w.active.Some?
    ensures Chained(w')
  {
  }

  lemma WrittenChained(c: Config, w: Writer, b: Batch, env: WriteEnv)
    requires Chained(w)
    ensures Chained(Written(c, w, b, env).writer)
  {
    var ready := MetadataIfNeeded(w, env.meta);
    if Takes(w, b, env) {
      TakesMeans(c, w, b, env);
      var grown := Appended(ready.writer, b);
      assert grown.log == w.log && grown.nextIndex == w.nextIndex && grown.priorSeal == w.priorSeal;
      hide Chained, Rotated;
      SameChain(w, grown);
      RotatedChained(c, grown, Overflow, env.rotate);
    } else {
      hide *;
      RefusedKeeps(c, w, b, env);
      SameChain(w, Written(c, w, b, env).writer);
    }
  }

  lemma FinalizedChained(c: Config, w: Writer, sealMeta: RecordWrite, io: IoResult)
    requires Chained(w)
    ensures Chained(Finalized(c, w, sealMeta, io).writer)
  {
    if w.active.Some? {
      FinalizedSeals(c, w, sealMeta, io);
      SealChained(w, Finalized(c, w, sealMeta, io).writer, Drained);
    }
  }

  lemma CallChained(c: Config, w: Writer, call: Call)
    requires Chained(w)
    ensures Chained(After(c, w, call).writer)
  {
    match call
    case WriteCall(b, env) => WrittenChained(c, w, b, env);
    case DrainedCall(now, env) =>
      if AfterDrain(c, w, now, env) == Rotated(c, w, Drained, env) {
        RotatedChained(c, w, Drained, env);
      } else {
        SameChain(w, AfterDrain(c, w, now, env).writer);
      }
    case UpdateCall(entries) => SameChain(w, Updated(w, entries));
    case MetadataCall(write) => SameChain(w, MetadataIfNeeded(w, write).writer);
    case FinalizeCall(sealMeta, io) => FinalizedChained(c, w, sealMeta, io);
  }

  // ----- The byte budget -----

  /** Eviction takes the shortest oldest-first prefix after which the rest fits, or everything. */
  lemma {:induction false} EvictsLeast(closed: seq<ClosedFile>, active: nat, budget: nat)
    ensures var n := EvictCount(closed, active, budget);
      && (Total(closed[n..]) + active <= budget || n == |closed|)
      && (forall m :: 0 <= m < n ==> Total(closed[m..]) + active > budget)
  {
    if |closed| != 0 && Total(closed) + active > budget {
      EvictsLeast(closed[1..], active, budget);
      var n := EvictCount(closed, active, budget);
      assert closed[1..][n - 1..] == closed[n..];
      forall m | 0 <= m < n
        ensures Total(closed[m..]) + active > budget
      {
        if m > 0 {
          assert closed[1..][m - 1..] == closed[m..];
        } else {
          assert closed[m..] == closed;
        }
      }
    }
  }

  /** After eviction closed plus active bytes fit; if the active segment alone did not fit, nothing is left at all. */
  lemma EvictFits(c: Config, w: Writer)
    requires c.isDisk
    ensures var w' := Evict(c, w);
      && Total(w'.closed) + ActiveBytes(w') <= c.maxTotalSize
      && (ActiveBytes(w) > c.maxTotalSize ==> w'.active.None? && w'.closed == [])
      && (ActiveBytes(w) <= c.maxTotalSize ==> w'.active == w.active)
      && w'.evicted + w'.closed == w.evicted + w.closed
  {
    EvictsLeast(w.closed, ActiveBytes(w), c.maxTotalSize);
    var n := EvictCount(w.closed, ActiveBytes(w), c.maxTotalSize);
    assert w.closed == w.closed[..n] + w.closed[n..];
    assert w.evicted + w.closed[..n] + w.closed[n..] == w.evicted + (w.closed[..n] + w.closed[n..]);
  }

  /** The files of the segments whose seal succeeded. */
  function KeptFiles(log: seq<Sealed>): seq<ClosedFile> {
    if |log| == 0 then []
    else
      var last := log[|log| - 1];
      KeptFiles(log[..|log| - 1]) + (if last.fate == Kept then [ClosedFile(last.index, last.bytes)] else [])
  }

  /**
   On disk: the evicted files are exactly the oldest of the files found at start and kept since,
   and while the writer is active its total exceeds the budget by at most what was appended to
   the active segment since it was opened.
   */
  ghost predicate InBudget(c: Config, w: Writer) {
    && w.evicted + w.closed == w.found + (if c.isDisk then KeptFiles(w.log) else [])
    && (w.active.Some? ==> w.active.value.openBytes <= w.active.value.bytes)
    && (w.active.Some? && c.isDisk ==> Total(w.closed) + w.active.value.openBytes <= c.maxTotalSize)
  }

  lemma KeptFilesAppend(log: seq<Sealed>, e: Sealed)
    ensures KeptFiles(log + [e]) == KeptFiles(log) + (if e.fate == Kept then [ClosedFile(e.index, e.bytes)] else [])
  {
    assert (log + [e])[..|log|] == log;
  }

  /** Closing a segment leaves the files accounted for. */
  lemma ClosedAccounts(c: Config, w: Writer, entry: Sealed)
    requires w.evicted + w.closed == w.found + (if c.isDisk then KeptFiles(w.log) else [])
    ensures var w' := Closed(c, w, entry);
      w'.evicted + w'.closed == w'.found + (if c.isDisk then KeptFiles(w'.log) else [])
  {
    KeptFilesAppend(w.log, entry);
    var f := [ClosedFile(entry.index, entry.bytes)];
    assert w.evicted + (w.closed + f) == (w.evicted + w.closed) + f;
    assert (w.found + KeptFiles(w.log)) + f == w.found + (KeptFiles(w.log) + f);
  }

  lemma RotatedInBudget(c: Config, w: Writer, kind: SealKind, env: RotateEnv)
    requires InBudget(c, w)
    ensures var out := Rotated(c, w, kind, env);
      && InBudget(c, out.writer)
      && (w.active.Some? && out.ok && c.isDisk ==> Total(out.writer.closed) + ActiveBytes(out.writer) <= c.maxTotalSize)
  {
    if w.active.Some? {
      var stamped := SealMetadata(w, kind, env.sealMeta);
      var timed := Timed(c, CountSeal(stamped.(priorSeal := kind), kind), env.now);
      var entry := SealEntry(timed, kind, StampOf(w, kind, env.sealMeta), FateOf(env.seal));
      ClosedAccounts(c, timed, entry);
      if env.seal != IoError && env.open.Some? && c.isDisk {
        var sealed := Closed(c, timed, entry);
        EvictFits(c, sealed.(nextIndex := sealed.nextIndex + 1).(
          active := Some(Active(env.open.value, env.open.value, true, [])),
          hasRealEvents := false,
          metadataChanged := false));
      }
    }
  }

  lemma FinalizedInBudget(c: Config, w: Writer, sealMeta: RecordWrite, io: IoResult)
    requires InBudget(c, w)
    ensures var out := Finalized(c, w, sealMeta, io);
      && InBudget(c, out.writer)
      && (w.active.Some? && out.ok && c.isDisk ==> Total(out.writer.closed) + ActiveBytes(out.writer) <= c.maxTotalSize)
  {
    if w.active.Some? {
      var stamped := CountSeal(SealMetadata(w, Drained, sealMeta), Drained);
      var fate := if KeepsLast(w) then FateOf(io) else Discarded;
      var entry := SealEntry(stamped, Drained, StampOf(w, Drained, sealMeta), fate);
      ClosedAccounts(c, stamped, entry);
      if c.isDisk {
        EvictFits(c, Closed(c, stamped, entry));
      }
    }
  }

  lemma CreatedInBudget(c: Config, found: seq<ClosedFile>, first: nat, metadata: seq<Entry>, now: real, open: nat)
    requires !c.isDisk ==> found == []
    ensures var w := Created(c, found, first, metadata, now, open);
      && InBudget(c, w) && Chained(w)
      && (c.isDisk ==> Total(w.closed) + ActiveBytes(w) <= c.maxTotalSize)
  {
    if c.isDisk {
      var period := FirstPeriod(c);
      EvictFits(c, Writer(
        Some(Active(open, open, true, [])),
        found, first + 1, metadata, 0, 0, 0, false, false,
        period, now, NextRotation(now, period), now + DrainInterval(period), Drained,
        [], found, [], []));
    }
  }

  lemma CallInBudget(c: Config, w: Writer, call: Call)
    requires InBudget(c, w)
    ensures InBudget(c, After(c, w, call).writer)
  {
    match call
    case WriteCall(b, env) =>
      var ready := MetadataIfNeeded(w, env.meta);
      assert InBudget(c, ready.writer);
      if ready.ok && ready.writer.active.Some? && |b.events| > 0 && env.batch.BatchWrote? {
        assert InBudget(c, Appended(ready.writer, b));
        RotatedInBudget(c, Appended(ready.writer, b), Overflow, env.rotate);
      }
    case DrainedCall(now, env) => RotatedInBudget(c, w, Drained, env);
    case UpdateCall(entries) =>
    case MetadataCall(write) =>
    case FinalizeCall(sealMeta, io) => FinalizedInBudget(c, w, sealMeta, io);
  }

  // ----- Metadata records -----

  /** The entries of the last metadata record. */
  function LastMeta(records: seq<Record>): Option<seq<Entry>> {
    if |records| == 0 then None
    else
      var last := records[|records| - 1];
      if last.Meta? then Some(last.entries) else LastMeta(records[..|records| - 1])
  }

  /** Before every batch comes a metadata record, and the last one holds the metadata in force at the batch. */
  ghost predicate Described(records: seq<Record>) {
    forall i :: 0 <= i < |records| && records[i].Data? ==> LastMeta(records[..i]) == Some(records[i].metadata)
  }

  /** The segment ends with the metadata in force at its seal plus the completeness stamp. */
  ghost predicate EndsStamped(entry: Sealed) {
    entry.stamp.Some? ==>
      && |entry.records| > 0
      && entry.records[|entry.records| - 1]
         == Meta(entry.metadata + [("segment.complete", if entry.stamp.value then "true" else "false")])
  }

  ghost predicate SelfDescribing(w: Writer) {
    && (forall i :: 0 <= i < |w.log| ==> Described(w.log[i].records) && EndsStamped(w.log[i]))
    && (w.active.Some? ==>
        && Described(w.active.value.records)
        && (!w.active.value.needMetadata ==> LastMeta(w.active.value.records) == Some(w.metadata)))
  }

  lemma DescribedAppend(records: seq<Record>, r: Record)
    requires Described(records) && (r.Data? ==> LastMeta(records) == Some(r.metadata))
    ensures Described(records + [r])
    ensures LastMeta(records + [r]) == if r.Meta? then Some(r.entries) else LastMeta(records)
  {
    var grown := records + [r];
    assert grown[..|records|] == records;
    forall i | 0 <= i < |grown| && grown[i].Data?
      ensures LastMeta(grown[..i]) == Some(grown[i].metadata)
    {
      if i < |records| {
        assert grown[..i] == records[..i];
      }
    }
  }

  lemma SealDescribes(w: Writer, w': Writer, kind: SealKind)
    requires SelfDescribing(w) && Seals(w, w', kind)
    ensures SelfDescribing(w')
  {
    var e := w'.log[|w.log|];
    if e.stamp.Some? {
      DescribedAppend(w.active.value.records, Meta(w.metadata + [StampEntry(e.stamp.value)]));
    } else {
      var left :| e.records == w.active.value.records + [TornRecord(left)];
      DescribedAppend(w.active.value.records, TornRecord(left));
    }
    assert Described(e.records) && EndsStamped(e);
    forall i | 0 <= i < |w.log|
      ensures w'.log[i] == w.log[i]
    {
      assert w'.log[..|w.log|][i] == w'.log[i];
    }
  }

  lemma RotatedDescribes(c: Config, w: Writer, kind: SealKind, env: RotateEnv)
    requires SelfDescribing(w)
    ensures SelfDescribing(Rotated(c, w, kind, env).writer)
  {
    if w.active.Some? {
      RotatedSeals(c, w, kind, env);
      SealDescribes(w, Rotated(c, w, kind, env).writer, kind);
    }
  }

  lemma MetadataDescribes(w: Writer, write: RecordWrite)
    requires SelfDescribing(w)
    ensures SelfDescribing(MetadataIfNeeded(w, write).writer)
  {
    if w.active.Some? {
      DescribedAppend(w.active.value.records, if write.Wrote? then Meta(w.metadata) else TornRecord(write.left));
    }
  }

  lemma WrittenDescribes(c: Config, w: Writer, b: Batch, env: WriteEnv)
    requires SelfDescribing(w)
    ensures SelfDescribing(Written(c, w, b, env).writer)
  {
    var ready := MetadataIfNeeded(w, env.meta);
    hide *;
    MetadataDescribes(w, env.meta);
    if Takes(w, b, env) {
      TakesMeans(c, w, b, env);
      AppendedDescribes(w, b, env);
      var grown := Appended(ready.writer, b);
      MaybeRotatedDescribes(c, grown, env.rotate);
    } else {
      RefusedKeeps(c, w, b, env);
      if env.batch.BatchTore? {
        TornDescribes(ready.writer, env.batch.left);
        SameDescribes(Torn(ready.writer, env.batch.left), Written(c, w, b, env).writer);
      }
      SameDescribes(ready.writer, Written(c, w, b, env).writer);
    }
  }

  lemma AppendedDescribes(w: Writer, b: Batch, env: WriteEnv)
    requires SelfDescribing(w) && Takes(w, b, env) && MetadataIfNeeded(w, env.meta).writer.active.Some?
    ensures SelfDescribing(Appended(MetadataIfNeeded(w, env.meta).writer, b))
  {
    MetadataDescribes(w, env.meta);
    DescribedAppend(MetadataIfNeeded(w, env.meta).writer.active.value.records, Data(b, w.metadata));
    hide Described, LastMeta;
  }

  lemma MaybeRotatedDescribes(c: Config, w: Writer, env: RotateEnv)
    requires SelfDescribing(w)
    ensures SelfDescribing(MaybeRotated(c, w, env).writer)
  {
    hide SelfDescribing, Rotated;
    RotatedDescribes(c, w, Overflow, env);
  }

  lemma TornDescribes(w: Writer, left: nat)
    requires SelfDescribing(w)
    ensures SelfDescribing(Torn(w, left))
  {
    if w.active.Some? {
      DescribedAppend(w.active.value.records, TornRecord(left));
    }
  }

  /** Offers and dropped events do not matter. */
  lemma SameDescribes(w: Writer, w': Writer)
    requires SelfDescribing(w)
    ensures w' == w.(offers := w'.offers, droppedEvents := w'.droppedEvents) ==> SelfDescribing(w')
  {
  }

  lemma CallDescribes(c: Config, w: Writer, call: Call)
    requires SelfDescribing(w)
    ensures SelfDescribing(After(c, w, call).writer)
  {
    match call
    case WriteCall(b, env) => WrittenDescribes(c, w, b, env);
    case DrainedCall(now, env) => RotatedDescribes(c, w, Drained, env);
    case UpdateCall(entries) =>
    case MetadataCall(write) => MetadataDescribes(w, write);
    case FinalizeCall(sealMeta, io) =>
      if w.active.Some? {
        FinalizedSeals(c, w, sealMeta, io);
        SealDescribes(w, Finalized(c, w, sealMeta, io).writer, Drained);
      }
  }

  // ----- All runs -----

  /** Stamps, indices, budget and metadata records hold after every sequence of calls. */
  lemma {:induction false} RunKeeps(
      c: Config, found: seq<ClosedFile>, first: nat, metadata: seq<Entry>, now: real, open: nat, calls: seq<Call>)
    requires !c.isDisk ==> found == []
    ensures var w := AfterAll(c, Created(c, found, first, metadata, now, open), calls);
      Chained(w) && InBudget(c, w) && SelfDescribing(w)
  {
    var start := Created(c, found, first, metadata, now, open);
    if |calls| == 0 {
      CreatedInBudget(c, found, first, metadata, now, open);
    } else {
      var last := |calls| - 1;
      RunKeeps(c, found, first, metadata, now, open, calls[..last]);
      CallChained(c, AfterAll(c, start, calls[..last]), calls[last]);
      CallInBudget(c, AfterAll(c, start, calls[..last]), calls[last]);
      CallDescribes(c, AfterAll(c, start, calls[..last]), calls[last]);
    }
  }

  // ----- The drain timer -----

  /** The rotation period of the current segment is over. */
  predicate RotationDue(w: Writer, now: real) {
    w.nextRotation.Some? && now >= w.nextRotation.value
  }

  /** What a failed or successful rotation leaves in the drain timer. */
  lemma RotatedTimer(c: Config, w: Writer, env: RotateEnv)
    requires w.active.Some?
    ensures var w' := Rotated(c, w, Drained, env).writer;
      w'.nextDrain == env.now + DrainInterval(w'.currentPeriod)
  {
    hide Adapt, NextRotation, DrainInterval, EvictCount, Total;
  }

  /**
   A drain that was due has been carried out and reported at `now`. However the report ended, no
   drain is due again within the drain interval, exactly if the writer was still active or its
   rotation was not due: a finished writer returns from the rotation without moving its timers.
   */
  lemma DrainPostponed(c: Config, w: Writer, before: real, now: real, env: RotateEnv)
    requires ShouldDrain(w, before) && before <= now <= env.now
    requires DrainInterval(AfterDrain(c, w, now, env).writer.currentPeriod) > 0.0
    ensures var w' := AfterDrain(c, w, now, env).writer;
      (forall t :: now <= t < now + DrainInterval(w'.currentPeriod) ==> !ShouldDrain(w', t))
      <==> (w.active.Some? || !RotationDue(w, now))
  {
    var w' := AfterDrain(c, w, now, env).writer;
    if w.active.Some? && RotationDue(w, now) {
      hide Rotated;
      RotatedTimer(c, w, env);
    } else if RotationDue(w, now) {
      assert w' == w && ShouldDrain(w', now);
    }
  }

  /** The writer after a due rotation failed to seal. */
  function FailedRotation(c: Config, w: Writer, now: real, sealMeta: RecordWrite, open: Option<nat>): Writer {
    AfterDrain(c, w, now, RotateEnv(now, sealMeta, IoError, open)).writer
  }

  /** A finished writer with its events flag set, past its rotation deadline, is always due and never moves. */
  lemma DueAndStuck(c: Config, w: Writer, now: real, sealMeta: RecordWrite, open: Option<nat>, later: real, env: RotateEnv)
    requires w.active.Some? && w.hasRealEvents && RotationDue(w, now)
    requires RotationDue(FailedRotation(c, w, now, sealMeta, open), later)
    ensures var failed := FailedRotation(c, w, now, sealMeta, open);
      && ShouldDrain(failed, later) && AfterDrain(c, failed, later, env) == Outcome(failed, true)
  {
    hide Adapt;
  }

  /**
   A rotation that failed to seal finishes the writer but keeps its events flag: once the next
   rotation deadline has passed, a drain is due at every instant, and however many are carried out
   and reported, nothing changes.
   */
  lemma {:induction false} FailedRotationDrainsForever(
      c: Config, w: Writer, now: real, sealMeta: RecordWrite, open: Option<nat>, calls: seq<Call>, later: real)
    requires w.active.Some? && w.hasRealEvents && RotationDue(w, now)
    requires forall i :: 0 <= i < |calls| ==>
      calls[i].DrainedCall? && RotationDue(FailedRotation(c, w, now, sealMeta, open), calls[i].now)
    requires RotationDue(FailedRotation(c, w, now, sealMeta, open), later)
    ensures var failed := FailedRotation(c, w, now, sealMeta, open);
      AfterAll(c, failed, calls) == failed && ShouldDrain(failed, later)
  {
    hide FailedRotation, RotationDue, ShouldDrain, AfterDrain;
    if |calls| == 0 {
      DueAndStuck(c, w, now, sealMeta, open, later, RotateEnv(later, sealMeta, IoError, open));
    } else {
      var last := calls[|calls| - 1];
      FailedRotationDrainsForever(c, w, now, sealMeta, open, calls[..|calls| - 1], later);
      DueAndStuck(c, w, now, sealMeta, open, last.now, last.rotate);
    }
  }
}
