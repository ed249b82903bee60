/**
 What a sequence of calls on a segment writer amounts to, told from the calls and the outcomes of
 their file operations: which segments are sealed, which files count towards the budget, and when
 the timers run out (dial9-core/src/buffer.rs).
 */
module SegmentHistory {
  import opened Wrappers
  import opened Collector
  import opened SegmentMetadata
  import opened Rotation
  import opened SegmentSpec
  import opened SegmentProofs

  // ----- One call -----

  /** How a call ends the active segment: as what, at which size, with which outcome, and whether the file is wanted. */
  datatype Ending = GoesOn | Ends(kind: SealKind, bytes: nat, io: IoResult, wanted: bool)

  /** The bytes a metadata record adds to the segment, whole or torn. */
  function RecordBytes(write: RecordWrite): nat {
    match write
    case Wrote(size) => size
    case Tore(left) => left
  }

  /** The size of the active segment `a` after a call's own records, before any stamp. */
  function Grown(a: Active, call: Call): nat {
    match call
    case WriteCall(b, env) =>
      var described := a.bytes + (if a.needMetadata then RecordBytes(env.meta) else 0);
      if (a.needMetadata && env.meta.Tore?) || |b.events| == 0 then described
      else described + (if env.batch.BatchWrote? then b.bytes else env.batch.left)
    case MetadataCall(write) => a.bytes + (if a.needMetadata then RecordBytes(write) else 0)
    case _ => a.bytes
  }

  /** The call puts a batch into the active segment `a`. */
  predicate Lands(a: Active, call: Call) {
    call.WriteCall? && |call.batch.events| > 0 && call.env.batch.BatchWrote? && (a.needMetadata ==> call.env.meta.Wrote?)
  }

  /** What matters about the time since the active segment was opened. */
  datatype Since = Since(written: bool, changed: bool, deadline: Option<real>, later: bool)

  /** A write ends a segment that outgrew the limit; a drain report, one with events past its deadline; finalizing, any. */
  function EndedBy(c: Config, active: Option<Active>, since: Since, call: Call): Ending {
    if active.None? then GoesOn
    else
      var bytes := Grown(active.value, call);
      match call
      case WriteCall(_, env) =>
        if Lands(active.value, call) && bytes > c.maxFileSize
        then Ends(Overflow, bytes + RecordBytes(env.rotate.sealMeta), env.rotate.seal, true)
        else GoesOn
      case DrainedCall(now, env) =>
        if since.written && since.deadline.Some? && since.deadline.value <= now
        then Ends(Drained, bytes + RecordBytes(env.sealMeta), env.seal, true)
        else GoesOn
      case FinalizeCall(sealMeta, io) =>
        Ends(Drained, bytes + RecordBytes(sealMeta), io, since.written || (since.changed && since.later))
      case _ => GoesOn
  }

  /** What the writer's fields say about the time since its active segment was opened. */
  function SinceOf(w: Writer): Since {
    Since(w.hasRealEvents, w.metadataChanged, w.nextRotation, w.nextIndex > 1)
  }

  /** How a call ends the active segment of a writer. */
  function EndingOf(c: Config, w: Writer, call: Call): Ending {
    EndedBy(c, w.active, SinceOf(w), call)
  }

  /** The file a segment of the given index leaves towards the byte budget: a wanted one, on disk, whose seal succeeded. */
  function FileOf(c: Config, ending: Ending, index: nat): seq<ClosedFile> {
    if c.isDisk && ending.Ends? && ending.wanted && ending.io == IoOk then [ClosedFile(index, ending.bytes)] else []
  }

  /** The files that count towards the budget or were evicted from it. */
  function Accounted(w: Writer): seq<ClosedFile> {
    w.evicted + w.closed
  }

  lemma EvictAccounts(c: Config, w: Writer)
    ensures Accounted(Evict(c, w)) == Accounted(w)
    ensures var w' := Evict(c, w); w' == w.(closed := w'.closed, evicted := w'.evicted, active := w'.active)
    ensures Evict(c, w).active == w.active || Evict(c, w).active == None
  {
    hide Total;
    if c.isDisk {
      var n := EvictCount(w.closed, ActiveBytes(w), c.maxTotalSize);
      assert w.closed == w.closed[..n] + w.closed[n..];
      assert w.evicted + w.closed[..n] + w.closed[n..] == w.evicted + (w.closed[..n] + w.closed[n..]);
    }
  }

  /** The log after an ending: one more entry, which says what became of the segment. */
  ghost predicate Logged(w: Writer, w': Writer, ending: Ending) {
    if ending.GoesOn? then w'.log == w.log && w'.sealedClean == w.sealedClean && w'.sealedUndrained == w.sealedUndrained
    else
      && |w'.log| == |w.log| + 1 && w'.log[..|w.log|] == w.log
      && (var e := w'.log[|w.log|];
          && e.index + 1 == w.nextIndex && e.bytes == ending.bytes && e.kind == ending.kind
          && (e.fate == Discarded <==> !ending.wanted)
          && (e.fate == Kept <==> ending.wanted && ending.io == IoOk)
          && (e.fate == Abandoned <==> ending.wanted && ending.io == IoNotFound)
          && (e.fate == Lost <==> ending.wanted && ending.io == IoError))
      && w'.sealedClean == w.sealedClean + (if ending.kind == Drained then 1 else 0)
      && w'.sealedUndrained == w.sealedUndrained + (if ending.kind == Overflow then 1 else 0)
  }

  /** From `w` to `w'` the segment went on or ended as said, and exactly its file joined the account. */
  ghost predicate Ended(c: Config, w: Writer, w': Writer, ending: Ending) {
    && Logged(w, w', ending)
    && (w.nextIndex >= 1 ==> Accounted(w') == Accounted(w) + FileOf(c, ending, w.nextIndex - 1))
  }

  /**
   A rotation: the file of the segment joins the account exactly if its seal returned `Ok`; one that
   disappeared or failed to seal does not. The next segment opens unless the seal or the open failed.
   */
  lemma RotationAccounts(c: Config, w: Writer, kind: SealKind, env: RotateEnv)
    requires w.active.Some? && w.nextIndex >= 1
    ensures Ended(c, w, Rotated(c, w, kind, env).writer,
      Ends(kind, w.active.value.bytes + RecordBytes(env.sealMeta), env.seal, true))
    ensures Rotated(c, w, kind, env).ok <==> env.seal != IoError && env.open.Some?
  {
    var sealed := SealedActive(c, w, kind, env);
    SealedActiveAccounts(c, w, kind, env);
    hide SealedActive, Evict;
    if env.seal != IoError && env.open.Some? {
      EvictAccounts(c, sealed.(nextIndex := sealed.nextIndex + 1).(
        active := Some(Active(env.open.value, env.open.value, true, [])), hasRealEvents := false, metadataChanged := false));
    }
  }

  /** Closing the active segment of a stamped and counted writer. */
  lemma ClosingAccounts(c: Config, w: Writer, stamped: Writer, entry: Sealed, ending: Ending)
    requires ending.Ends? && w.nextIndex >= 1
    requires stamped.log == w.log && Accounted(stamped) == Accounted(w)
    requires stamped.sealedClean == w.sealedClean + (if ending.kind == Drained then 1 else 0)
    requires stamped.sealedUndrained == w.sealedUndrained + (if ending.kind == Overflow then 1 else 0)
    requires entry.index + 1 == w.nextIndex && entry.bytes == ending.bytes && entry.kind == ending.kind
    requires entry.fate == if ending.wanted then FateOf(ending.io) else Discarded
    ensures Ended(c, w, Closed(c, stamped, entry), ending)
  {
    var file := [ClosedFile(entry.index, entry.bytes)];
    assert stamped.evicted + (stamped.closed + file) == (stamped.evicted + stamped.closed) + file;
  }

  lemma SealedActiveAccounts(c: Config, w: Writer, kind: SealKind, env: RotateEnv)
    requires w.active.Some? && w.nextIndex >= 1
    ensures Ended(c, w, SealedActive(c, w, kind, env),
      Ends(kind, w.active.value.bytes + RecordBytes(env.sealMeta), env.seal, true))
  {
    var stamped := SealMetadata(w, kind, env.sealMeta);
    var timed := Timed(c, CountSeal(stamped.(priorSeal := kind), kind), env.now);
    var ending := Ends(kind, w.active.value.bytes + RecordBytes(env.sealMeta), env.seal, true);
    hide Adapt, NextRotation, DrainInterval, Max, Closed, StampOf, FateOf, Ended;
    ClosingAccounts(c, w, timed, SealEntry(timed, kind, StampOf(w, kind, env.sealMeta), FateOf(env.seal)), ending);
  }

  lemma FinalSealedAccounts(c: Config, w: Writer, sealMeta: RecordWrite, io: IoResult)
    requires w.active.Some? && w.nextIndex >= 1
    ensures Ended(c, w, FinalSealed(c, w, sealMeta, io),
      Ends(Drained, w.active.value.bytes + RecordBytes(sealMeta), io, w.hasRealEvents || (w.metadataChanged && w.nextIndex > 1)))
  {
    var stamped := CountSeal(SealMetadata(w, Drained, sealMeta), Drained);
    var wanted := w.hasRealEvents || (w.metadataChanged && w.nextIndex > 1);
    var ending := Ends(Drained, w.active.value.bytes + RecordBytes(sealMeta), io, wanted);
    hide Closed, StampOf, FateOf, Ended;
    ClosingAccounts(c, w, stamped,
      SealEntry(stamped, Drained, StampOf(w, Drained, sealMeta), if wanted then FateOf(io) else Discarded), ending);
  }

  lemma FinalizeAccounts(c: Config, w: Writer, sealMeta: RecordWrite, io: IoResult)
    requires w.active.Some? && w.nextIndex >= 1
    ensures Ended(c, w, Finalized(c, w, sealMeta, io).writer,
      Ends(Drained, w.active.value.bytes + RecordBytes(sealMeta), io, w.hasRealEvents || (w.metadataChanged && w.nextIndex > 1)))
    ensures Finalized(c, w, sealMeta, io).ok <==> io != IoError
  {
    hide FinalSealed, Evict, Accounted, FileOf;
    FinalSealedAccounts(c, w, sealMeta, io);
    EvictAccounts(c, FinalSealed(c, w, sealMeta, io));
  }

  /** A finished writer neither rotates nor finalizes. */
  lemma FinishedStays(c: Config, w: Writer, kind: SealKind, env: RotateEnv, sealMeta: RecordWrite, io: IoResult)
    requires w.active.None?
    ensures Rotated(c, w, kind, env) == Outcome(w, true) && Finalized(c, w, sealMeta, io) == Outcome(w, true)
  {
  }

  /** A batch write that lands appends to the segment; otherwise the segment goes on. */
  lemma WriteEnds(c: Config, w: Writer, b: Batch, env: WriteEnv)
    requires w.active.Some? ==> w.nextIndex >= 1
    ensures Ended(c, w, Written(c, w, b, env).writer, EndingOf(c, w, WriteCall(b, env)))
    ensures EndingOf(c, w, WriteCall(b, env)).GoesOn? && w.active.Some? ==>
      && Written(c, w, b, env).writer.active.Some?
      && Written(c, w, b, env).writer.active.value.bytes == Grown(w.active.value, WriteCall(b, env))
  {
    hide Rotated;
    if Takes(w, b, env) {
      TakesMeans(c, w, b, env);
      var grown := Appended(MetadataIfNeeded(w, env.meta).writer, b);
      assert grown.active.value.bytes == Grown(w.active.value, WriteCall(b, env));
      RotationAccounts(c, grown, Overflow, env.rotate);
    } else {
      RefusedKeeps(c, w, b, env);
    }
  }

  /** Every call ends the segment, or lets it go on and grow, exactly as read off the call. */
  lemma CallEnds(c: Config, w: Writer, call: Call)
    requires w.active.Some? ==> w.nextIndex >= 1
    ensures Ended(c, w, After(c, w, call).writer, EndingOf(c, w, call))
    ensures EndingOf(c, w, call).GoesOn? && w.active.Some? ==>
      && After(c, w, call).writer.active.Some?
      && After(c, w, call).writer.active.value.bytes == Grown(w.active.value, call)
  {
    hide Rotated, Finalized, Written;
    match call
    case WriteCall(b, env) => WriteEnds(c, w, b, env);
    case DrainedCall(now, env) =>
      if w.active.Some? {
        RotationAccounts(c, w, Drained, env);
      } else {
        FinishedStays(c, w, Drained, env, env.sealMeta, env.seal);
      }
    case UpdateCall(entries) =>
    case MetadataCall(write) =>
    case FinalizeCall(sealMeta, io) =>
      if w.active.Some? {
        FinalizeAccounts(c, w, sealMeta, io);
      } else {
        FinishedStays(c, w, Drained, RotateEnv(0.0, sealMeta, io, None), sealMeta, io);
      }
  }

  /** Metadata is written once: it is due after an update that changed it, until a call wrote it. */
  lemma MetadataDue(c: Config, w: Writer, call: Call)
    requires w.active.Some? && EndingOf(c, w, call).GoesOn?
    ensures After(c, w, call).writer.active.Some?
    ensures After(c, w, call).writer.active.value.needMetadata <==>
      || (call.UpdateCall? && Merged(w.metadata, call.entries) != w.metadata)
      || (w.active.value.needMetadata
          && (call.WriteCall? ==> call.env.meta.Tore?) && (call.MetadataCall? ==> call.write.Tore?))
  {
    hide Rotated, Merged;
    if call.WriteCall? {
      var b, env := call.batch, call.env;
      if Takes(w, b, env) {
        TakesMeans(c, w, b, env);
      } else {
        RefusedKeeps(c, w, b, env);
      }
    }
  }

  // ----- All runs -----

  /** What has happened to a writer, told from its calls. */
  datatype History = History(
    ended: nat,
    drained: nat,
    files: seq<ClosedFile>,
    written: bool,
    changed: bool,
    openedAt: real,
    drainedAt: real,
    closings: seq<Closing>)

  /** The rotation period after the given segments were closed. */
  function PeriodIn(c: Config, h: History): real {
    PeriodAfter(c, FirstPeriod(c), h.closings)
  }

  /** The same as `SinceOf`, from the history of a writer whose first segment has index `first`. */
  function SinceIn(c: Config, first: nat, h: History): Since {
    Since(h.written, h.changed,
      if PeriodIn(c, h) == MAX_DURATION then None else Some(h.openedAt + PeriodIn(c, h)),
      first + h.ended > 0)
  }

  function RotateTime(call: Call): real {
    match call
    case WriteCall(_, env) => env.rotate.now
    case DrainedCall(_, env) => env.now
    case _ => 0.0
  }

  /** The time a segment was open when it was sealed. */
  function Elapsed(h: History, at: real): real {
    if at <= h.openedAt then 0.0 else at - h.openedAt
  }

  /** One more call on a writer with the given active segment and metadata. */
  function Noted(c: Config, first: nat, h: History, active: Option<Active>, metadata: seq<Entry>, call: Call): History {
    var ending := EndedBy(c, active, SinceIn(c, first, h), call);
    if ending.GoesOn? then
      h.(written := h.written || (active.Some? && Lands(active.value, call)),
         changed := h.changed || (call.UpdateCall? && Merged(metadata, call.entries) != metadata),
         drainedAt := if call.DrainedCall? && h.written then call.now else h.drainedAt)
    else
      var at := RotateTime(call);
      History(
        h.ended + 1,
        h.drained + (if ending.kind == Drained then 1 else 0),
        h.files + FileOf(c, ending, first + h.ended),
        false, false, at, at,
        h.closings + [Closing(ending.bytes, Elapsed(h, at))])
  }

  /** The history of a sequence of calls on a writer opened at `now`. */
  function HistoryOf(c: Config, first: nat, now: real, start: Writer, calls: seq<Call>): History {
    if |calls| == 0 then History(0, 0, [], false, false, now, now, [])
    else
      var last := |calls| - 1;
      var w := AfterAll(c, start, calls[..last]);
      Noted(c, first, HistoryOf(c, first, now, start, calls[..last]), w.active, w.metadata, calls[last])
  }

  /** The timers of a writer are those of its history. */
  ghost predicate TimersTold(c: Config, w: Writer, h: History) {
    var period := PeriodIn(c, h);
    && w.currentPeriod == period && w.segmentStartedAt == h.openedAt
    && w.nextRotation == (if period == MAX_DURATION then None else Some(h.openedAt + period))
    && w.nextDrain == h.drainedAt + (if period <= 30.0 then period else 30.0)
  }

  /**
   Every ended segment is in the log under the next index and counted by its kind; the files that
   count or were evicted are those found at start and then those of the wanted segments whose seal
   returned `Ok`.
   */
  ghost predicate EndingsTold(found: seq<ClosedFile>, first: nat, w: Writer, h: History) {
    && |w.log| == h.ended && (forall i :: 0 <= i < |w.log| ==> w.log[i].index == first + i)
    && w.sealedClean == h.drained && w.sealedClean + w.sealedUndrained == h.ended
    && Accounted(w) == found + h.files
  }

  /** While the writer is active, its flags and timers are those of the active segment. */
  ghost predicate ActiveTold(c: Config, first: nat, w: Writer, h: History) {
    w.active.Some? ==>
      && w.nextIndex == first + h.ended + 1
      && w.hasRealEvents == h.written && w.metadataChanged == h.changed
      && TimersTold(c, w, h)
  }

  /** The writer is what its history says. */
  ghost predicate Told(c: Config, found: seq<ClosedFile>, first: nat, w: Writer, h: History) {
    EndingsTold(found, first, w, h) && ActiveTold(c, first, w, h)
  }

  /** A drain is due exactly if a batch landed in the active segment and 30 seconds, or a shorter period, have passed. */
  lemma DueTold(c: Config, first: nat, w: Writer, h: History, at: real)
    requires w.active.Some? && ActiveTold(c, first, w, h)
    ensures ShouldDrain(w, at) <==>
      h.written && h.drainedAt + (if PeriodIn(c, h) <= 30.0 then PeriodIn(c, h) else 30.0) <= at
  {
    hide PeriodIn;
  }

  /** A rotation that leaves a segment open has restarted its flags and timers. */
  lemma RotatedAnew(c: Config, w: Writer, kind: SealKind, env: RotateEnv)
    requires w.active.Some? && Rotated(c, w, kind, env).writer.active.Some?
    ensures var w' := Rotated(c, w, kind, env).writer;
      && w'.nextIndex == w.nextIndex + 1 && !w'.hasRealEvents && !w'.metadataChanged
      && w'.segmentStartedAt == env.now
      && w'.currentPeriod == Adapt(c, w.currentPeriod, w.active.value.bytes + RecordBytes(env.sealMeta), Max(0.0, env.now - w.segmentStartedAt))
      && w'.nextRotation == (if w'.currentPeriod == MAX_DURATION then None else Some(env.now + w'.currentPeriod))
      && w'.nextDrain == env.now + (if w'.currentPeriod <= 30.0 then w'.currentPeriod else 30.0)
  {
    hide Adapt, Evict;
    if env.open.Some? {
      var sealed := SealedActive(c, w, kind, env);
      EvictAccounts(c, sealed.(nextIndex := sealed.nextIndex + 1).(
        active := Some(Active(env.open.value, env.open.value, true, [])), hasRealEvents := false, metadataChanged := false));
    }
  }

  /** A call that ends the segment and leaves another open is a rotation at its size. */
  lemma EndsByRotation(c: Config, w: Writer, call: Call) returns (grown: Writer, env: RotateEnv)
    requires w.active.Some? && EndingOf(c, w, call).Ends? && !call.FinalizeCall?
    ensures grown.active.Some? && grown.active.value.bytes == Grown(w.active.value, call)
    ensures grown == w.(active := grown.active, offers := grown.offers, hasRealEvents := grown.hasRealEvents)
    ensures env.now == RotateTime(call)
    ensures grown.active.value.bytes + RecordBytes(env.sealMeta) == EndingOf(c, w, call).bytes
    ensures After(c, w, call) == Rotated(c, grown, EndingOf(c, w, call).kind, env)
  {
    hide Rotated;
    match call
    case WriteCall(b, e) =>
      TakesMeans(c, w, b, e);
      grown, env := Appended(MetadataIfNeeded(w, e.meta).writer, b), e.rotate;
    case DrainedCall(now, e) => grown, env := w, e;
  }

  /** Finalizing leaves no segment open, and nothing reopens a finished writer. */
  lemma FinishedForGood(c: Config, w: Writer, call: Call)
    requires w.active.None? || call.FinalizeCall?
    ensures After(c, w, call).writer.active.None?
  {
    hide Adapt;
  }

  /** A call that lets the segment go on changes flags and timers as noted. */
  lemma GoesOnTold(c: Config, w: Writer, call: Call)
    requires w.active.Some? && EndingOf(c, w, call).GoesOn?
    ensures var w' := After(c, w, call).writer;
      && w'.nextIndex == w.nextIndex
      && w'.hasRealEvents == (w.hasRealEvents || Lands(w.active.value, call))
      && w'.metadataChanged == (w.metadataChanged || (call.UpdateCall? && Merged(w.metadata, call.entries) != w.metadata))
      && w'.segmentStartedAt == w.segmentStartedAt && w'.currentPeriod == w.currentPeriod && w'.nextRotation == w.nextRotation
      && w'.nextDrain == (if call.DrainedCall? && w.hasRealEvents
                          then call.now + (if w.currentPeriod <= 30.0 then w.currentPeriod else 30.0)
                          else w.nextDrain)
  {
    hide Rotated;
    if call.WriteCall? {
      var b, env := call.batch, call.env;
      if Takes(w, b, env) {
        TakesMeans(c, w, b, env);
      } else {
        RefusedKeeps(c, w, b, env);
      }
    }
  }

  lemma LogGrows(first: nat, w: Writer, w': Writer, ending: Ending)
    requires Logged(w, w', ending) && (ending.Ends? ==> w.nextIndex == first + |w.log| + 1)
    requires forall i :: 0 <= i < |w.log| ==> w.log[i].index == first + i
    ensures forall i :: 0 <= i < |w'.log| ==> w'.log[i].index == first + i
  {
    if ending.Ends? {
      forall i | 0 <= i < |w.log|
        ensures w'.log[i] == w.log[i]
      {
        assert w'.log[..|w.log|][i] == w'.log[i];
      }
    }
  }

  /** One more closing adapts the period once more. */
  lemma PeriodAdapts(c: Config, h: History, h': History, closing: Closing)
    requires h'.closings == h.closings + [closing]
    ensures PeriodIn(c, h') == Adapt(c, PeriodIn(c, h), closing.bytes, closing.elapsed)
  {
    assert h'.closings[..|h.closings|] == h.closings;
  }

  lemma SameSince(c: Config, first: nat, w: Writer, h: History)
    requires ActiveTold(c, first, w, h) && w.active.Some?
    ensures SinceOf(w) == SinceIn(c, first, h)
  {
    hide PeriodIn;
  }

  lemma EndingsGrow(c: Config, found: seq<ClosedFile>, first: nat, w: Writer, w': Writer, h: History, h': History, ending: Ending)
    requires EndingsTold(found, first, w, h) && Ended(c, w, w', ending)
    requires ending.Ends? ==> w.nextIndex == first + h.ended + 1
    requires h'.ended == h.ended + (if ending.Ends? then 1 else 0)
    requires h'.drained == h.drained + (if ending.Ends? && ending.kind == Drained then 1 else 0)
    requires h'.files == h.files + (if ending.Ends? then FileOf(c, ending, first + h.ended) else [])
    requires ending.GoesOn? ==> Accounted(w') == Accounted(w)
    ensures EndingsTold(found, first, w', h')
  {
    LogGrows(first, w, w', ending);
    hide FileOf, Accounted;
    if ending.Ends? {
      assert (found + h.files) + FileOf(c, ending, first + h.ended) == found + (h.files + FileOf(c, ending, first + h.ended));
    }
  }

  lemma FinishedAccounts(c: Config, w: Writer, call: Call)
    requires w.active.None?
    ensures Accounted(After(c, w, call).writer) == Accounted(w)
  {
    hide Adapt;
  }

  lemma CallEndingsTold(c: Config, found: seq<ClosedFile>, first: nat, w: Writer, h: History, call: Call)
    requires Told(c, found, first, w, h)
    ensures EndingsTold(found, first, After(c, w, call).writer, Noted(c, first, h, w.active, w.metadata, call))
  {
    if w.active.Some? {
      SameSince(c, first, w, h);
    } else {
      FinishedAccounts(c, w, call);
    }
    var ending := EndingOf(c, w, call);
    assert w.active.None? ==> EndedBy(c, w.active, SinceIn(c, first, h), call) == GoesOn;
    hide EndedBy, Lands, After, SinceIn, SinceOf, EndingsTold, Accounted, Logged, TimersTold, FileOf, Elapsed, RotateTime, Merged;
    CallEnds(c, w, call);
    EndingsGrow(c, found, first, w, After(c, w, call).writer, h, Noted(c, first, h, w.active, w.metadata, call), ending);
  }

  lemma CallActiveTold(c: Config, first: nat, w: Writer, h: History, call: Call)
    requires ActiveTold(c, first, w, h)
    ensures ActiveTold(c, first, After(c, w, call).writer, Noted(c, first, h, w.active, w.metadata, call))
  {
    if w.active.None? || call.FinalizeCall? {
      FinishedForGood(c, w, call);
    } else if EndingOf(c, w, call).Ends? {
      EndsActiveTold(c, first, w, h, call);
    } else {
      SameSince(c, first, w, h);
      GoesOnTold(c, w, call);
      hide EndedBy, Lands, After, PeriodIn, Merged;
    }
  }

  /** `w'` has a new segment open since `at`, after one of `bytes` bytes. */
  ghost predicate Restarted(c: Config, w: Writer, w': Writer, bytes: nat, at: real) {
    && w'.nextIndex == w.nextIndex + 1 && !w'.hasRealEvents && !w'.metadataChanged
    && w'.segmentStartedAt == at
    && w'.currentPeriod == Adapt(c, w.currentPeriod, bytes, Max(0.0, at - w.segmentStartedAt))
    && w'.nextRotation == (if w'.currentPeriod == MAX_DURATION then None else Some(at + w'.currentPeriod))
    && w'.nextDrain == at + (if w'.currentPeriod <= 30.0 then w'.currentPeriod else 30.0)
  }

  lemma EndsRestarted(c: Config, w: Writer, call: Call)
    requires w.active.Some? && EndingOf(c, w, call).Ends? && !call.FinalizeCall?
    requires After(c, w, call).writer.active.Some?
    ensures Restarted(c, w, After(c, w, call).writer, EndingOf(c, w, call).bytes, RotateTime(call))
  {
    hide EndingOf, After, Rotated, Adapt;
    var grown, env := EndsByRotation(c, w, call);
    RotatedAnew(c, grown, EndingOf(c, w, call).kind, env);
  }

  lemma RestartTold(c: Config, first: nat, w: Writer, w': Writer, h: History, h': History, bytes: nat, at: real)
    requires w.nextIndex == first + h.ended + 1 && TimersTold(c, w, h)
    requires Restarted(c, w, w', bytes, at)
    requires h'.ended == h.ended + 1 && !h'.written && !h'.changed && h'.openedAt == at && h'.drainedAt == at
    requires h'.closings == h.closings + [Closing(bytes, Elapsed(h, at))]
    ensures ActiveTold(c, first, w', h')
  {
    hide Adapt, PeriodIn;
    assert Elapsed(h, at) == Max(0.0, at - w.segmentStartedAt);
    PeriodAdapts(c, h, h', Closing(bytes, Elapsed(h, at)));
  }

  lemma EndsActiveTold(c: Config, first: nat, w: Writer, h: History, call: Call)
    requires ActiveTold(c, first, w, h) && w.active.Some? && EndingOf(c, w, call).Ends? && !call.FinalizeCall?
    ensures ActiveTold(c, first, After(c, w, call).writer, Noted(c, first, h, w.active, w.metadata, call))
  {
    SameSince(c, first, w, h);
    var h' := Noted(c, first, h, w.active, w.metadata, call);
    var bytes, at := EndingOf(c, w, call).bytes, RotateTime(call);
    if After(c, w, call).writer.active.Some? {
      assert h'.closings == h.closings + [Closing(bytes, Elapsed(h, at))];
      hide EndedBy, After, TimersTold, Restarted, Elapsed, RotateTime, SinceIn, SinceOf;
      EndsRestarted(c, w, call);
      RestartTold(c, first, w, After(c, w, call).writer, h, h', bytes, at);
    }
  }

  lemma CallTold(c: Config, found: seq<ClosedFile>, first: nat, w: Writer, h: History, call: Call)
    requires Told(c, found, first, w, h)
    ensures Told(c, found, first, After(c, w, call).writer, Noted(c, first, h, w.active, w.metadata, call))
  {
    CallEndingsTold(c, found, first, w, h, call);
    hide EndingsTold, ActiveTold, Noted, After;
    CallActiveTold(c, first, w, h, call);
  }

  /** Every sequence of calls leaves the writer as its history says. */
  lemma {:induction false} RunTold(
      c: Config, found: seq<ClosedFile>, first: nat, metadata: seq<Entry>, now: real, open: nat, calls: seq<Call>)
    ensures var start := Created(c, found, first, metadata, now, open);
      Told(c, found, first, AfterAll(c, start, calls), HistoryOf(c, first, now, start, calls))
  {
    var start := Created(c, found, first, metadata, now, open);
    if |calls| == 0 {
      CreatedTold(c, found, first, metadata, now, open);
    } else {
      var last := |calls| - 1;
      RunTold(c, found, first, metadata, now, open, calls[..last]);
      hide Told, After, Noted, Created;
      CallTold(c, found, first, AfterAll(c, start, calls[..last]), HistoryOf(c, first, now, start, calls[..last]), calls[last]);
    }
  }

  lemma CreatedTold(c: Config, found: seq<ClosedFile>, first: nat, metadata: seq<Entry>, now: real, open: nat)
    ensures Told(c, found, first, Created(c, found, first, metadata, now, open), History(0, 0, [], false, false, now, now, []))
  {
    var period := FirstPeriod(c);
    EvictAccounts(c, Writer(
      Some(Active(open, open, true, [])),
      found, first + 1, metadata, 0, 0, 0, false, false,
      period, now, NextRotation(now, period), now + DrainInterval(period), Drained,
      [], found, [], []));
    hide Evict;
  }

  /**
   After a write of a non-empty batch returned `Ok`, the active segment is within the file limit or
   was freshly opened by that call.
   */
  lemma WithinLimit(c: Config, w: Writer, b: Batch, env: WriteEnv)
    requires |b.events| > 0
    ensures var out := Written(c, w, b, env);
      out.ok && out.writer.active.Some? ==>
        || out.writer.active.value.bytes <= c.maxFileSize
        || (env.rotate.open.Some? && out.writer.active.value == Active(env.rotate.open.value, env.rotate.open.value, true, []))
  {
    hide SealedActive, Evict;
    if Takes(w, b, env) {
      TakesMeans(c, w, b, env);
      var grown := Appended(MetadataIfNeeded(w, env.meta).writer, b);
      if grown.active.value.bytes > c.maxFileSize && env.rotate.open.Some? {
        var sealed := SealedActive(c, grown, Overflow, env.rotate);
        ReopenedKeeps(c, sealed.(nextIndex := sealed.nextIndex + 1), env.rotate.open.value);
      }
    }
  }

  // ----- What sealed segments hold -----

  /** Only the last segment, sealed by finalizing, may be without a batch. */
  ghost predicate Filled(w: Writer) {
    forall i :: 0 <= i < |w.log| && (i + 1 < |w.log| || w.active.Some?) ==> DataOf(w.log[i].records) != []
  }

  lemma RotatedFills(c: Config, w: Writer, kind: SealKind, env: RotateEnv)
    requires w.active.Some? && ActiveData(w) != [] && Filled(w)
    ensures Filled(Rotated(c, w, kind, env).writer)
  {
    RotatedSeals(c, w, kind, env);
    var w' := Rotated(c, w, kind, env).writer;
    hide Rotated, DataOf;
    SealMoves(w, w', kind);
    forall i | 0 <= i < |w.log|
      ensures w'.log[i] == w.log[i]
    {
      assert w'.log[..|w.log|][i] == w'.log[i];
    }
  }

  lemma FinalizedFills(c: Config, w: Writer, sealMeta: RecordWrite, io: IoResult)
    requires w.active.Some? && Filled(w)
    ensures Filled(Finalized(c, w, sealMeta, io).writer)
  {
    FinalizedSeals(c, w, sealMeta, io);
    var w' := Finalized(c, w, sealMeta, io).writer;
    hide Finalized, DataOf;
    forall i | 0 <= i < |w.log|
      ensures w'.log[i] == w.log[i]
    {
      assert w'.log[..|w.log|][i] == w'.log[i];
    }
  }

  lemma WrittenFills(c: Config, w: Writer, b: Batch, env: WriteEnv)
    requires w.active.Some? && Filled(w)
    ensures Filled(Written(c, w, b, env).writer)
  {
    if Takes(w, b, env) {
      TakesMeans(c, w, b, env);
      var ready := MetadataIfNeeded(w, env.meta).writer;
      var grown := Appended(ready, b);
      DataOfAppend(ready.active.value.records, Data(b, ready.metadata));
      hide Rotated, DataOf, Written;
      assert Filled(grown) && ActiveData(grown) != [];
      hide Filled, ActiveData;
      RotatedFills(c, grown, Overflow, env.rotate);
    } else {
      RefusedKeeps(c, w, b, env);
      hide Written, DataOf;
    }
  }

  lemma CallFills(c: Config, w: Writer, call: Call)
    requires KeepsReal(w) && Filled(w)
    ensures Filled(After(c, w, call).writer)
  {
    if w.active.None? {
      FinishedForGood(c, w, call);
      UntouchedLog(c, w, call);
      hide After, DataOf;
    } else {
      hide Rotated, DataOf, Written, Finalized;
      match call
      case WriteCall(b, env) => WrittenFills(c, w, b, env);
      case DrainedCall(now, env) =>
        if w.hasRealEvents {
          RotatedFills(c, w, Drained, env);
        }
      case UpdateCall(entries) =>
      case MetadataCall(write) =>
      case FinalizeCall(sealMeta, io) => FinalizedFills(c, w, sealMeta, io);
    }
  }

  lemma UntouchedLog(c: Config, w: Writer, call: Call)
    requires w.active.None?
    ensures After(c, w, call).writer.log == w.log
  {
    hide Adapt;
  }

  /** Over every sequence of calls: a segment is rotated away only after a batch was written to it. */
  lemma {:induction false} RunFills(
      c: Config, found: seq<ClosedFile>, first: nat, metadata: seq<Entry>, now: real, open: nat, calls: seq<Call>)
    ensures Filled(AfterAll(c, Created(c, found, first, metadata, now, open), calls))
  {
    if |calls| != 0 {
      RunFills(c, found, first, metadata, now, open, calls[..|calls| - 1]);
      RunKeepsReal(c, found, first, metadata, now, open, calls[..|calls| - 1]);
      hide Filled, KeepsReal, After, Created;
      CallFills(c, AfterAll(c, Created(c, found, first, metadata, now, open), calls[..|calls| - 1]), calls[|calls| - 1]);
    }
  }
}
