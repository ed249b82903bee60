/** The flush loop's wake-up, its epoch bump and its intrusive drain keep the invariant. */
module RecordingDrain {
  import opened Wrappers
  import opened Collector
  import opened SegmentMetadata
  import opened SegmentSpec
  import opened SegmentProofs
  import opened RecordingProtocol
  import opened RecordingInvariant
  import opened RecordingFrames
  import opened RecordingSteps

  // ----- Moves of the flush loop alone -----

  /** Only the flush loop's own position and settings differ. */
  ghost predicate SameData(s: Sys, s': Sys) {
    && s'.threads == s.threads && s'.handles == s.handles && s'.pushed == s.pushed && s'.ring == s.ring
    && s'.removed == s.removed && s'.marks == s.marks && s'.drainEpoch == s.drainEpoch && s'.missed == s.missed
    && s'.notes == s.notes && s'.writeFailed == s.writeFailed && s'.stop == s.stop && s'.stopMark == s.stopMark
    && s'.writer == s.writer
  }

  /** The drain let go of no reference. */
  ghost predicate KeepsArc(s: Sys, s': Sys) {
    forall t :: 0 <= t < |s.threads| && DrainHoldsArc(s, t) ==> DrainHoldsArc(s', t)
  }

  lemma ThreadsSame(s: Sys, s': Sys)
    requires ThreadsOk(s) && SameData(s, s') && KeepsArc(s, s')
    ensures ThreadsOk(s')
  {
    assert forall e, t :: Mark(s', e, t) == Mark(s, e, t);
    forall t | 0 <= t < |s'.threads|
      ensures ThreadOk(s', t)
    {
      assert ThreadOk(s, t);
    }
  }

  lemma PositionKeeps(k: Settings, s: Sys, s': Sys)
    requires Inv(k, s) && SameData(s, s') && KeepsArc(s, s') && !s'.flusher.Finished?
    requires DrainOk(s') && FlushOk(s') && StopOk(s') && EvictionsOk(s')
    ensures Inv(k, s')
  {
    hide DrainOk, FlushOk, StopOk, EvictionsOk, KeepsArc;
    ThreadsSame(s, s');
    NotesFrame(s, s');
  }

  lemma WokenKeeps(k: Settings, s: Sys, exit: bool)
    requires Inv(k, s) && WakeEnabled(s, exit)
    ensures Inv(k, Woken(s, exit))
  {
    var s' := Woken(s, exit);
    assert forall e, t :: Mark(s', e, t) == Mark(s, e, t);
    assert DrainOk(s') && FlushOk(s') && StopOk(s') && EvictionsOk(s') && KeepsArc(s, s');
    if s' != s {
      hide Inv, DrainOk, FlushOk, StopOk, EvictionsOk, KeepsArc;
      PositionKeeps(k, s, s');
    }
  }

  // ----- The epoch bump -----

  lemma BumpThreads(s: Sys)
    requires ThreadsOk(s) && !s.flusher.InDrain?
    ensures ThreadsOk(Bumped(s))
  {
    var s' := Bumped(s);
    forall t | 0 <= t < |s'.threads|
      ensures ThreadOk(s', t)
    {
      assert ThreadOk(s, t);
      assert forall e: nat :: e <= s.drainEpoch ==> Mark(s', e, t) == Mark(s, e, t);
      assert Mark(s', s'.drainEpoch, t) == s.threads[t].returned;
      assert EpochSound(s', t);
    }
  }

  lemma UpdatedKeepsWriter(s: Sys, entries: seq<Entry>)
    requires WriterOk(s)
    ensures var w := Updated(s.writer, entries);
      Conserved(w) && DropsCounted(w) && w.log == s.writer.log && w.offers == s.writer.offers
      && (s.writer.active.None? ==> w.active.None?)
  {
  }

  lemma DecidedStop(s: Sys, now: real, entries: seq<Entry>)
    requires StopOk(s) && ThreadsOk(s) && s.flusher.Deciding?
    ensures StopOk(Decided(s, now, entries))
  {
    var s' := Decided(s, now, entries);
    if s.flusher.exit {
      forall t: nat | t < |s.threads|
        ensures Mark(s', s'.drainEpoch, t) == s.threads[t].returned
      {
      }
    }
  }

  lemma DecidedRest(k: Settings, s: Sys, now: real, entries: seq<Entry>)
    requires FlushOk(s) && EvictionsOk(s) && RingOk(k, s) && s.flusher.Deciding?
    ensures var s' := Decided(s, now, entries);
      FlushOk(s') && EvictionsOk(s') && RingOk(k, s') && DrainOk(s')
  {
  }

  lemma DecidedKeeps(k: Settings, s: Sys, now: real, entries: seq<Entry>)
    requires Inv(k, s) && s.flusher.Deciding?
    ensures Inv(k, Decided(s, now, entries))
  {
    var s' := Decided(s, now, entries);
    UpdatedKeepsWriter(s, entries);
    DecidedRest(k, s, now, entries);
    DecidedStop(s, now, entries);
    BumpThreads(s);
    hide FlushOk, EvictionsOk, RingOk, DrainOk, StopOk;
    DecidedThreads(s, now, entries);
    hide ThreadsOk;
    assert WriterOk(s');
    DecidedNotes(k, s, now, entries);
  }

  lemma DecidedThreads(s: Sys, now: real, entries: seq<Entry>)
    requires ThreadsOk(s) && s.flusher.Deciding?
    ensures ThreadsOk(Decided(s, now, entries))
  {
    var s' := Decided(s, now, entries);
    BumpThreads(s);
    var base := if s'.drainEpoch == s.drainEpoch then s else Bumped(s);
    assert forall e, t :: Mark(s', e, t) == Mark(base, e, t);
    forall t | 0 <= t < |s'.threads|
      ensures ThreadOk(s', t)
    {
      assert ThreadOk(base, t);
    }
  }

  lemma DecidedNotes(k: Settings, s: Sys, now: real, entries: seq<Entry>)
    requires NotesOk(s) && s.flusher.Deciding? && ThreadsOk(s)
    ensures NotesOk(Decided(s, now, entries))
  {
    NotesFrame(s, Decided(s, now, entries));
  }

  // ----- The drain -----

  lemma SnapshottedKeeps(k: Settings, s: Sys)
    requires Inv(k, s) && s.flusher.Snapshotting?
    ensures Inv(k, Snapshotted(s))
  {
    var s' := Snapshotted(s);
    assert forall e, t :: Mark(s', e, t) == Mark(s, e, t);
    forall t | 0 < t < |s.threads| && Mark(s, s.drainEpoch, t) > 0 && Strong(s.threads[t])
      ensures t in s.handles
    {
      assert ThreadOk(s, t);
    }
    assert DrainOk(s') && FlushOk(s') && StopOk(s') && EvictionsOk(s') && KeepsArc(s, s');
    hide Inv, DrainOk, FlushOk, StopOk, EvictionsOk, KeepsArc;
    PositionKeeps(k, s, s');
  }

  /** Pruning keeps exactly the handles with a strong reference. */
  lemma {:induction false} PrunedKeeps(handles: seq<nat>, threads: seq<Thread>)
    requires forall i :: 0 <= i < |handles| ==> handles[i] < |threads|
    ensures forall t :: t in Pruned(handles, threads) <==> t in handles && Strong(threads[t])
  {
    if |handles| != 0 {
      PrunedKeeps(handles[..|handles| - 1], threads);
      assert handles == handles[..|handles| - 1] + [handles[|handles| - 1]];
    }
  }

  /**
   When the drain has gone through all its handles, every thread that it did not miss has had
   everything flushed that had been returned before the epoch began.
   */
  lemma DrainCompletes(k: Settings, s: Sys, t: nat)
    requires Inv(k, s) && s.flusher.InDrain? && s.flusher.drain.at == |s.flusher.drain.handles|
    requires 0 < t < |s.threads| && t !in MidExit(s.threads, s.drainEpoch)
    ensures Cleared(s, t)
  {
    assert ThreadOk(s, t);
    OwnBuffer(s, t);
    if Strong(s.threads[t]) {
      if Mark(s, s.drainEpoch, t) > 0 {
        assert t in s.flusher.drain.handles;
      }
    } else {
      assert Mark(s, s.drainEpoch, t) <= s.threads[t].returned;
    }
  }

  lemma DrainEndsLoop(k: Settings, s: Sys)
    requires Inv(k, s) && DrainEnabled(s) && s.flusher.drain.at >= |s.flusher.drain.handles|
    ensures var s' := DrainApply(k, s); FlushOk(s') && DrainOk(s')
  {
    var s' := DrainApply(k, s);
    assert forall e, t :: Mark(s', e, t) == Mark(s, e, t);
    forall t | 0 < t < |s.threads| && t !in s'.missed
      ensures Cleared(s', t)
    {
      DrainCompletes(k, s, t);
    }
    hide ThreadsOk, RingOk, WriterOk, StopOk, EvictionsOk, MidExit, Pruned;
  }

  lemma DrainEndsRest(k: Settings, s: Sys)
    requires k.capacity > 0 && DrainEnabled(s) && s.flusher.drain.at >= |s.flusher.drain.handles|
    requires RingOk(k, s) && WriterOk(s) && NotesOk(s) && StopOk(s) && EvictionsOk(s)
    ensures var s' := DrainApply(k, s); RingOk(k, s') && WriterOk(s') && NotesOk(s') && StopOk(s') && EvictionsOk(s')
  {
    var s' := DrainApply(k, s);
    assert forall e, t :: Mark(s', e, t) == Mark(s, e, t);
    hide MidExit, Pruned;
  }

  lemma DrainEnds(k: Settings, s: Sys)
    requires Inv(k, s) && DrainEnabled(s) && s.flusher.drain.at >= |s.flusher.drain.handles|
    ensures Inv(k, DrainApply(k, s))
  {
    hide *;
    PartsOf(k, s);
    DrainEndsThreads(k, s);
    DrainEndsLoop(k, s);
    DrainEndsRest(k, s);
    FromParts(k, DrainApply(k, s));
  }

  lemma DrainEndsThreads(k: Settings, s: Sys)
    requires ThreadsOk(s) && DrainOk(s) && DrainEnabled(s) && s.flusher.drain.at >= |s.flusher.drain.handles| && k.capacity > 0
    ensures ThreadsOk(DrainApply(k, s))
  {
    var s' := DrainApply(k, s);
    PrunedKeeps(s.handles, s.threads);
    assert forall i :: 0 <= i < |s'.handles| ==> s'.handles[i] in s'.handles;
    assert forall e, t :: Mark(s', e, t) == Mark(s, e, t);
    forall t | 0 <= t < |s'.threads|
      ensures ThreadOk(s', t)
    {
      assert ThreadOk(s, t);
    }
  }

  // ----- The drain at one handle -----

  /** The handle the drain is at. */
  predicate AtHandle(s: Sys, t: nat) {
    && s.flusher.InDrain? && s.flusher.drain.at < |s.flusher.drain.handles|
    && t == s.flusher.drain.handles[s.flusher.drain.at]
  }

  /** The drain changed the buffer it is at and took its next step. */
  ghost predicate DrainMoves(k: Settings, s: Sys, s': Sys, t: nat) {
    && AtHandle(s, t) && Progress(s, s', t) && PushesAtMost(k, s, s', t)
    && s'.flusher.InDrain? && s'.flusher.tick == s.flusher.tick
    && (OwnerHolds(s'.threads[t].pc) ==> OwnerHolds(s.threads[t].pc))
    && (s.threads[t].pc == Idle ==> s'.threads[t].pc == Idle)
    && s'.handles == s.handles && s'.marks == s.marks && s'.drainEpoch == s.drainEpoch && s'.missed == s.missed
    && s'.notes == s.notes && s'.writeFailed == s.writeFailed && s'.stop == s.stop && s'.stopMark == s.stopMark
    && s'.writer == s.writer
  }

  lemma DrainMovesRest(k: Settings, s: Sys, s': Sys, t: nat)
    requires FlushOk(s) && StopOk(s) && DrainMoves(k, s, s', t) && t != FLUSH_THREAD
    ensures FlushOk(s') && StopOk(s')
  {
    assert forall e, u :: Mark(s', e, u) == Mark(s, e, u);
  }

  lemma DrainMovesKeeps(k: Settings, s: Sys, s': Sys, t: nat)
    requires Inv(k, s) && DrainMoves(k, s, s', t) && t != FLUSH_THREAD
    requires ThreadOk(s', t) && DrainOk(s') && EvictionsOk(s')
    ensures Inv(k, s')
  {
    hide DrainOk, EvictionsOk, WriterOk;
    DrainMovesRest(k, s, s', t);
    hide FlushOk, StopOk;
    ThreadsFrame(k, s, s', t);
    RingFrame(k, s, s', t);
    NotesFrame(s, s');
    EvictionKeepsHanded(s.removed, s'.removed);
    SameWriter(k, s, s');
  }

  lemma SameWriter(k: Settings, s: Sys, s': Sys)
    requires WriterOk(s) && s'.writer == s.writer && s'.writeFailed == s.writeFailed && !s'.flusher.Finished?
    requires HandedTo(s'.removed, |s'.removed|) == HandedTo(s.removed, |s.removed|)
    ensures WriterOk(s')
  {
  }

  lemma CheckOk(k: Settings, s: Sys, t: nat)
    requires Facts(k, s, t) && DrainOk(s) && AtHandle(s, t) && s.flusher.step.Check? && DrainEnabled(s)
    ensures DrainOk(DrainApply(k, s))
  {
    var s' := DrainApply(k, s);
    assert forall e, u :: Mark(s', e, u) == Mark(s, e, u);
    if s.threads[t].flushEpoch >= s.flusher.drain.epoch {
      assert Cleared(s', t);
    }
  }

  lemma UpgradeOk(k: Settings, s: Sys, t: nat)
    requires Facts(k, s, t) && DrainOk(s) && AtHandle(s, t) && s.flusher.step.Upgrade? && DrainEnabled(s)
    ensures DrainOk(DrainApply(k, s))
  {
    var s' := DrainApply(k, s);
    assert ThreadOk(s, t);
    assert s' == GoTo(s, Lock) || (s' == Advance(s) && !Strong(s.threads[t]));
    hide DrainApply, FlushBuffer, Pruned, MidExit, KeepsEvents, EpochSound, Registered, EvictionsOk;
    assert forall e, u :: Mark(s', e, u) == Mark(s, e, u);
  }

  /** The drain steps that change no buffer. */
  predicate Looking(s: Sys, t: nat)
    requires t < |s.threads|
  {
    s.flusher.InDrain? &&
    (s.flusher.step.Check? || s.flusher.step.Upgrade? || s.flusher.step.Lock? || s.flusher.step.Count?
     || (s.flusher.step.Flush? && s.threads[t].events == []))
  }

  lemma LookingOk(k: Settings, s: Sys, t: nat)
    requires Facts(k, s, t) && DrainOk(s) && AtHandle(s, t) && DrainEnabled(s) && Looking(s, t)
    ensures DrainOk(DrainApply(k, s))
  {
    if s.flusher.step.Check? {
      hide *;
      CheckOk(k, s, t);
    } else if s.flusher.step.Upgrade? {
      hide *;
      UpgradeOk(k, s, t);
    } else {
      hide FlushBuffer, Facts, MidExit, Pruned;
      assert forall e, u :: Mark(DrainApply(k, s), e, u) == Mark(s, e, u);
    }
  }

  /** A move within a drain says nothing new about flush cycles and shutdown. */
  lemma WithinDrain(s: Sys, s': Sys)
    requires FlushOk(s) && StopOk(s) && SameData(s, s')
    requires s.flusher.InDrain? && s'.flusher.InDrain? && s'.flusher.tick == s.flusher.tick
    ensures FlushOk(s') && StopOk(s')
  {
    assert forall e, u :: Mark(s', e, u) == Mark(s, e, u);
  }

  lemma LookingData(k: Settings, s: Sys, t: nat)
    requires k.capacity > 0 && t < |s.threads| && AtHandle(s, t) && DrainEnabled(s) && Looking(s, t)
    ensures var s' := DrainApply(k, s);
      SameData(s, s') && s'.flusher.InDrain? && s'.flusher.tick == s.flusher.tick
  {
  }

  lemma LookingArc(k: Settings, s: Sys, t: nat)
    requires k.capacity > 0 && t < |s.threads| && AtHandle(s, t) && DrainEnabled(s) && Looking(s, t)
    ensures KeepsArc(s, DrainApply(k, s))
  {
    if !s.flusher.step.Check? && !s.flusher.step.Upgrade? {
      assert DrainApply(k, s).flusher.drain == s.flusher.drain;
    }
  }

  lemma LookingEvictions(k: Settings, s: Sys, t: nat)
    requires k.capacity > 0 && t < |s.threads| && AtHandle(s, t) && DrainEnabled(s) && Looking(s, t)
    requires EvictionsOk(s)
    ensures EvictionsOk(DrainApply(k, s))
  {
    var s' := DrainApply(k, s);
    if s.flusher.step.Count? {
      assert s' == GoTo(CountIf(s, s.flusher.step.evicted), Stamp);
    } else {
      assert s'.dropped == s.dropped && Uncounted(s') == Uncounted(s);
    }
  }

  lemma LookingRest(k: Settings, s: Sys, t: nat)
    requires k.capacity > 0 && FlushOk(s) && StopOk(s) && EvictionsOk(s) && t < |s.threads|
    requires AtHandle(s, t) && DrainEnabled(s) && Looking(s, t)
    ensures var s' := DrainApply(k, s);
      && SameData(s, s') && KeepsArc(s, s') && !s'.flusher.Finished?
      && FlushOk(s') && StopOk(s') && EvictionsOk(s')
  {
    hide FlushOk, StopOk, EvictionsOk, SameData, KeepsArc, DrainApply;
    LookingData(k, s, t);
    LookingArc(k, s, t);
    LookingEvictions(k, s, t);
    WithinDrain(s, DrainApply(k, s));
  }

  lemma LookingKeeps(k: Settings, s: Sys, t: nat)
    requires Inv(k, s) && AtHandle(s, t) && DrainEnabled(s) && t < |s.threads| && Looking(s, t)
    ensures Inv(k, DrainApply(k, s))
  {
    InvFacts(k, s, t);
    assert DrainOk(s) && FlushOk(s) && StopOk(s) && EvictionsOk(s);
    hide Inv, Facts, DrainOk, FlushOk, StopOk, EvictionsOk, SameData, KeepsArc, DrainApply;
    LookingOk(k, s, t);
    LookingRest(k, s, t);
    PositionKeeps(k, s, DrainApply(k, s));
  }

  /** Flushing the locked buffer. */
  lemma DrainFlushMoves(k: Settings, s: Sys, t: nat)
    requires Facts(k, s, t) && DrainOk(s) && AtHandle(s, t) && DrainEnabled(s)
    requires s.flusher.step.Flush? && s.threads[t].events != []
    ensures var s' := DrainApply(k, s);
      DrainMoves(k, s, s', t) && DrainOk(s') && s'.threads == s.threads[t := s'.threads[t]]
  {
    var s' := DrainApply(k, s);
    OwnBuffer(s, t);
    hide ThreadOk, EvictionsOk, KeepsEvents;
    assert forall e, u :: Mark(s', e, u) == Mark(s, e, u);
  }

  lemma DrainFlushThread(k: Settings, s: Sys, t: nat)
    requires Facts(k, s, t) && AtHandle(s, t) && DrainEnabled(s)
    requires s.flusher.step.Flush? && s.threads[t].events != []
    ensures ThreadOk(DrainApply(k, s), t) && EvictionsOk(DrainApply(k, s))
  {
    var s' := DrainApply(k, s);
    PushKeepsEvents(k, s, t);
    OwnBuffer(s, t);
    assert KeepsEvents(s', t);
    assert forall e, u :: Mark(s', e, u) == Mark(s, e, u);
    FlagsUpdate(s.threads, t, s'.threads[t]);
    EvictionsPush(k, s, t);
  }

  lemma DrainFlushOk(k: Settings, s: Sys, t: nat)
    requires Facts(k, s, t) && DrainOk(s) && AtHandle(s, t) && DrainEnabled(s)
    requires s.flusher.step.Flush? && s.threads[t].events != []
    ensures var s' := DrainApply(k, s);
      DrainMoves(k, s, s', t) && ThreadOk(s', t) && DrainOk(s') && EvictionsOk(s')
  {
    hide *;
    DrainFlushMoves(k, s, t);
    DrainFlushThread(k, s, t);
  }

  /** Stamping the flushed buffer with the drain's epoch, under its lock. */
  lemma DrainStampOk(k: Settings, s: Sys, t: nat)
    requires Facts(k, s, t) && DrainOk(s) && AtHandle(s, t) && DrainEnabled(s) && s.flusher.step.Stamp?
    ensures var s' := DrainApply(k, s);
      DrainMoves(k, s, s', t) && ThreadOk(s', t) && DrainOk(s') && EvictionsOk(s')
  {
    var s' := DrainApply(k, s);
    assert forall e, u :: Mark(s', e, u) == Mark(s, e, u);
    FlagsUpdate(s.threads, t, s'.threads[t]);
    assert ThreadOk(s', t) && EvictionsOk(s');
    hide ThreadOk, EvictionsOk, Facts;
  }

  /** The drain's current buffer is settled: the drain may go on to the next handle. */
  lemma AdvanceOk(s: Sys, s': Sys, t: nat)
    requires DrainOk(s) && AtHandle(s, t) && t < |s.threads| && s.flusher.step.Release?
    requires Cleared(s, t)
    requires s'.threads == s.threads || (t < |s.threads| && s'.threads == s.threads[t := s.threads[t].(pc := Dying)])
    requires s'.marks == s.marks && s'.drainEpoch == s.drainEpoch
    requires s'.flusher == Advance(s).flusher
    ensures DrainOk(s')
  {
    assert forall e, u :: Mark(s', e, u) == Mark(s, e, u);
  }

  lemma ReleaseMoves(k: Settings, s: Sys, t: nat)
    requires k.capacity > 0 && t < |s.threads|
    requires AtHandle(s, t) && DrainEnabled(s) && s.flusher.step.Release?
    ensures DrainMoves(k, s, DrainApply(k, s), t)
    ensures DrainApply(k, s).flusher == Advance(s).flusher
    ensures DrainApply(k, s).threads == s.threads || DrainApply(k, s).threads == s.threads[t := s.threads[t].(pc := Dying)]
    ensures s.threads[t].pc != HandedOver ==> DrainApply(k, s).threads == s.threads
    ensures DrainApply(k, s).stop == s.stop && DrainApply(k, s).dropped == s.dropped
    ensures DrainApply(k, s).marks == s.marks && DrainApply(k, s).drainEpoch == s.drainEpoch
    ensures DrainApply(k, s).taken == s.taken && DrainApply(k, s).removed == s.removed
  {
  }

  lemma ReleaseEvictions(k: Settings, s: Sys, t: nat)
    requires EvictionsOk(s) && k.capacity > 0 && t < |s.threads|
    requires AtHandle(s, t) && DrainEnabled(s) && s.flusher.step.Release?
    ensures EvictionsOk(DrainApply(k, s))
  {
    ReleaseMoves(k, s, t);
    hide DrainApply, DrainMoves;
    FlagsUpdate(s.threads, t, s.threads[t].(pc := Dying));
    assert s.threads[t].pc == HandedOver ==> ThreadFlag(s.threads[t]) == 0;
  }

  /** Releasing the lock and the reference; if the owner is gone its drop is now due. */
  lemma DrainReleaseOk(k: Settings, s: Sys, t: nat)
    requires Facts(k, s, t) && DrainOk(s) && AtHandle(s, t) && DrainEnabled(s) && s.flusher.step.Release?
    ensures var s' := DrainApply(k, s);
      DrainMoves(k, s, s', t) && ThreadOk(s', t) && DrainOk(s') && EvictionsOk(s')
  {
    assert s.threads[t].events == [] && Cleared(s, t);
    hide DrainOk, DrainMoves, DrainApply, EvictionsOk, ThreadOk;
    ReleaseMoves(k, s, t);
    ReleaseEvictions(k, s, t);
    ReleaseThread(k, s, t);
    AdvanceOk(s, DrainApply(k, s), t);
  }

  lemma ReleaseThread(k: Settings, s: Sys, t: nat)
    requires k.capacity > 0 && t < |s.threads| && ThreadOk(s, t)
    requires AtHandle(s, t) && DrainEnabled(s) && s.flusher.step.Release?
    ensures ThreadOk(DrainApply(k, s), t)
  {
    var s' := DrainApply(k, s);
    assert forall e, u :: Mark(s', e, u) == Mark(s, e, u);
    if s.threads[t].pc == HandedOver {
      assert s'.threads[t] == s.threads[t].(pc := Dying);
    } else {
      assert s'.threads == s.threads;
    }
  }

  lemma DrainActionKeeps(k: Settings, s: Sys)
    requires Inv(k, s) && DrainEnabled(s)
    ensures Inv(k, DrainApply(k, s))
  {
    if s.flusher.drain.at >= |s.flusher.drain.handles| {
      DrainEnds(k, s);
    } else {
      var t := s.flusher.drain.handles[s.flusher.drain.at];
      InvFacts(k, s, t);
      assert DrainOk(s) && t != FLUSH_THREAD;
      hide Inv, Facts, DrainOk, DrainApply, DrainMoves, ThreadOk, EvictionsOk;
      if Looking(s, t) {
        LookingKeeps(k, s, t);
      } else {
        match s.flusher.step
        case Flush => DrainFlushOk(k, s, t); DrainMovesKeeps(k, s, DrainApply(k, s), t);
        case Stamp => DrainStampOk(k, s, t); DrainMovesKeeps(k, s, DrainApply(k, s), t);
        case Release => DrainReleaseOk(k, s, t); DrainMovesKeeps(k, s, DrainApply(k, s), t);
      }
    }
  }
}
