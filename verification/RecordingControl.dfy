/** Lifecycle changes, new threads and the steps of a shutdown keep the invariant. */
module RecordingControl {
  import opened Collector
  import opened RecordingProtocol
  import opened RecordingInvariant
  import opened RecordingFrames
  import opened RecordingSteps

  // ----- Changes outside the threads -----

  /** States that differ in nothing the invariant speaks of beyond shutdown and eviction counts. */
  ghost predicate SameButStop(s: Sys, s': Sys) {
    && s'.threads == s.threads && s'.handles == s.handles && s'.pushed == s.pushed && s'.ring == s.ring
    && s'.removed == s.removed && SameLoop(s, s')
  }

  lemma SameButStopThread(s: Sys, s': Sys, t: nat)
    requires SameButStop(s, s') && t < |s.threads| && ThreadOk(s, t)
    ensures ThreadOk(s', t)
  {
    assert forall e, u :: Mark(s', e, u) == Mark(s, e, u);
  }

  lemma SameButStopKeeps(k: Settings, s: Sys, s': Sys)
    requires Inv(k, s) && SameButStop(s, s') && StopOk(s') && EvictionsOk(s')
    ensures Inv(k, s')
  {
    hide StopOk, EvictionsOk;
    assert ThreadOk(s, 0);
    assert forall e, t :: Mark(s', e, t) == Mark(s, e, t);
    forall t | 0 <= t < |s'.threads|
      ensures ThreadOk(s', t)
    {
      SameButStopThread(s, s', t);
    }
    FlushSame(s, s');
    NotesFrame(s, s');
    hide ThreadOk, NotesOk;
  }

  lemma FlushSame(s: Sys, s': Sys)
    requires FlushOk(s) && SameButStop(s, s')
    ensures FlushOk(s')
  {
  }

  // ----- New threads -----

  lemma {:induction false} NoEventsOf(batches: seq<Batch>, t: nat)
    requires forall i :: 0 <= i < |batches| ==> batches[i].thread != t
    ensures OfThread(batches, t) == []
  {
    if |batches| != 0 {
      NoEventsOf(batches[..|batches| - 1], t);
    }
  }

  lemma SpawnThreads(k: Settings, s: Sys)
    requires ThreadsOk(s) && RingOk(k, s)
    ensures ThreadsOk(s.(threads := s.threads + [NewThread(k)]))
  {
    var s' := s.(threads := s.threads + [NewThread(k)]);
    var n := |s.threads|;
    NoEventsOf(s.pushed, n);
    assert FirstEvents(n, 0) == [];
    assert forall e, t :: Mark(s', e, t) == Mark(s, e, t);
    forall t | 0 <= t < |s'.threads|
      ensures ThreadOk(s', t)
    {
      if t < n {
        assert ThreadOk(s, t);
      } else {
        assert KeepsEvents(s', n);
      }
    }
  }

  lemma SpawnKeeps(k: Settings, s: Sys)
    requires Inv(k, s)
    ensures Inv(k, s.(threads := s.threads + [NewThread(k)]))
  {
    var s' := s.(threads := s.threads + [NewThread(k)]);
    PartsOf(k, s);
    hide *;
    SpawnThreads(k, s);
    SpawnNotes(k, s);
    SpawnRest(k, s);
    FromParts(k, s');
  }

  lemma SpawnRest(k: Settings, s: Sys)
    requires RingOk(k, s) && DrainOk(s) && FlushOk(s) && StopOk(s) && EvictionsOk(s) && WriterOk(s)
    requires |s.threads| > 0 && |s.marks| == s.drainEpoch + 1
    requires forall e :: 0 <= e < |s.marks| ==> |s.marks[e]| <= |s.threads|
    ensures var s' := s.(threads := s.threads + [NewThread(k)]);
      RingOk(k, s') && DrainOk(s') && FlushOk(s') && StopOk(s') && EvictionsOk(s') && WriterOk(s')
  {
    var s' := s.(threads := s.threads + [NewThread(k)]);
    assert s'.threads[..|s.threads|] == s.threads;
    assert forall e, t :: Mark(s', e, t) == Mark(s, e, t);
    assert forall t: nat :: t == |s.threads| ==> Mark(s, s.drainEpoch, t) == 0;
    assert EvictionsOk(s') && WriterOk(s') && RingOk(k, s');
    hide EvictionsOk, WriterOk, RingOk;
    assert StopOk(s') && DrainOk(s');
  }

  lemma SpawnNotes(k: Settings, s: Sys)
    requires ThreadsOk(s) && NotesOk(s)
    ensures NotesOk(s.(threads := s.threads + [NewThread(k)]))
    ensures |s.threads| > 0 && |s.marks| == s.drainEpoch + 1
    ensures forall e :: 0 <= e < |s.marks| ==> |s.marks[e]| <= |s.threads|
  {
    var s' := s.(threads := s.threads + [NewThread(k)]);
    hide NotesOk;
    NotesFrame(s, s');
  }

  // ----- Shutdown -----

  lemma BeginStopOk(k: Settings, s: Sys, t: nat)
    requires Inv(k, s) && ControlEnabled(s, BeginStop(t))
    ensures Inv(k, ControlApply(k, s, BeginStop(t)))
  {
    var s' := ControlApply(k, s, BeginStop(t));
    assert StopOk(s') && EvictionsOk(s');
    hide Inv, StopOk, EvictionsOk;
    SameButStopKeeps(k, s, s');
  }

  lemma ProgressSame(k: Settings, s: Sys, a: Action)
    requires k.capacity > 0 && ControlEnabled(s, a)
    requires a == LoseSenders || a == CountCaller || a == SendStop || a == FinishStop
    ensures SameButStop(s, ControlApply(k, s, a))
  {
  }

  lemma ProgressKeeps(k: Settings, s: Sys, a: Action)
    requires Inv(k, s) && ControlEnabled(s, a)
    requires a == LoseSenders || a == CountCaller || a == SendStop || a == FinishStop
    requires StopOk(ControlApply(k, s, a)) && EvictionsOk(ControlApply(k, s, a))
    ensures Inv(k, ControlApply(k, s, a))
  {
    hide *;
    PartsOf(k, s);
    ProgressSame(k, s, a);
    SameButStopKeeps(k, s, ControlApply(k, s, a));
  }

  lemma ProgressOk(k: Settings, s: Sys, a: Action)
    requires k.capacity > 0 && StopOk(s) && EvictionsOk(s) && ControlEnabled(s, a)
    requires a == LoseSenders || a == CountCaller || a == SendStop || a == FinishStop
    ensures StopOk(ControlApply(k, s, a)) && EvictionsOk(ControlApply(k, s, a))
  {
    var s' := ControlApply(k, s, a);
    assert forall e, t :: Mark(s', e, t) == Mark(s, e, t);
    assert EvictionsOk(s');
    hide EvictionsOk, FlushBuffer, Mark;
  }

  /** Draining the caller's own buffer leaves the caller in order. */
  lemma CallerPushOk(k: Settings, s: Sys, t: nat)
    requires Facts(k, s, t) && s.threads[t].pc == Idle && !DrainHoldsLock(s, t)
    ensures ThreadOk(FlushBuffer(k, s, t), t) && Moves(s, FlushBuffer(k, s, t), t)
    ensures Flushed(FlushBuffer(k, s, t).threads[t]) == s.threads[t].recorded
  {
    var s' := FlushBuffer(k, s, t);
    PushKeepsEvents(k, s, t);
    OwnBuffer(s, t);
    assert KeepsEvents(s', t);
    assert forall e :: Mark(s', e, t) == Mark(s, e, t);
  }

  lemma DrainCallerPushes(k: Settings, s: Sys, t: nat)
    requires Facts(k, s, t) && StopOk(s) && s.stop == StopDraining(t) && t != FLUSH_THREAD
    requires s.threads[t].pc == Idle && !DrainHoldsLock(s, t)
    ensures var s' := FlushBuffer(k, s, t).(stop := StopCounting(t, Full(k, s)));
      LoopStep(k, s, s', t) && StopOk(s') && EvictionsOk(s')
  {
    var pushed := FlushBuffer(k, s, t);
    var s' := pushed.(stop := StopCounting(t, Full(k, s)));
    CallerPushOk(k, s, t);
    assert ThreadOk(s', t) by {
      assert forall e :: Mark(s', e, t) == Mark(pushed, e, t);
    }
    FlagsUpdate(s.threads, t, s'.threads[t]);
    EvictionsPush(k, s, t);
  }

  lemma DrainCallerKeeps(k: Settings, s: Sys)
    requires Inv(k, s) && ControlEnabled(s, DrainCaller)
    ensures Inv(k, ControlApply(k, s, DrainCaller))
  {
    var t := s.stop.caller;
    var s' := ControlApply(k, s, DrainCaller);
    InvFacts(k, s, t);
    if s.threads[t].events == [] {
      assert StopOk(s') && EvictionsOk(s');
      hide Inv, StopOk, EvictionsOk, Facts;
      SameButStopKeeps(k, s, s');
    } else {
      CallerIdle(k, s);
      assert StopOk(s);
      hide Inv, StopOk, Facts, LoopStep, EvictionsOk;
      DrainCallerPushes(k, s, t);
      LoopFrame(k, s, s', t);
    }
  }

  /** The caller of a shutdown is outside any recording call, and is not the flush thread. */
  lemma CallerIdle(k: Settings, s: Sys)
    requires Inv(k, s) && s.stop.StopDraining?
    ensures s.stop.caller < |s.threads| && s.stop.caller != FLUSH_THREAD && s.threads[s.stop.caller].pc == Idle
  {
  }

  lemma PhaseOnly(k: Settings, s: Sys, a: Action)
    requires k.capacity > 0 && ControlEnabled(s, a)
    ensures a == Enable || a == Disable || a == FailForGood ==>
      ControlApply(k, s, a) == s.(phase := ControlApply(k, s, a).phase)
    ensures a == Spawn ==> ControlApply(k, s, a) == s.(threads := s.threads + [NewThread(k)])
  {
  }

  lemma ControlActionKeeps(k: Settings, s: Sys, a: Action)
    requires Inv(k, s) && ControlEnabled(s, a)
    ensures Inv(k, ControlApply(k, s, a))
  {
    PartsOf(k, s);
    hide *;
    ControlCases(s, a);
    PhaseOnly(k, s, a);
    if a == Enable || a == Disable || a == FailForGood {
      PhaseKeeps(k, s, ControlApply(k, s, a));
    } else if a == Spawn {
      SpawnKeeps(k, s);
    } else if a.BeginStop? {
      BeginStopOk(k, s, a.t);
    } else if a == DrainCaller {
      DrainCallerKeeps(k, s);
    } else {
      ProgressOk(k, s, a);
      ProgressKeeps(k, s, a);
    }
  }

  lemma ControlCases(s: Sys, a: Action)
    requires ControlEnabled(s, a)
    ensures a == Enable || a == Disable || a == FailForGood || a == Spawn || a.BeginStop? || a == DrainCaller
      || a == LoseSenders || a == CountCaller || a == SendStop || a == FinishStop
  {
  }

  /** The invariant does not depend on the lifecycle. */
  lemma PhaseKeeps(k: Settings, s: Sys, s': Sys)
    requires Inv(k, s) && s' == s.(phase := s'.phase)
    ensures Inv(k, s')
  {
    assert forall e, t :: Mark(s', e, t) == Mark(s, e, t);
    assert StopOk(s') && EvictionsOk(s');
    hide Inv, StopOk, EvictionsOk;
    SameButStopKeeps(k, s, s');
  }
}
