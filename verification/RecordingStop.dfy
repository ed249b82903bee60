/** What the end of a shutdown leaves behind (dial9-core/src/recording.rs). */
module RecordingStop {
  import opened SegmentSpec
  import opened RecordingProtocol
  import opened RecordingRuns

  lemma OnlySameStop(s: Sys, s': Sys, t: nat)
    requires AgesOnly(s, s', t)
    ensures s'.stop == s.stop
  {
  }

  lemma ThreadSameStop(k: Settings, s: Sys, a: Action)
    requires k.capacity > 0 && ThreadEnabled(s, a)
    ensures ThreadApply(k, s, a).stop == s.stop
  {
    hide *;
    var t;
    if MayPush(a) {
      t := PushAges(k, s, a);
    } else {
      t := QuietAges(k, s, a);
    }
    OnlySameStop(s, ThreadApply(k, s, a), t);
  }

  lemma DrainSameStop(k: Settings, s: Sys)
    requires k.capacity > 0 && DrainEnabled(s)
    ensures DrainApply(k, s).stop == s.stop
  {
    if s.flusher.drain.at < |s.flusher.drain.handles| {
      hide *;
      DrainOnly(k, s);
      OnlySameStop(s, DrainApply(k, s), s.flusher.drain.handles[s.flusher.drain.at]);
    } else {
      hide Pruned, MidExit, FlushBuffer;
    }
  }

  lemma FlushSameStop(k: Settings, s: Sys, env: FlushEnv)
    requires k.capacity > 0 && FlushEnabled(s)
    ensures FlushApply(k, s, env).stop == s.stop
  {
    hide *;
    FlushOnly(k, s, env);
    OnlySameStop(s, FlushApply(k, s, env), FLUSH_THREAD);
  }

  lemma ControlStops(k: Settings, s: Sys, a: Action)
    requires k.capacity > 0 && ControlEnabled(s, a)
    ensures var s' := ControlApply(k, s, a);
      s'.stop.StopDone? ==> s.stop.StopDone? || (s'.phase == Stopped && s.flusher.Finished?)
  {
    hide FlushBuffer, Returned;
  }

  lemma LoopSameStop(s: Sys, a: Action)
    ensures a.Wake? ==> Woken(s, a.exit).stop == s.stop
    ensures a.Decide? && s.flusher.Deciding? ==> Decided(s, a.now, a.entries).stop == s.stop
    ensures a.Snapshot? && s.flusher.Snapshotting? ==> Snapshotted(s).stop == s.stop
  {
    hide Updated, ShouldDrain, Returned;
  }

  /** Only the end of a shutdown is its end, and it stops recording after the flush loop has finished. */
  lemma StopsOnce(k: Settings, s: Sys, a: Action)
    requires k.capacity > 0 && Allowed(s, a)
    ensures var s' := Next(k, s, a);
      s'.stop.StopDone? ==> s.stop.StopDone? || (s'.phase == Stopped && s.flusher.Finished?)
  {
    hide *;
    NextCases(k, s, a);
    if a.Wake? || a.Decide? || a.Snapshot? {
      LoopSameStop(s, a);
    } else if a.DrainNext? {
      DrainSameStop(k, s);
    } else if a.FlushNext? {
      FlushSameStop(k, s, a.env);
    } else if ThreadEnabled(s, a) {
      ThreadSameStop(k, s, a);
    } else {
      ControlStops(k, s, a);
    }
  }

  lemma RunStopsOnce(k: Settings, states: seq<Sys>, actions: seq<Action>, i: nat)
    requires Run(k, states, actions) && i < |actions|
    ensures i + 1 < |states| && (states[i + 1].stop.StopDone? ==> states[i].stop.StopDone? || states[i + 1].phase == Stopped)
  {
    hide Next, Allowed, Init;
    StopsOnce(k, states[i], actions[i]);
  }

  lemma RunStartsRunning(k: Settings, states: seq<Sys>, actions: seq<Action>)
    requires Run(k, states, actions)
    ensures |states| > 0 && states[0].stop == Running
  {
    hide Next, Allowed;
  }

  /** In every state of every run after a shutdown is done, recording is stopped. */
  lemma {:induction false} ShutdownStops(k: Settings, states: seq<Sys>, actions: seq<Action>, i: nat)
    requires Run(k, states, actions) && i < |states|
    ensures states[i].stop.StopDone? ==> states[i].phase == Stopped
  {
    hide *;
    RunLength(k, states, actions);
    if i == 0 {
      RunStartsRunning(k, states, actions);
    } else {
      ShutdownStops(k, states, actions, i - 1);
      RunStopsOnce(k, states, actions, i - 1);
      RunStep(k, states, actions, i - 1);
      if states[i - 1].stop.StopDone? {
        StaysStopped(states[i - 1], states[i]);
      }
    }
  }

  lemma StaysStopped(s: Sys, s': Sys)
    requires Ages(s, s') && s.phase == Stopped
    ensures s'.phase == Stopped
  {
  }
}
