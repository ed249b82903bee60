/**
 What a recording call does about its own buffer in every run: it is never left full, and a call
 that encodes after an epoch bump leaves its buffer flushed in that epoch or a later one.
 */
module RecordingCalls {
  import opened Collector
  import opened SegmentMetadata
  import opened SegmentSpec
  import opened RecordingProtocol
  import opened RecordingInvariant
  import opened RecordingRuns

  /** Outside the two positions between encoding and the test, a buffer with events is not full. */
  predicate Bounded(k: Settings, th: Thread) {
    th.pc.Encoded? || th.pc.Loaded? || th.events == [] || th.bytes < k.batchSize
  }

  /** The thread's buffer was flushed in the epoch or later, or its call has loaded such an epoch and not finished. */
  predicate Catches(th: Thread, drainEpoch: nat, epoch: nat) {
    || th.flushEpoch >= epoch
    || ((th.pc.Loaded? || th.pc.Pushed? || th.pc.Stamping?) && th.pc.current >= epoch)
    || (th.pc.Encoded? && drainEpoch >= epoch)
  }

  /** What a step must keep of thread `t`. */
  predicate Keeps(k: Settings, s: Sys, s': Sys, t: nat, epoch: nat)
    requires t < |s.threads|
  {
    && t < |s'.threads|
    && (Bounded(k, s.threads[t]) ==> Bounded(k, s'.threads[t]))
    && (Catches(s.threads[t], s.drainEpoch, epoch) ==> Catches(s'.threads[t], s'.drainEpoch, epoch))
  }

  /** A thread that is left alone, but for its position outside recording calls. */
  lemma SameThread(k: Settings, s: Sys, s': Sys, t: nat, epoch: nat)
    requires t < |s.threads| && t < |s'.threads| && s'.drainEpoch >= s.drainEpoch
    requires s'.threads[t] == s.threads[t]
    ensures Keeps(k, s, s', t, epoch)
  {
  }

  lemma OwnPush(k: Settings, s: Sys, a: Action, epoch: nat)
    requires k.capacity > 0 && ThreadEnabled(s, a) && MayPush(a) && ThreadOk(s, a.t)
    ensures Keeps(k, s, ThreadApply(k, s, a), a.t, epoch)
  {
    hide KeepsEvents, Registered, ForcePushed, Full;
  }

  lemma OwnQuiet(k: Settings, s: Sys, a: Action, epoch: nat)
    requires k.capacity > 0 && ThreadEnabled(s, a) && !MayPush(a) && ThreadOk(s, a.t)
    ensures Keeps(k, s, ThreadApply(k, s, a), a.t, epoch)
  {
    hide KeepsEvents, Registered, FlushBuffer;
  }

  lemma OwnStep(k: Settings, s: Sys, a: Action, t: nat, epoch: nat)
    requires k.capacity > 0 && t < |s.threads| && ThreadOk(s, t) && ThreadEnabled(s, a) && a.t == t
    ensures Keeps(k, s, ThreadApply(k, s, a), t, epoch)
  {
    hide *;
    if MayPush(a) {
      OwnPush(k, s, a, epoch);
    } else {
      OwnQuiet(k, s, a, epoch);
    }
  }

  lemma OthersStep(k: Settings, s: Sys, a: Action, t: nat, epoch: nat)
    requires k.capacity > 0 && t < |s.threads| && ThreadEnabled(s, a)
    requires AgesOnly(s, ThreadApply(k, s, a), a.t) && a.t != t
    ensures Keeps(k, s, ThreadApply(k, s, a), t, epoch)
  {
    hide ThreadApply, ThreadEnabled, NotesAge;
    SameThread(k, s, ThreadApply(k, s, a), t, epoch);
  }

  lemma OwnAges(k: Settings, s: Sys, a: Action)
    requires k.capacity > 0 && ThreadEnabled(s, a)
    ensures AgesOnly(s, ThreadApply(k, s, a), a.t)
  {
    hide *;
    var t;
    if MayPush(a) {
      t := PushAges(k, s, a);
    } else {
      t := QuietAges(k, s, a);
    }
  }

  lemma ThreadStep(k: Settings, s: Sys, a: Action, t: nat, epoch: nat)
    requires k.capacity > 0 && t < |s.threads| && ThreadOk(s, t) && ThreadEnabled(s, a)
    ensures Keeps(k, s, ThreadApply(k, s, a), t, epoch)
  {
    hide ThreadApply, ThreadOk, Keeps, AgesOnly;
    OwnAges(k, s, a);
    if a.t == t {
      OwnStep(k, s, a, t, epoch);
    } else {
      OthersStep(k, s, a, t, epoch);
    }
  }

  lemma ControlStep(k: Settings, s: Sys, a: Action, t: nat, epoch: nat)
    requires k.capacity > 0 && t < |s.threads| && ControlEnabled(s, a)
    ensures Keeps(k, s, ControlApply(k, s, a), t, epoch)
  {
    hide ForcePushed, Full, Returned;
  }

  lemma DrainFlushes(k: Settings, s: Sys, t: nat, epoch: nat)
    requires k.capacity > 0 && t < |s.threads| && ThreadOk(s, t) && DrainOk(s) && DrainEnabled(s) && s.flusher.step.Flush?
    ensures Keeps(k, s, DrainApply(k, s), t, epoch)
  {
    hide Pruned, MidExit, KeepsEvents, Registered, ForcePushed, Full;
  }

  /** What the other steps of a drain do to a thread: nothing, the stamp, or letting go of its last reference. */
  predicate Left(s: Sys, before: Thread, after: Thread) {
    || after == before
    || (s.flusher.InDrain? && s.flusher.step.Stamp? && after == before.(flushEpoch := s.flusher.drain.epoch))
    || (before.pc == HandedOver && after == before.(pc := Dying))
  }

  lemma DrainLeavesOwn(k: Settings, s: Sys)
    requires k.capacity > 0 && DrainEnabled(s) && !s.flusher.step.Flush? && s.flusher.drain.at < |s.flusher.drain.handles|
    ensures var t := s.flusher.drain.handles[s.flusher.drain.at];
      t < |DrainApply(k, s).threads| && Left(s, s.threads[t], DrainApply(k, s).threads[t])
  {
    hide Pruned, MidExit, FlushBuffer;
  }

  lemma DrainEnds(k: Settings, s: Sys)
    requires k.capacity > 0 && DrainEnabled(s) && s.flusher.drain.at >= |s.flusher.drain.handles|
    ensures DrainApply(k, s).threads == s.threads && DrainApply(k, s).drainEpoch == s.drainEpoch
  {
    hide Pruned, MidExit, FlushBuffer;
  }

  lemma DrainLeaves(k: Settings, s: Sys, t: nat)
    requires k.capacity > 0 && t < |s.threads| && DrainEnabled(s) && !s.flusher.step.Flush?
    ensures var s' := DrainApply(k, s);
      && t < |s'.threads| && s'.drainEpoch == s.drainEpoch
      && (if s.flusher.drain.at < |s.flusher.drain.handles| && s.flusher.drain.handles[s.flusher.drain.at] == t
          then Left(s, s.threads[t], s'.threads[t])
          else s'.threads[t] == s.threads[t])
  {
    hide DrainApply, Left;
    if s.flusher.drain.at >= |s.flusher.drain.handles| {
      DrainEnds(k, s);
    } else {
      DrainOnly(k, s);
      DrainLeavesOwn(k, s);
    }
  }

  lemma DrainStep(k: Settings, s: Sys, t: nat, epoch: nat)
    requires k.capacity > 0 && t < |s.threads| && ThreadOk(s, t) && DrainOk(s) && DrainEnabled(s)
    ensures Keeps(k, s, DrainApply(k, s), t, epoch)
  {
    if s.flusher.step.Flush? {
      hide *;
      DrainFlushes(k, s, t, epoch);
    } else {
      hide DrainApply, DrainEnabled, KeepsEvents, Registered;
      DrainLeaves(k, s, t);
    }
  }

  lemma LoopStep(k: Settings, s: Sys, exit: bool, now: real, entries: seq<Entry>, t: nat, epoch: nat)
    requires t < |s.threads|
    ensures Keeps(k, s, Woken(s, exit), t, epoch)
    ensures s.flusher.Snapshotting? ==> Keeps(k, s, Snapshotted(s), t, epoch)
    ensures s.flusher.Deciding? ==> Keeps(k, s, Decided(s, now, entries), t, epoch)
  {
    hide Updated, ShouldDrain, Returned;
  }

  lemma FlushStep(k: Settings, s: Sys, env: FlushEnv, t: nat, epoch: nat)
    requires k.capacity > 0 && t < |s.threads| && FlushEnabled(s)
    ensures Keeps(k, s, FlushApply(k, s, env), t, epoch)
  {
    if s.flusher.action.DrainSelf? {
      hide ForcePushed, Full, PopNext, ClosedCycle;
    } else {
      hide FlushBuffer, Written, AfterDrain, Finalized, MetadataIfNeeded, Updated;
    }
  }

  lemma ThreadInOrder(k: Settings, s: Sys, t: nat)
    requires Inv(k, s) && t < |s.threads|
    ensures ThreadOk(s, t) && DrainOk(s)
  {
  }

  lemma NextKeepsCall(k: Settings, s: Sys, a: Action, t: nat, epoch: nat)
    requires Inv(k, s) && k.capacity > 0 && Allowed(s, a) && t < |s.threads|
    ensures Keeps(k, s, Next(k, s, a), t, epoch)
  {
    hide *;
    NextCases(k, s, a);
    ThreadInOrder(k, s, t);
    if a.Wake? {
      LoopStep(k, s, a.exit, 0.0, [], t, epoch);
    } else if a.Decide? {
      LoopStep(k, s, false, a.now, a.entries, t, epoch);
    } else if a.Snapshot? {
      LoopStep(k, s, false, 0.0, [], t, epoch);
    } else if a.DrainNext? {
      DrainStep(k, s, t, epoch);
    } else if a.FlushNext? {
      FlushStep(k, s, a.env, t, epoch);
    } else if ThreadEnabled(s, a) {
      ThreadStep(k, s, a, t, epoch);
    } else {
      ControlStep(k, s, a, t, epoch);
    }
  }

  /** The threads that a step adds have empty buffers. */
  predicate AddsEmpty(s: Sys, s': Sys) {
    forall t :: |s.threads| <= t < |s'.threads| ==> s'.threads[t].events == []
  }

  lemma ControlAdds(k: Settings, s: Sys, a: Action)
    requires k.capacity > 0 && ControlEnabled(s, a)
    ensures AddsEmpty(s, ControlApply(k, s, a))
  {
    hide ForcePushed, Full, Returned;
  }

  lemma LoopAdds(k: Settings, s: Sys, exit: bool, now: real, entries: seq<Entry>)
    ensures AddsEmpty(s, Woken(s, exit))
    ensures s.flusher.Snapshotting? ==> AddsEmpty(s, Snapshotted(s))
    ensures s.flusher.Deciding? ==> AddsEmpty(s, Decided(s, now, entries))
  {
    hide Updated, ShouldDrain, Returned;
  }

  lemma DrainAdds(k: Settings, s: Sys)
    requires k.capacity > 0 && DrainEnabled(s)
    ensures AddsEmpty(s, DrainApply(k, s))
  {
    if s.flusher.drain.at < |s.flusher.drain.handles| {
      DrainOnly(k, s);
      hide DrainApply, NotesAge;
    } else {
      hide FlushBuffer, Pruned, MidExit;
    }
  }

  lemma OnlyAdds(s: Sys, s': Sys, t: nat)
    requires AgesOnly(s, s', t)
    ensures AddsEmpty(s, s')
  {
    hide NotesAge;
  }

  lemma NextAdds(k: Settings, s: Sys, a: Action)
    requires k.capacity > 0 && Allowed(s, a)
    ensures AddsEmpty(s, Next(k, s, a))
  {
    hide *;
    NextCases(k, s, a);
    if a.Wake? {
      LoopAdds(k, s, a.exit, 0.0, []);
    } else if a.Decide? {
      LoopAdds(k, s, false, a.now, a.entries);
    } else if a.Snapshot? {
      LoopAdds(k, s, false, 0.0, []);
    } else if a.DrainNext? {
      DrainAdds(k, s);
    } else if a.FlushNext? {
      FlushOnly(k, s, a.env);
      OnlyAdds(s, FlushApply(k, s, a.env), FLUSH_THREAD);
    } else if ThreadEnabled(s, a) {
      ThreadAdds(k, s, a);
    } else {
      ControlAdds(k, s, a);
    }
  }

  lemma ThreadAdds(k: Settings, s: Sys, a: Action)
    requires k.capacity > 0 && ThreadEnabled(s, a)
    ensures AddsEmpty(s, ThreadApply(k, s, a))
  {
    hide ThreadApply, AddsEmpty, AgesOnly;
    OwnAges(k, s, a);
    OnlyAdds(s, ThreadApply(k, s, a), a.t);
  }

  /** In every state of every run, no buffer is left full outside the two positions between encoding and the test. */
  lemma {:induction false} NeverLeftFull(k: Settings, states: seq<Sys>, actions: seq<Action>, i: nat, t: nat)
    requires Run(k, states, actions) && i < |states| && t < |states[i].threads|
    ensures var th := states[i].threads[t];
      th.pc.Encoded? || th.pc.Loaded? || th.events == [] || th.bytes < k.batchSize
  {
    hide Next, Allowed, Inv;
    if i > 0 {
      hide Init;
      var s := states[i - 1];
      if t < |s.threads| {
        NeverLeftFull(k, states, actions, i - 1, t);
        RunInv(k, states, actions, i - 1);
        NextKeepsCall(k, s, actions[i - 1], t, 0);
      } else {
        NextAdds(k, s, actions[i - 1]);
      }
    }
  }

  lemma {:induction false} StillCatches(k: Settings, states: seq<Sys>, actions: seq<Action>, i: nat, j: nat, t: nat, epoch: nat)
    requires Run(k, states, actions) && i <= j < |states| && t < |states[i].threads|
    requires Catches(states[i].threads[t], states[i].drainEpoch, epoch)
    ensures t < |states[j].threads| && Catches(states[j].threads[t], states[j].drainEpoch, epoch)
    decreases j
  {
    hide Next, Allowed, Inv, Init, Catches;
    if i < j {
      StillCatches(k, states, actions, i, j - 1, t, epoch);
      RunInv(k, states, actions, j - 1);
      NextKeepsCall(k, states[j - 1], actions[j - 1], t, epoch);
    }
  }

  /**
   A call whose events are encoded once the epoch has reached `epoch` leaves its buffer flushed in
   that epoch or a later one: by the time it has tested and stamped, the buffer's own epoch says so.
   */
  lemma CallCatchesUp(k: Settings, states: seq<Sys>, actions: seq<Action>, i: nat, j: nat, t: nat, epoch: nat)
    requires Run(k, states, actions) && i <= j < |states| && t < |states[i].threads|
    requires states[i].threads[t].pc.Encoded? && states[i].drainEpoch >= epoch
    ensures t < |states[j].threads|
    ensures var th := states[j].threads[t];
      th.pc.Encoded? || th.pc.Loaded? || th.pc.Pushed? || th.pc.Stamping? || th.flushEpoch >= epoch
  {
    StillCatches(k, states, actions, i, j, t, epoch);
  }
}
