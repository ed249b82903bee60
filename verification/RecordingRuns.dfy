/** Every run of the recording pipeline: the invariant holds in each of its states, and what a run never undoes. */
module RecordingRuns {
  import opened Collector
  import opened SegmentMetadata
  import opened SegmentSpec
  import opened SegmentProofs
  import opened RecordingProtocol
  import opened RecordingInvariant
  import opened RecordingSteps
  import opened RecordingControl
  import opened RecordingDrain
  import opened RecordingFlush

  // ----- The invariant holds in every reachable state -----

  /** The step that an action stands for. */
  lemma NextCases(k: Settings, s: Sys, a: Action)
    requires k.capacity > 0 && Allowed(s, a)
    ensures a.Wake? ==> WakeEnabled(s, a.exit) && Next(k, s, a) == Woken(s, a.exit)
    ensures a.Decide? ==> s.flusher.Deciding? && Next(k, s, a) == Decided(s, a.now, a.entries)
    ensures a.Snapshot? ==> s.flusher.Snapshotting? && Next(k, s, a) == Snapshotted(s)
    ensures a.DrainNext? ==> DrainEnabled(s) && Next(k, s, a) == DrainApply(k, s)
    ensures a.FlushNext? ==> FlushEnabled(s) && Next(k, s, a) == FlushApply(k, s, a.env)
    ensures !a.Wake? && !a.Decide? && !a.Snapshot? && !a.DrainNext? && !a.FlushNext? ==>
      if ThreadEnabled(s, a) then Next(k, s, a) == ThreadApply(k, s, a)
      else ControlEnabled(s, a) && Next(k, s, a) == ControlApply(k, s, a)
  {
    hide ThreadEnabled, ControlEnabled, WakeEnabled, DrainEnabled, FlushEnabled;
    hide Woken, Decided, Snapshotted, DrainApply, FlushApply, ThreadApply, ControlApply;
  }

  lemma NextKeeps(k: Settings, s: Sys, a: Action)
    requires Inv(k, s) && k.capacity > 0 && Allowed(s, a)
    ensures Inv(k, Next(k, s, a))
  {
    hide *;
    NextCases(k, s, a);
    if a.Wake? {
      WokenKeeps(k, s, a.exit);
    } else if a.Decide? {
      DecidedKeeps(k, s, a.now, a.entries);
    } else if a.Snapshot? {
      SnapshottedKeeps(k, s);
    } else if a.DrainNext? {
      DrainActionKeeps(k, s);
    } else if a.FlushNext? {
      FlushActionKeeps(k, s, a.env);
    } else if ThreadEnabled(s, a) {
      ThreadActionKeeps(k, s, a);
    } else {
      ControlActionKeeps(k, s, a);
    }
  }

  lemma InitWriter(k: Settings, s: Sys)
    requires Init(k, s)
    ensures WriterOk(s) && s.writer.log == []
  {
    var found, first, metadata, now, open :|
      s.writer == Created(k.writer, found, first, metadata, now, open);
    RunConserves(k.writer, found, first, metadata, now, open, []);
  }

  lemma InitThreads(k: Settings, s: Sys)
    requires Init(k, s)
    ensures ThreadsOk(s) && EvictionsOk(s)
  {
    hide Created;
    assert FirstEvents(FLUSH_THREAD, 0) == [];
    assert KeepsEvents(s, FLUSH_THREAD);
    assert ThreadOk(s, FLUSH_THREAD);
    assert s.threads[..0] == [];
    assert ThreadFlags(s.threads[..0]) == 0;
    assert WithFate(s.removed, Evicted) == [];
  }

  lemma InitRest(k: Settings, s: Sys)
    requires k.capacity > 0 && Init(k, s) && s.writer.log == []
    ensures RingOk(k, s) && DrainOk(s) && FlushOk(s) && NotesOk(s) && StopOk(s)
  {
    hide Created;
  }

  lemma InitInv(k: Settings, s: Sys)
    requires k.capacity > 0 && Init(k, s)
    ensures Inv(k, s)
  {
    hide *;
    InitWriter(k, s);
    InitThreads(k, s);
    InitRest(k, s);
    FromParts(k, s);
  }

  /** Every state of every run satisfies the invariant. */
  lemma {:induction false} RunInv(k: Settings, states: seq<Sys>, actions: seq<Action>, i: nat)
    requires Run(k, states, actions) && i < |states|
    ensures Inv(k, states[i])
  {
    hide Inv, Init, Next, Allowed;
    if i == 0 {
      InitInv(k, states[0]);
    } else {
      RunInv(k, states, actions, i - 1);
      NextKeeps(k, states[i - 1], actions[i - 1]);
    }
  }

  // ----- What a step never undoes -----

  /** Notes are only added to; a new one names the threads the last drain missed. */
  ghost predicate NotesAge(s: Sys, s': Sys) {
    s'.notes == s.notes
    || (exists n: Note {:trigger s.notes + [n]} :: s'.notes == s.notes + [n] && n.missed == s.missed && n.epoch == s.drainEpoch)
  }

  /** The flush loop is past its last drain. */
  predicate PastLastDrain(s: Sys) {
    s.flusher.Finished? || (s.flusher.InFlush? && s.flusher.tick.exit)
  }

  /** A step keeps the marks or adds one; threads are not revived and what was recorded stays recorded. */
  ghost predicate Ages(s: Sys, s': Sys) {
    && (|| (s'.drainEpoch == s.drainEpoch && s'.marks == s.marks)
        || (s'.drainEpoch == s.drainEpoch + 1 && s'.marks == s.marks + [Returned(s.threads)]))
    && |s.threads| <= |s'.threads|
    && (forall t :: 0 <= t < |s.threads| ==>
        && (Strong(s'.threads[t]) ==> Strong(s.threads[t]))
        && (s.threads[t].pc == Gone ==> s'.threads[t].pc == Gone))
    && (|| (s'.missed == s.missed && (PastLastDrain(s') ==> PastLastDrain(s)))
        || s'.missed == MidExit(s.threads, s.drainEpoch))
    && (Stopping(s) ==> Stopping(s') && s'.stopMark == s.stopMark)
    && (s'.phase == s.phase || s'.phase == Stopped || s.phase == Disabled || s.phase == Enabled)
    && NotesAge(s, s')
  }

  /** A step of thread `t`: it changes only that thread's record, which does not come back to life. */
  ghost predicate AgesOnly(s: Sys, s': Sys, t: nat) {
    && t < |s.threads| == |s'.threads| && s'.threads == s.threads[t := s'.threads[t]]
    && (Strong(s'.threads[t]) ==> Strong(s.threads[t])) && (s.threads[t].pc == Gone ==> s'.threads[t].pc == Gone)
    && s'.drainEpoch == s.drainEpoch && s'.marks == s.marks && s'.missed == s.missed
    && (s'.phase == s.phase || s.phase == Enabled) && NotesAge(s, s')
    && (PastLastDrain(s') ==> PastLastDrain(s)) && s'.stop == s.stop && s'.stopMark == s.stopMark
  }

  /** The actions that may push a buffer. */
  predicate MayPush(a: Action) {
    a.Test? || a.DropBuffer?
  }

  lemma QuietAges(k: Settings, s: Sys, a: Action) returns (t: nat)
    requires k.capacity > 0 && ThreadEnabled(s, a) && !MayPush(a)
    ensures AgesOnly(s, ThreadApply(k, s, a), t) && t == a.t
  {
    t := a.t;
  }

  lemma PushAges(k: Settings, s: Sys, a: Action) returns (t: nat)
    requires k.capacity > 0 && ThreadEnabled(s, a) && MayPush(a)
    ensures AgesOnly(s, ThreadApply(k, s, a), t) && t == a.t
  {
    hide ForcePushed;
    t := a.t;
  }

  lemma OnlyAges(s: Sys, s': Sys, t: nat)
    requires AgesOnly(s, s', t)
    ensures Ages(s, s')
  {
  }

  lemma ThreadAges(k: Settings, s: Sys, a: Action)
    requires k.capacity > 0 && ThreadEnabled(s, a)
    ensures Ages(s, ThreadApply(k, s, a))
  {
    hide *;
    var t;
    if MayPush(a) {
      t := PushAges(k, s, a);
    } else {
      t := QuietAges(k, s, a);
    }
    OnlyAges(s, ThreadApply(k, s, a), t);
  }

  lemma ControlAges(k: Settings, s: Sys, a: Action)
    requires k.capacity > 0 && ControlEnabled(s, a)
    ensures Ages(s, ControlApply(k, s, a))
  {
    hide ForcePushed;
  }

  lemma DecidedAges(k: Settings, s: Sys, now: real, entries: seq<Entry>)
    requires s.flusher.Deciding?
    ensures Ages(s, Decided(s, now, entries))
  {
    hide Updated, ShouldDrain;
  }

  lemma DrainFlushAges(k: Settings, s: Sys)
    requires k.capacity > 0 && DrainEnabled(s) && s.flusher.drain.at < |s.flusher.drain.handles|
    requires s.flusher.step.Flush? || s.flusher.step.Release?
    ensures AgesOnly(s, DrainApply(k, s), s.flusher.drain.handles[s.flusher.drain.at])
  {
    hide ForcePushed, Pruned, Full, MidExit, Returned;
  }

  lemma DrainOnly(k: Settings, s: Sys)
    requires k.capacity > 0 && DrainEnabled(s) && s.flusher.drain.at < |s.flusher.drain.handles|
    ensures AgesOnly(s, DrainApply(k, s), s.flusher.drain.handles[s.flusher.drain.at])
  {
    if s.flusher.step.Flush? || s.flusher.step.Release? {
      hide *;
      DrainFlushAges(k, s);
    } else {
      hide ForcePushed, Pruned, Full, MidExit, Returned, FlushBuffer;
    }
  }

  lemma DrainAges(k: Settings, s: Sys)
    requires k.capacity > 0 && DrainEnabled(s)
    ensures Ages(s, DrainApply(k, s))
  {
    if s.flusher.drain.at < |s.flusher.drain.handles| {
      DrainOnly(k, s);
      hide *;
      OnlyAges(s, DrainApply(k, s), s.flusher.drain.handles[s.flusher.drain.at]);
    }
  }

  lemma WriterStepAges(k: Settings, s: Sys, env: FlushEnv)
    requires k.capacity > 0 && FlushEnabled(s) && (s.flusher.action.Pop? || s.flusher.action.Close?)
    ensures AgesOnly(s, FlushApply(k, s, env), FLUSH_THREAD)
  {
    hide Finalized, MetadataIfNeeded, AfterDrain, Updated, Written, MidExit, Returned, FlushBuffer;
    assert s.threads == s.threads[0 := s.threads[0]];
    assert FlushApply(k, s, env).threads == s.threads;
  }

  lemma SelfDrainAges(k: Settings, s: Sys, env: FlushEnv)
    requires k.capacity > 0 && FlushEnabled(s) && s.flusher.action.DrainSelf?
    ensures AgesOnly(s, FlushApply(k, s, env), FLUSH_THREAD)
  {
    hide ForcePushed, PopNext, ClosedCycle, Full, MidExit, Returned;
    assert s.threads == s.threads[0 := s.threads[0]];
  }

  lemma FlushOnly(k: Settings, s: Sys, env: FlushEnv)
    requires k.capacity > 0 && FlushEnabled(s)
    ensures AgesOnly(s, FlushApply(k, s, env), FLUSH_THREAD)
  {
    if s.flusher.action.Pop? || s.flusher.action.Close? {
      hide *;
      WriterStepAges(k, s, env);
    } else if s.flusher.action.DrainSelf? {
      hide *;
      SelfDrainAges(k, s, env);
    } else {
      hide FlushBuffer, PopNext, ClosedCycle, MidExit, Returned;
      assert s.threads == s.threads[0 := s.threads[0]];
    }
  }

  lemma FlushAges(k: Settings, s: Sys, env: FlushEnv)
    requires k.capacity > 0 && FlushEnabled(s)
    ensures Ages(s, FlushApply(k, s, env))
  {
    hide *;
    FlushOnly(k, s, env);
    OnlyAges(s, FlushApply(k, s, env), FLUSH_THREAD);
  }

  lemma PositionAges(s: Sys, exit: bool)
    ensures Ages(s, Woken(s, exit))
    ensures s.flusher.Snapshotting? ==> Ages(s, Snapshotted(s))
  {
  }

  lemma NextAges(k: Settings, s: Sys, a: Action)
    requires k.capacity > 0 && Allowed(s, a)
    ensures Ages(s, Next(k, s, a))
  {
    hide *;
    NextCases(k, s, a);
    if a.Wake? {
      PositionAges(s, a.exit);
    } else if a.Decide? {
      DecidedAges(k, s, a.now, a.entries);
    } else if a.Snapshot? {
      PositionAges(s, false);
    } else if a.DrainNext? {
      DrainAges(k, s);
    } else if a.FlushNext? {
      FlushAges(k, s, a.env);
    } else if ThreadEnabled(s, a) {
      ThreadAges(k, s, a);
    } else {
      ControlAges(k, s, a);
    }
  }

  // ----- Runs -----

  /** From state `i` to state `j` of a run. */
  ghost predicate Aged(s: Sys, s': Sys) {
    && |s.threads| <= |s'.threads|
    && s.marks <= s'.marks
    && (forall t :: 0 <= t < |s.threads| ==>
        && (Strong(s'.threads[t]) ==> Strong(s.threads[t]))
        && (s.threads[t].pc == Gone ==> s'.threads[t].pc == Gone))
    && (Stopping(s) ==> Stopping(s') && s'.stopMark == s.stopMark)
    && (s.phase == Stopped ==> s'.phase == Stopped)
    && (s.phase == FailedForGood ==> s'.phase == FailedForGood || s'.phase == Stopped)
  }

  lemma {:induction false} RunAges(k: Settings, states: seq<Sys>, actions: seq<Action>, i: nat, j: nat)
    requires Run(k, states, actions) && i <= j < |states|
    ensures Aged(states[i], states[j])
    decreases j
  {
    hide Init, Next, Allowed;
    if i < j {
      RunAges(k, states, actions, i, j - 1);
      NextAges(k, states[j - 1], actions[j - 1]);
    }
  }

  /** The step from state `b` bumped the drain epoch to `epoch`. */
  ghost predicate BumpedAt(states: seq<Sys>, b: nat, epoch: nat) {
    b + 1 < |states| && states[b].drainEpoch + 1 == states[b + 1].drainEpoch == epoch
  }

  /** A mark is what the thread had returned when the epoch was bumped. */
  lemma MarkMeans(k: Settings, states: seq<Sys>, actions: seq<Action>, b: nat, epoch: nat, j: nat, t: nat)
    requires Run(k, states, actions) && BumpedAt(states, b, epoch) && b < j < |states|
    ensures Mark(states[j], epoch, t) == if t < |states[b].threads| then states[b].threads[t].returned else 0
  {
    RunInv(k, states, actions, b);
    EpochCount(k, states[b]);
    hide Init, Next, Allowed, Inv;
    NextAges(k, states[b], actions[b]);
    RunAges(k, states, actions, b + 1, j);
    assert states[j].marks[epoch] == states[b + 1].marks[epoch];
  }

  lemma EpochCount(k: Settings, s: Sys)
    requires Inv(k, s)
    ensures |s.marks| == s.drainEpoch + 1
  {
  }

  /** Every epoch a run has reached was bumped to at some step. */
  lemma {:induction false} BumpFound(k: Settings, states: seq<Sys>, actions: seq<Action>, epoch: nat, j: nat) returns (b: nat)
    requires Run(k, states, actions) && j < |states| && 0 < epoch <= states[j].drainEpoch
    ensures b < j && BumpedAt(states, b, epoch)
  {
    hide Next, Allowed;
    if j > 0 && epoch <= states[j - 1].drainEpoch {
      b := BumpFound(k, states, actions, epoch, j - 1);
    } else {
      b := j - 1;
      NextAges(k, states[b], actions[b]);
    }
  }

  /** The threads that drains missed have exited. */
  ghost predicate MissedExited(s: Sys) {
    && (forall t :: t in s.missed ==> t < |s.threads| && !Strong(s.threads[t]))
    && (forall i :: 0 <= i < |s.notes| ==> forall t :: t in s.notes[i].missed ==> t < |s.threads| && !Strong(s.threads[t]))
  }

  lemma StepMissed(s: Sys, s': Sys)
    requires MissedExited(s) && Ages(s, s')
    ensures MissedExited(s')
  {
    assert forall t :: t in MidExit(s.threads, s.drainEpoch) ==> t < |s.threads| && !Strong(s.threads[t]);
    forall i, t | 0 <= i < |s'.notes| && t in s'.notes[i].missed
      ensures t < |s'.threads| && !Strong(s'.threads[t])
    {
      assert t in s.missed || (i < |s.notes| && t in s.notes[i].missed);
    }
  }

  lemma {:induction false} RunMissed(k: Settings, states: seq<Sys>, actions: seq<Action>, j: nat)
    requires Run(k, states, actions) && j < |states|
    ensures MissedExited(states[j])
  {
    hide Next, Allowed;
    if j > 0 {
      RunMissed(k, states, actions, j - 1);
      NextAges(k, states[j - 1], actions[j - 1]);
      StepMissed(states[j - 1], states[j]);
    }
  }

  /** Once recording has failed for good or stopped, it never comes back: no recording call begins any more. */
  lemma RecordingStaysOff(k: Settings, states: seq<Sys>, actions: seq<Action>, i: nat, j: nat, t: nat)
    requires Run(k, states, actions) && i <= j < |actions|
    requires states[i].phase == Stopped || states[i].phase == FailedForGood
    ensures states[j].phase == Stopped || states[j].phase == FailedForGood
    ensures t != FLUSH_THREAD ==> actions[j] != Begin(t)
  {
    RunAges(k, states, actions, i, j);
  }

  lemma GoneStep(s: Sys, s': Sys, t: nat)
    requires Ages(s, s') && t < |s.threads| && s.threads[t].pc == Gone
    requires PastLastDrain(s) ==> t !in s.missed
    ensures t < |s'.threads| && s'.threads[t].pc == Gone
    ensures PastLastDrain(s') ==> t !in s'.missed
  {
  }

  lemma RunLength(k: Settings, states: seq<Sys>, actions: seq<Action>)
    requires Run(k, states, actions)
    ensures |states| == |actions| + 1
  {
    hide Next, Allowed, Init;
  }

  lemma RunStep(k: Settings, states: seq<Sys>, actions: seq<Action>, i: nat)
    requires Run(k, states, actions) && i < |actions|
    ensures i + 1 < |states| && Ages(states[i], states[i + 1])
  {
    hide Next, Allowed, Init, Ages;
    NextAges(k, states[i], actions[i]);
  }

  /** A thread that was gone before the shutdown began is not among those the last drain missed. */
  lemma {:induction false} GoneNotMissed(k: Settings, states: seq<Sys>, actions: seq<Action>, i: nat, j: nat, t: nat)
    requires Run(k, states, actions) && i < j < |states| && i < |actions| && actions[i].BeginStop?
    requires t < |states[i].threads| && states[i].threads[t].pc == Gone
    ensures t < |states[j].threads| && states[j].threads[t].pc == Gone
    ensures PastLastDrain(states[j]) ==> t !in states[j].missed
    decreases j
  {
    hide *;
    RunLength(k, states, actions);
    RunStep(k, states, actions, j - 1);
    if j == i + 1 {
      StopBegins(k, states, actions, i);
      GoneStays(states[i], states[j], t);
    } else {
      GoneNotMissed(k, states, actions, i, j - 1, t);
      GoneStep(states[j - 1], states[j], t);
    }
  }

  lemma GoneStays(s: Sys, s': Sys, t: nat)
    requires Ages(s, s') && t < |s.threads| && s.threads[t].pc == Gone
    ensures t < |s'.threads| && s'.threads[t].pc == Gone
  {
  }

  /** The stop begins while the flush loop is not past its last drain, and notes what had returned. */
  lemma StopBegins(k: Settings, states: seq<Sys>, actions: seq<Action>, i: nat)
    requires Run(k, states, actions) && i < |actions| && actions[i].BeginStop?
    ensures !PastLastDrain(states[i + 1]) && Stopping(states[i + 1])
    ensures states[i + 1].stopMark == Returned(states[i].threads)
  {
    RunInv(k, states, actions, i);
    assert StopOk(states[i]);
    hide Inv, StopOk, Init;
    StopBeginsStep(k, states[i], actions[i]);
  }

  lemma StopBeginsStep(k: Settings, s: Sys, a: Action)
    requires k.capacity > 0 && Allowed(s, a) && a.BeginStop? && StopOk(s)
    ensures !PastLastDrain(Next(k, s, a)) && Stopping(Next(k, s, a)) && Next(k, s, a).stopMark == Returned(s.threads)
  {
  }
}
