/**
 The protocol's flush cycle when no other thread takes a step in between, and the drain machine over
 whole runs (dial9-core/src/flush_loop.rs).
 */
module FlushAlone {
  import opened Collector
  import opened SegmentMetadata
  import opened SegmentSpec
  import opened RecordingProtocol
  import opened RecordingScenes

  // ----- One undisturbed cycle -----

  /** The flush thread's own buffer goes to the ring in this cycle. */
  predicate Sends(s: Sys, tick: Tick) {
    tick.drainSelf && |s.threads| > FLUSH_THREAD && s.threads[FLUSH_THREAD].events != []
  }

  /** The batch that the cycle makes of the flush thread's buffer, if any. */
  function Sent(s: Sys, tick: Tick): seq<Batch> {
    if Sends(s, tick) then [Batch(FLUSH_THREAD, s.threads[FLUSH_THREAD].events, s.threads[FLUSH_THREAD].bytes)] else []
  }

  /** From `s0` to `s` only the flush thread's buffer was emptied, into the ring, and batches only left the ring. */
  ghost predicate OnlySent(k: Settings, s0: Sys, tick: Tick, s: Sys) {
    && s.threads == (if Sends(s0, tick)
                     then s0.threads[FLUSH_THREAD := s0.threads[FLUSH_THREAD].(events := [], bytes := k.header)]
                     else s0.threads)
    && s.pushed == s0.pushed + Sent(s0, tick)
    && Batches(s.removed) + s.ring == Batches(s0.removed) + s0.ring + Sent(s0, tick)
    && s.drainEpoch == s0.drainEpoch && s.handles == s0.handles && s.bumped == s0.bumped
  }

  /** What sending evicted: one batch, if the ring was full. */
  function Lost(k: Settings, s0: Sys, tick: Tick): nat {
    if Sends(s0, tick) && |s0.ring| >= k.capacity then 1 else 0
  }

  /** How many steps the cycle has left, at most. */
  function Left(s: Sys): nat {
    if !s.flusher.InFlush? then 0
    else
      match s.flusher.action
      case Gate => |s.ring| + 9
      case Sources => |s.ring| + 8
      case DrainSelf => |s.ring| + 7
      case CountSelf(_) => |s.ring| + 5
      case TakeDropped => |s.ring| + 4
      case Pop => |s.ring| + 3
      case DisableOnError => |s.ring| + 2
      case Close(_) => |s.ring| + 1
  }

  /** The cycle ended its ring part: empty, or cut short by a failed write of a batch with events. */
  ghost predicate Emptied(s0: Sys, s: Sys) {
    s.ring == [] && s.phase == s0.phase && s.writeFailed == s0.writeFailed
  }

  predicate FailedLast(s: Sys) {
    s.writeFailed && |s.removed| > 0 && |s.removed[|s.removed| - 1].batch.events| > 0
  }

  ghost predicate CutShort(s0: Sys, s: Sys) {
    FailedLast(s) && s.phase == (if s0.phase == Enabled then Disabled else s0.phase)
  }

  /** Where a cycle that started in `s0` is. If all its writes succeed, it is not cut short. */
  ghost predicate Within(k: Settings, s0: Sys, tick: Tick, good: bool, s: Sys) {
    && s.flusher.InFlush? && s.flusher.tick == tick
    && |s0.threads| > 0 && s0.threads[FLUSH_THREAD].pc == Idle
    && match s.flusher.action
       case Gate => s == s0
       case Sources => s == s0.(flusher := s.flusher)
       case DrainSelf => s == s0.(flusher := s.flusher)
       case CountSelf(evicted) =>
         && OnlySent(k, s0, tick, s) && s.writer == s0.writer && s.phase == s0.phase && s.writeFailed == s0.writeFailed
         && s.taken + s.dropped + (if evicted then 1 else 0) == s0.taken + s0.dropped + Lost(k, s0, tick)
       case TakeDropped =>
         && OnlySent(k, s0, tick, s) && s.writer == s0.writer && s.phase == s0.phase && s.writeFailed == s0.writeFailed
         && s.taken + s.dropped == s0.taken + s0.dropped + Lost(k, s0, tick)
       case Pop =>
         && OnlySent(k, s0, tick, s) && s.phase == s0.phase && s.writeFailed == s0.writeFailed
         && s.dropped == 0 && s.taken == s0.taken + s0.dropped + Lost(k, s0, tick)
       case DisableOnError =>
         && OnlySent(k, s0, tick, s) && !good && FailedLast(s) && s.phase == s0.phase
         && s.dropped == 0 && s.taken == s0.taken + s0.dropped + Lost(k, s0, tick)
       case Close(emptied) =>
         && OnlySent(k, s0, tick, s) && (if emptied then Emptied(s0, s) else !good && CutShort(s0, s))
         && s.dropped == 0 && s.taken == s0.taken + s0.dropped + Lost(k, s0, tick)
  }

  /** The flush thread's buffer becomes the newest batch. */
  lemma FlushSends(k: Settings, s: Sys)
    requires k.capacity > 0 && |s.threads| > 0
    ensures var s', th := FlushBuffer(k, s, FLUSH_THREAD), s.threads[FLUSH_THREAD];
      var b := [Batch(FLUSH_THREAD, th.events, th.bytes)];
      && s' == s.(threads := s.threads[FLUSH_THREAD := th.(events := [], bytes := k.header)], pushed := s.pushed + b, ring := s'.ring, removed := s'.removed)
      && Batches(s'.removed) + s'.ring == Batches(s.removed) + s.ring + b && |s'.ring| <= |s.ring| + 1
  {
    if Full(k, s) {
      BatchesAppend(s.removed, Removal(s.ring[0], Evicted));
      assert s.ring == [s.ring[0]] + s.ring[1..];
    }
  }

  lemma SendStep(k: Settings, s0: Sys, tick: Tick, good: bool, s: Sys, env: FlushEnv)
    requires k.capacity > 0 && Within(k, s0, tick, good, s) && s.flusher.action.DrainSelf?
    ensures Within(k, s0, tick, good, FlushApply(k, s, env)) && Left(FlushApply(k, s, env)) < Left(s)
  {
    hide FlushBuffer;
    if Sends(s0, tick) {
      FlushSends(k, s);
    } else {
      assert s.pushed + [] == s.pushed && Batches(s0.removed) + s0.ring + [] == Batches(s0.removed) + s0.ring;
    }
  }

  /** A batch that left the ring towards the writer. */
  lemma PoppedSent(k: Settings, s0: Sys, tick: Tick, s: Sys, s': Sys)
    requires OnlySent(k, s0, tick, s) && s.ring != []
    requires s'.removed == s.removed + [Removal(s.ring[0], Popped)] && s'.ring == s.ring[1..]
    requires s'.threads == s.threads && s'.pushed == s.pushed
    requires s'.drainEpoch == s.drainEpoch && s'.handles == s.handles && s'.bumped == s.bumped
    ensures OnlySent(k, s0, tick, s')
  {
    hide Sends, Sent;
    BatchesAppend(s.removed, Removal(s.ring[0], Popped));
    assert s.ring == [s.ring[0]] + s.ring[1..];
    assert Batches(s'.removed) + s'.ring == Batches(s.removed) + s.ring;
  }

  /** What popping does to everything but the writer. */
  lemma PopDoes(k: Settings, s: Sys, env: WriteEnv)
    requires s.flusher.InFlush? && s.flusher.action.Pop? && s.ring != []
    ensures var s' := PopNext(k, s, env);
      && s'.removed == s.removed + [Removal(s.ring[0], Popped)] && s'.ring == s.ring[1..]
      && s'.threads == s.threads && s'.pushed == s.pushed && s'.dropped == s.dropped && s'.taken == s.taken
      && s'.drainEpoch == s.drainEpoch && s'.handles == s.handles && s'.bumped == s.bumped && s'.phase == s.phase
      && ((s'.flusher == s.flusher && s'.writeFailed == s.writeFailed)
          || (s'.flusher == s.flusher.(action := DisableOnError) && FailedLast(s')))
      && (Succeeds(env) ==> s'.flusher == s.flusher)
  {
    hide Written, Succeeds, NoteOf;
    if Succeeds(env) {
      SuccessIsOk(k.writer, s.writer, s.ring[0], env);
    }
  }

  lemma PopStep(k: Settings, s0: Sys, tick: Tick, good: bool, s: Sys, env: FlushEnv)
    requires k.capacity > 0 && Within(k, s0, tick, good, s) && s.flusher.action.Pop? && (good ==> Succeeds(env.write))
    ensures Within(k, s0, tick, good, FlushApply(k, s, env)) && Left(FlushApply(k, s, env)) < Left(s)
  {
    WithinEnabled(k, s0, tick, good, s);
    hide Succeeds, OnlySent, Lost, FlushEnabled;
    if s.ring == [] {
      assert FlushApply(k, s, env) == s.(flusher := s.flusher.(action := Close(true)));
      SameSent(k, s0, tick, s, FlushApply(k, s, env));
    } else {
      assert FlushApply(k, s, env) == PopNext(k, s, env.write);
      hide PopNext, FailedLast;
      PopDoes(k, s, env.write);
      PoppedSent(k, s0, tick, s, PopNext(k, s, env.write));
    }
  }

  lemma SameSent(k: Settings, s0: Sys, tick: Tick, s: Sys, s': Sys)
    requires OnlySent(k, s0, tick, s)
    requires s' == s.(flusher := s'.flusher, dropped := s'.dropped, taken := s'.taken, phase := s'.phase)
    ensures OnlySent(k, s0, tick, s')
  {
  }

  lemma SourcesStep(k: Settings, s0: Sys, tick: Tick, good: bool, s: Sys, env: FlushEnv)
    requires k.capacity > 0 && Within(k, s0, tick, good, s) && (s.flusher.action.Gate? || s.flusher.action.Sources?)
    ensures Within(k, s0, tick, good, FlushApply(k, s, env)) && Left(FlushApply(k, s, env)) < Left(s)
  {
    hide FlushBuffer, PopNext, ClosedCycle;
    assert FlushApply(k, s, env) == s.(flusher := FlushApply(k, s, env).flusher);
  }

  lemma CountStep(k: Settings, s0: Sys, tick: Tick, good: bool, s: Sys, env: FlushEnv)
    requires k.capacity > 0 && Within(k, s0, tick, good, s) && (s.flusher.action.CountSelf? || s.flusher.action.TakeDropped?)
    ensures Within(k, s0, tick, good, FlushApply(k, s, env)) && Left(FlushApply(k, s, env)) < Left(s)
  {
    WithinEnabled(k, s0, tick, good, s);
    hide OnlySent, Lost, FlushEnabled, FlushBuffer, PopNext, ClosedCycle;
    SameSent(k, s0, tick, s, FlushApply(k, s, env));
  }

  lemma DisableStep(k: Settings, s0: Sys, tick: Tick, good: bool, s: Sys, env: FlushEnv)
    requires k.capacity > 0 && Within(k, s0, tick, good, s) && s.flusher.action.DisableOnError?
    ensures Within(k, s0, tick, good, FlushApply(k, s, env)) && Left(FlushApply(k, s, env)) < Left(s)
  {
    WithinEnabled(k, s0, tick, good, s);
    hide OnlySent, Lost, FlushEnabled, FlushBuffer, PopNext, ClosedCycle;
    SameSent(k, s0, tick, s, FlushApply(k, s, env));
  }

  lemma WithinStep(k: Settings, s0: Sys, tick: Tick, good: bool, s: Sys, env: FlushEnv)
    requires k.capacity > 0 && Within(k, s0, tick, good, s) && (good ==> Succeeds(env.write))
    ensures FlushEnabled(s) && Left(FlushApply(k, s, env)) < Left(s)
    ensures !s.flusher.action.Close? ==> Within(k, s0, tick, good, FlushApply(k, s, env))
  {
    WithinEnabled(k, s0, tick, good, s);
    hide Within;
    if s.flusher.action.DrainSelf? {
      SendStep(k, s0, tick, good, s, env);
    } else if s.flusher.action.Pop? {
      PopStep(k, s0, tick, good, s, env);
    } else if !s.flusher.action.Close? {
      if s.flusher.action.DisableOnError? {
        DisableStep(k, s0, tick, good, s, env);
      } else if s.flusher.action.Gate? || s.flusher.action.Sources? {
        SourcesStep(k, s0, tick, good, s, env);
      } else {
        CountStep(k, s0, tick, good, s, env);
      }
    }
  }

  lemma WithinEnabled(k: Settings, s0: Sys, tick: Tick, good: bool, s: Sys)
    requires Within(k, s0, tick, good, s)
    ensures FlushEnabled(s)
  {
  }

  /** Only the flush thread takes steps, and only those of its flush cycle. */
  ghost predicate AllFlush(actions: seq<Action>) {
    forall i :: 0 <= i < |actions| ==> actions[i].FlushNext?
  }

  ghost predicate AllWritesSucceed(actions: seq<Action>) {
    forall i :: 0 <= i < |actions| && actions[i].FlushNext? ==> Succeeds(actions[i].env.write)
  }

  lemma ClosedOutside(k: Settings, s: Sys, env: FlushEnv)
    requires k.capacity > 0 && FlushEnabled(s) && s.flusher.action.Close?
    ensures !FlushApply(k, s, env).flusher.InFlush? && FlushApply(k, s, env) == ClosedCycle(k, s, env)
  {
    hide Finalized, AfterDrain, NoteOf;
  }

  lemma {:induction false} CycleWithin(k: Settings, states: seq<Sys>, actions: seq<Action>, tick: Tick, i: nat)
    requires Chain(k, states, actions) && AllFlush(actions) && i < |states|
    requires states[0].flusher == InFlush(tick, Gate) && |states[0].threads| > 0 && states[0].threads[FLUSH_THREAD].pc == Idle
    ensures states[i].flusher.InFlush? ==> Within(k, states[0], tick, AllWritesSucceed(actions), states[i])
    ensures Left(states[i]) + i <= Left(states[0])
    ensures !states[i].flusher.InFlush? ==> i > 0 && states[i - 1].flusher.InFlush? && states[i - 1].flusher.action.Close?
  {
    var good := AllWritesSucceed(actions);
    if i > 0 {
      CycleWithin(k, states, actions, tick, i - 1);
      var s, a := states[i - 1], actions[i - 1];
      assert Allowed(s, a) && states[i] == Next(k, s, a) && a.FlushNext?;
      assert FlushEnabled(s) && states[i] == FlushApply(k, s, a.env);
      assert good ==> Succeeds(a.env.write);
      hide Within, FlushApply, FlushEnabled, Succeeds, AllWritesSucceed, Left;
      WithinStep(k, states[0], tick, good, s, a.env);
      if s.flusher.action.Close? {
        ClosedOutside(k, s, a.env);
      }
      assert !s.flusher.action.Close? ==> Within(k, states[0], tick, good, states[i]);
      WithinIn(k, states[0], tick, good, states[i]);
    }
  }

  lemma WithinIn(k: Settings, s0: Sys, tick: Tick, good: bool, s: Sys)
    ensures Within(k, s0, tick, good, s) ==> s.flusher.InFlush? && s.flusher.tick == tick
  {
  }

  /** What the end of a cycle does to the writer `w`: finish it on exit, notify it of a drain, else leave it. */
  function Closing(k: Settings, w: Writer, tick: Tick, env: FlushEnv): Writer {
    if tick.exit then
      Finalized(k.writer, MetadataIfNeeded(if env.entries == [] then w else Updated(w, env.entries), env.meta).writer, env.sealMeta, env.io).writer
    else if tick.doDrain then AfterDrain(k.writer, w, env.now, env.rotate).writer
    else w
  }

  /** What every closed cycle did, from `s0` to `s`; `w` is the writer before the cycle's end. */
  ghost predicate CycleDone(k: Settings, s0: Sys, tick: Tick, w: Writer, env: FlushEnv, emptied: bool, s: Sys) {
    && s.flusher == (if tick.exit then Finished(emptied) else Waiting)
    && OnlySent(k, s0, tick, s)
    && s.dropped == 0 && s.taken == s0.taken + s0.dropped + Lost(k, s0, tick)
    && s.writer == Closing(k, w, tick, env)
  }

  /**
   An undisturbed flush cycle, whatever the outcomes of its writes: it comes to an end. It then has
   sent the flush thread's own buffer to the ring if it was to, taken the count of evictions, and
   either emptied the ring or been cut short by a failed write, which turned recording off. A cycle
   whose writes succeed is not cut short. The writer is told of the drain, or finished on exit.
   */
  lemma CycleAlone(k: Settings, states: seq<Sys>, actions: seq<Action>, tick: Tick)
    requires Chain(k, states, actions) && AllFlush(actions) && |actions| > 0
    requires states[0].flusher == InFlush(tick, Gate) && |states[0].threads| > 0 && states[0].threads[FLUSH_THREAD].pc == Idle
    ensures |actions| <= |states[0].ring| + 9
    ensures states[1].flusher == InFlush(tick, if states[0].phase == Enabled then Sources else DrainSelf)
    ensures var s0, w, s := states[0], states[|actions| - 1].writer, states[|actions|];
      || s.flusher.InFlush?
      || (CycleDone(k, s0, tick, w, actions[|actions| - 1].env, true, s) && Emptied(s0, s))
      || (CycleDone(k, s0, tick, w, actions[|actions| - 1].env, false, s) && CutShort(s0, s) && !AllWritesSucceed(actions))
  {
    var n := |actions|;
    CycleWithin(k, states, actions, tick, n);
    CycleWithin(k, states, actions, tick, n - 1);
    var s0, before, s := states[0], states[n - 1], states[n];
    assert actions[0].FlushNext? && states[1] == Next(k, s0, actions[0]);
    if !s.flusher.InFlush? {
      var a := actions[n - 1];
      assert Allowed(before, a) && s == Next(k, before, a) && a.FlushNext?;
      assert FlushEnabled(before) && s == FlushApply(k, before, a.env);
      var emptied := before.flusher.action.emptied;
      assert before.flusher == InFlush(tick, Close(emptied));
      hide FlushApply, AllWritesSucceed, CycleDone, Emptied, CutShort;
      ClosedOutside(k, before, a.env);
      ClosedDoes(k, s0, tick, AllWritesSucceed(actions), before, a.env);
      assert s == ClosedCycle(k, before, a.env);
    }
  }

  /** Closing changes the writer, its notes and the loop's position only. */
  lemma ClosedDoes(k: Settings, s0: Sys, tick: Tick, good: bool, s: Sys, env: FlushEnv)
    requires Within(k, s0, tick, good, s) && s.flusher.action.Close?
    ensures var s', emptied := ClosedCycle(k, s, env), s.flusher.action.emptied;
      && CycleDone(k, s0, tick, s.writer, env, emptied, s')
      && (if emptied then Emptied(s0, s') else !good && CutShort(s0, s'))
  {
    hide Finalized, AfterDrain, NoteOf, Updated, MetadataIfNeeded, Sends, Sent, Lost;
  }

  // ----- The drain machine over whole runs -----

  /** The iterations of the loop begun by these steps. */
  function Iterations(actions: seq<Action>): nat {
    if |actions| == 0 then 0
    else Iterations(actions[..|actions| - 1]) + (if actions[|actions| - 1].Decide? then 1 else 0)
  }

  lemma ThreadSameMachine(k: Settings, s: Sys, a: Action)
    requires k.capacity > 0 && ThreadEnabled(s, a)
    ensures ThreadApply(k, s, a).bumped == s.bumped && ThreadApply(k, s, a).cycle == s.cycle
  {
    hide ForcePushed, Full;
  }

  lemma DrainSameMachine(k: Settings, s: Sys)
    requires k.capacity > 0 && DrainEnabled(s)
    ensures DrainApply(k, s).bumped == s.bumped && DrainApply(k, s).cycle == s.cycle
  {
    hide ForcePushed, Full, Pruned, MidExit;
  }

  lemma FlushSameMachine(k: Settings, s: Sys, env: FlushEnv)
    requires k.capacity > 0 && FlushEnabled(s)
    ensures FlushApply(k, s, env).bumped == s.bumped && FlushApply(k, s, env).cycle == s.cycle
  {
    hide ForcePushed, Full, Written, Finalized, AfterDrain, NoteOf, MetadataIfNeeded, Updated;
  }

  lemma ControlSameMachine(k: Settings, s: Sys, a: Action)
    requires k.capacity > 0 && ControlEnabled(s, a)
    ensures ControlApply(k, s, a).bumped == s.bumped && ControlApply(k, s, a).cycle == s.cycle
  {
    hide ForcePushed, Full;
  }

  /** Only deciding moves the drain machine and counts iterations. */
  lemma SameMachine(k: Settings, s: Sys, a: Action)
    requires k.capacity > 0 && Allowed(s, a) && !a.Decide?
    ensures Next(k, s, a).bumped == s.bumped && Next(k, s, a).cycle == s.cycle
  {
    hide ThreadApply, DrainApply, FlushApply, ControlApply;
    if a.DrainNext? {
      DrainSameMachine(k, s);
    } else if a.FlushNext? {
      FlushSameMachine(k, s, a.env);
    } else if !a.Wake? && !a.Snapshot? {
      if ThreadEnabled(s, a) {
        ThreadSameMachine(k, s, a);
      } else {
        ControlSameMachine(k, s, a);
      }
    }
  }

  lemma {:induction false} MachineStays(k: Settings, states: seq<Sys>, actions: seq<Action>, i: nat, j: nat)
    requires Chain(k, states, actions) && i <= j < |states| && forall l :: i <= l < j ==> !actions[l].Decide?
    ensures states[j].bumped == states[i].bumped
  {
    if i < j {
      MachineStays(k, states, actions, i, j - 1);
      var a := actions[j - 1];
      assert Allowed(states[j - 1], a) && states[j] == Next(k, states[j - 1], a);
      hide Next, Allowed;
      SameMachine(k, states[j - 1], a);
    }
  }

  lemma DecidedDoes(s: Sys, now: real, entries: seq<Entry>)
    requires s.flusher.Deciding?
    ensures var s', exit, due := Decided(s, now, entries), s.flusher.exit, s.writer.hasRealEvents && s.writer.nextDrain <= now;
      && s'.cycle == s.cycle + 1
      && s'.bumped == (!exit && !s.bumped && due)
      && s'.drainEpoch == s.drainEpoch + (if exit || (!s.bumped && due) then 1 else 0)
      && (exit || s.bumped <==> s'.flusher.Snapshotting?)
      && (s'.flusher.Snapshotting? || s'.flusher.InFlush?)
      && s'.flusher.tick == Tick(exit, s.bumped, exit || (s.cycle + 1) % 200 == 0)
  {
    hide Merged;
  }

  /** Told to exit, the loop begins its last iteration even if recording is off; else it begins one only if it is on. */
  lemma WakeBegins(k: Settings, states: seq<Sys>, actions: seq<Action>, i: nat)
    requires Chain(k, states, actions) && i < |actions| && actions[i].Wake?
    ensures i + 1 < |states| && states[i].flusher == Waiting
    ensures var s, s' := states[i], states[i + 1];
      && (actions[i].exit ==> (s.stop.StopSent? || s.stop == SendersGone) && s'.flusher == Deciding(true))
      && (!actions[i].exit ==> s'.flusher == if s.phase == Enabled then Deciding(false) else Waiting)
      && s' == s.(flusher := s'.flusher)
  {
    ChainTaken(k, states, actions, i);
    hide Chain;
  }

  /**
   A drain that is due is carried out: the epoch moves at once, and the loop's next iteration,
   whenever it comes and whatever happened in between, drains the buffers and will report it.
   A drain that is not due is not begun.
   */
  lemma DueIsDrained(k: Settings, states: seq<Sys>, actions: seq<Action>, i: nat, j: nat)
    requires Chain(k, states, actions) && i < j < |actions| && actions[i].Decide? && actions[j].Decide?
    requires forall l :: i < l < j ==> !actions[l].Decide?
    requires states[i].flusher == Deciding(false) && !states[i].bumped
    ensures var due := states[i].writer.hasRealEvents && states[i].writer.nextDrain <= actions[i].now;
      && states[i + 1].drainEpoch == states[i].drainEpoch + (if due then 1 else 0)
      && states[i + 1].flusher.InFlush?
      && states[j].flusher.Deciding?
      && (states[j + 1].flusher.Snapshotting? <==> due || states[j].flusher.exit)
      && (states[j + 1].flusher.Snapshotting? || states[j + 1].flusher.InFlush?)
      && (states[j + 1].flusher.tick.doDrain <==> due)
  {
    var s, a, t, b := states[i], actions[i], states[j], actions[j];
    assert Allowed(s, a) && states[i + 1] == Next(k, s, a);
    assert Allowed(t, b) && states[j + 1] == Next(k, t, b);
    hide Decided;
    DecidedDoes(s, a.now, a.entries);
    DecidedDoes(t, b.now, b.entries);
    MachineStays(k, states, actions, i + 1, j);
  }

  lemma NextDecides(k: Settings, s: Sys, a: Action)
    requires k.capacity > 0 && Allowed(s, a) && a.Decide?
    ensures s.flusher.Deciding? && Next(k, s, a) == Decided(s, a.now, a.entries)
  {
    hide Decided;
  }

  lemma ChainTaken(k: Settings, states: seq<Sys>, actions: seq<Action>, i: nat)
    requires Chain(k, states, actions) && i < |actions|
    ensures k.capacity > 0 && i + 1 < |states| && Allowed(states[i], actions[i]) && states[i + 1] == Next(k, states[i], actions[i])
  {
    hide Next, Allowed;
  }

  lemma {:induction false} CycleCounts(k: Settings, states: seq<Sys>, actions: seq<Action>, j: nat)
    requires Chain(k, states, actions) && j < |states| && j <= |actions| && states[0].cycle == 0
    ensures states[j].cycle == Iterations(actions[..j])
  {
    hide Chain, Next, Allowed, Decided;
    if j > 0 {
      ChainTaken(k, states, actions, j - 1);
      CycleCounts(k, states, actions, j - 1);
      var s, a := states[j - 1], actions[j - 1];
      assert actions[..j][..j - 1] == actions[..j - 1];
      if a.Decide? {
        NextDecides(k, s, a);
        DecidedDoes(s, a.now, a.entries);
      } else {
        SameMachine(k, s, a);
      }
    }
  }

  lemma IterationsNext(actions: seq<Action>, j: nat)
    requires j < |actions| && actions[j].Decide?
    ensures Iterations(actions[..j + 1]) == Iterations(actions[..j]) + 1
  {
    assert actions[..j + 1][..j] == actions[..j];
  }

  /** The loop's own buffer is sent on exit and in every 200th iteration. */
  lemma SendsEvery200(k: Settings, states: seq<Sys>, actions: seq<Action>, j: nat)
    requires Chain(k, states, actions) && j < |actions| && j + 1 < |states| && actions[j].Decide? && states[0].cycle == 0
    ensures states[j].flusher.Deciding? && (states[j + 1].flusher.Snapshotting? || states[j + 1].flusher.InFlush?)
    ensures states[j + 1].flusher.tick.drainSelf <==> states[j].flusher.exit || Iterations(actions[..j + 1]) % 200 == 0
  {
    hide *;
    CycleCounts(k, states, actions, j);
    ChainTaken(k, states, actions, j);
    NextDecides(k, states[j], actions[j]);
    DecidedDoes(states[j], actions[j].now, actions[j].entries);
    IterationsNext(actions, j);
  }
}
