/**
 The recording pipeline as a transition system: recording threads, the flush thread and the
 thread that stops the recorder, interleaved at every access to shared state
 (dial9-core/src/shared_state.rs, encoder.rs, flush_loop.rs, recording.rs).

 Every step reads or writes one shared location, or runs while the lock it needs is held.
 The memory is sequentially consistent and no lock is poisoned. Thread 0 is the flush thread.
 */
module RecordingProtocol {
  import opened Wrappers
  import opened Collector
  import opened SegmentMetadata
  import opened Rotation
  import opened SegmentSpec

  const FLUSH_THREAD: nat := 0
  const SELF_DRAIN_INTERVAL: nat := 200

  /** Sizes fixed when the recorder is built; `header` is the size of an encoder's fresh output. */
  datatype Settings = Settings(capacity: nat, batchSize: nat, header: nat, writer: Config)

  /** The recording lifecycle. */
  datatype Lifecycle = Disabled | Enabled | FailedForGood | Stopped

  /** Where a recording thread is. From `Encoding` to `Unlocking` it holds its buffer's lock. */
  datatype ThreadPc =
    | Idle
    | Checked                              // saw recording enabled
    | Encoding                             // lock taken, collector set
    | Encoded                              // events written
    | Loaded(current: nat)                 // drain epoch read
    | Pushed(current: nat, evicted: bool)  // own batch pushed, its eviction not yet counted
    | Stamping(current: nat)
    | Unlocking
    | Registering                          // first call: lock released, handle not registered yet
    | HandedOver                           // exited while the drain holds the last reference
    | Dying                                // last reference gone, the buffer's drop not run yet
    | DropPushed(evicted: bool)
    | Gone

  /**
   One thread and its buffer. `recorded` and `returned` are history: the events ever encoded,
   and those whose recording call has returned.
   */
  datatype Thread = Thread(
    pc: ThreadPc,
    events: seq<Event>,
    bytes: nat,
    hasCollector: bool,
    first: bool,
    flushEpoch: nat,
    recorded: nat,
    returned: nat)

  /** What one iteration of the flush loop has decided to do. */
  datatype Tick = Tick(exit: bool, doDrain: bool, drainSelf: bool)

  /** An intrusive drain: its epoch, the handles it copied and the position in them. */
  datatype Drain = Drain(epoch: nat, handles: seq<nat>, at: nat)

  datatype DrainStep = Check | Upgrade | Lock | Flush | Count(evicted: bool) | Stamp | Release

  /** A cycle closes after it emptied the ring, or cut short by a failed write. */
  datatype FlushStep =
    | Gate | Sources | DrainSelf | CountSelf(evicted: bool) | TakeDropped | Pop | DisableOnError | Close(emptied: bool)

  datatype FlushPc =
    | Waiting
    | Deciding(exit: bool)
    | Snapshotting(tick: Tick)
    | InDrain(tick: Tick, drain: Drain, step: DrainStep)
    | InFlush(tick: Tick, action: FlushStep)
    | Finished(emptied: bool)

  /** Where the shutdown is; `caller` is the thread that called it. */
  datatype Stop =
    | Running
    | SendersGone
    | StopDraining(caller: nat)
    | StopCounting(caller: nat, evicted: bool)
    | StopSending(caller: nat)
    | StopSent(caller: nat)
    | StopDone(caller: nat)

  /**
   History of one seal: the drain epoch, how many batches had left the ring, the threads the last
   drain missed, whether no write had failed so far, and whether its cycle had emptied the ring.
   */
  datatype Note = Note(epoch: nat, cut: nat, missed: set<nat>, clean: bool, emptied: bool)

  datatype Sys = Sys(
    phase: Lifecycle,
    drainEpoch: nat,
    threads: seq<Thread>,
    handles: seq<nat>,
    ring: seq<Batch>,
    dropped: nat,
    flusher: FlushPc,
    bumped: bool,
    cycle: nat,
    writer: Writer,
    stop: Stop,
    // history
    pushed: seq<Batch>,
    removed: seq<Removal>,
    taken: nat,
    marks: seq<seq<nat>>,
    missed: set<nat>,
    notes: seq<Note>,
    writeFailed: bool,
    stopMark: seq<nat>)

  datatype Action =
    | Enable | Disable | FailForGood
    | Spawn
    | Begin(t: nat) | LockOwn(t: nat) | Encode(t: nat, n: nat, size: nat) | LoadEpoch(t: nat) | Test(t: nat)
    | CountOwn(t: nat) | StampOwn(t: nat) | Unlock(t: nat) | Register(t: nat)
    | Exit(t: nat) | DropBuffer(t: nat) | CountDrop(t: nat)
    | LoseSenders | BeginStop(t: nat) | DrainCaller | CountCaller | SendStop | FinishStop
    | Wake(exit: bool)
    | Decide(now: real, entries: seq<Entry>)
    | Snapshot
    | DrainNext
    | FlushNext(env: FlushEnv)

  /** The environment of one step of a flush cycle. */
  datatype FlushEnv = FlushEnv(
    write: WriteEnv, now: real, rotate: RotateEnv, entries: seq<Entry>,
    meta: RecordWrite, sealMeta: RecordWrite, io: IoResult)

  // ----- Buffers -----

  predicate OwnerHolds(pc: ThreadPc) {
    pc.Encoding? || pc.Encoded? || pc.Loaded? || pc.Pushed? || pc.Stamping? || pc.Unlocking?
  }

  /** A strong reference to the thread's buffer exists. */
  predicate Strong(th: Thread) {
    !th.pc.Dying? && !th.pc.DropPushed? && !th.pc.Gone?
  }

  /** The drain has upgraded its weak handle of `t`. */
  predicate DrainHoldsArc(s: Sys, t: nat) {
    && s.flusher.InDrain? && !s.flusher.step.Check? && !s.flusher.step.Upgrade?
    && s.flusher.drain.at < |s.flusher.drain.handles| && s.flusher.drain.handles[s.flusher.drain.at] == t
  }

  /** The drain holds the lock of `t`'s buffer. */
  predicate DrainHoldsLock(s: Sys, t: nat) {
    DrainHoldsArc(s, t) && !s.flusher.step.Lock?
  }

  /** How many of its events a thread has flushed. */
  function Flushed(th: Thread): int {
    th.recorded - |th.events|
  }

  function SetThread(s: Sys, t: nat, th: Thread): Sys
    requires t < |s.threads|
  {
    s.(threads := s.threads[t := th])
  }

  function SetPc(s: Sys, t: nat, pc: ThreadPc): Sys
    requires t < |s.threads|
  {
    SetThread(s, t, s.threads[t].(pc := pc))
  }

  predicate Full(k: Settings, s: Sys) {
    |s.ring| >= k.capacity
  }

  /** Take `t`'s buffer out as a batch and push it into the ring. */
  function FlushBuffer(k: Settings, s: Sys, t: nat): Sys
    requires t < |s.threads| && k.capacity > 0
  {
    var th := s.threads[t];
    var b := Batch(t, th.events, th.bytes);
    SetThread(s, t, th.(events := [], bytes := k.header)).(
      pushed := s.pushed + [b],
      ring := ForcePushed(s.ring, k.capacity, b),
      removed := if Full(k, s) then s.removed + [Removal(s.ring[0], Evicted)] else s.removed)
  }

  function CountIf(s: Sys, evicted: bool): Sys {
    if evicted then s.(dropped := s.dropped + 1) else s
  }

  // ----- History -----

  /** Each thread's returned events, as recorded when the drain epoch moves. */
  function Returned(threads: seq<Thread>): (counts: seq<nat>)
    ensures |counts| == |threads| && forall t :: 0 <= t < |threads| ==> counts[t] == threads[t].returned
  {
    seq(|threads|, t requires 0 <= t < |threads| => threads[t].returned)
  }

  /** The events of `t` whose recording call had returned when the drain epoch moved to `epoch`. */
  function Mark(s: Sys, epoch: nat, t: nat): nat {
    if epoch < |s.marks| && t < |s.marks[epoch]| then s.marks[epoch][t] else 0
  }

  /** The threads whose buffer awaits its drop, holds events and is behind the epoch: no drain can reach it. */
  function MidExit(threads: seq<Thread>, epoch: nat): (missed: set<nat>)
    ensures forall t :: 0 <= t < |threads| ==>
      (t in missed <==> threads[t].pc.Dying? && threads[t].events != [] && threads[t].flushEpoch < epoch)
  {
    set t: nat | t < |threads| && threads[t].pc.Dying? && threads[t].events != [] && threads[t].flushEpoch < epoch
  }

  function NoteOf(s: Sys): Note {
    Note(s.drainEpoch, |s.removed|, s.missed, !s.writeFailed, s.flusher.InFlush? && s.flusher.action == Close(true))
  }

  /** A writer operation happened; if it sealed a segment, note it. */
  function WriterMoved(s: Sys, w: Writer): Sys {
    s.(writer := w,
       notes := if |w.log| == |s.writer.log| then s.notes else s.notes + [NoteOf(s)])
  }

  // ----- Recording threads -----

  /** The thread is blocked in the shutdown call. */
  predicate Busy(s: Sys, t: nat) {
    match s.stop
    case StopDraining(c) => c == t
    case StopCounting(c, _) => c == t
    case StopSending(c) => c == t
    case StopSent(c) => c == t
    case _ => false
  }

  /** The flush thread records only while it runs the sources. */
  predicate MayRecord(s: Sys, t: nat) {
    if t == FLUSH_THREAD then s.flusher.InFlush? && s.flusher.action.Sources? else !Busy(s, t)
  }

  predicate At(s: Sys, t: nat, pc: ThreadPc) {
    t < |s.threads| && s.threads[t].pc == pc
  }

  predicate ThreadEnabled(s: Sys, a: Action) {
    match a
    case Begin(t) => At(s, t, Idle) && MayRecord(s, t) && (t != FLUSH_THREAD ==> s.phase == Enabled)
    case LockOwn(t) => At(s, t, Checked) && !DrainHoldsLock(s, t)
    case Encode(t, _, _) => At(s, t, Encoding)
    case LoadEpoch(t) => At(s, t, Encoded)
    case Test(t) => t < |s.threads| && s.threads[t].pc.Loaded?
    case CountOwn(t) => t < |s.threads| && s.threads[t].pc.Pushed?
    case StampOwn(t) => t < |s.threads| && s.threads[t].pc.Stamping?
    case Unlock(t) => At(s, t, Unlocking)
    case Register(t) => At(s, t, Registering)
    case Exit(t) => At(s, t, Idle) && t != FLUSH_THREAD && !Busy(s, t)
    case DropBuffer(t) => At(s, t, Dying)
    case CountDrop(t) => t < |s.threads| && s.threads[t].pc.DropPushed?
    case _ => false
  }

  function ThreadApply(k: Settings, s: Sys, a: Action): Sys
    requires k.capacity > 0 && ThreadEnabled(s, a)
  {
    match a
    case Begin(t) => SetPc(s, t, Checked)
    case LockOwn(t) =>
      var th := s.threads[t];
      SetThread(s, t, th.(pc := Encoding, hasCollector := true, first := !th.hasCollector))
    case Encode(t, n, size) =>
      var th := s.threads[t];
      SetThread(s, t, th.(
        pc := Encoded,
        events := th.events + seq(n, i requires 0 <= i < n => Event(t, th.recorded + i)),
        bytes := th.bytes + size,
        recorded := th.recorded + n))
    case LoadEpoch(t) => SetPc(s, t, Loaded(s.drainEpoch))
    case Test(t) =>
      var th := s.threads[t];
      if th.bytes >= k.batchSize || th.flushEpoch < th.pc.current
      then SetPc(FlushBuffer(k, s, t), t, Pushed(th.pc.current, Full(k, s)))
      else SetPc(s, t, Unlocking)
    case CountOwn(t) => SetPc(CountIf(s, s.threads[t].pc.evicted), t, Stamping(s.threads[t].pc.current))
    case StampOwn(t) =>
      SetThread(s, t, s.threads[t].(pc := Unlocking, flushEpoch := s.threads[t].pc.current))
    case Unlock(t) =>
      var th := s.threads[t];
      if th.first && t != FLUSH_THREAD then SetPc(s, t, Registering)
      else SetThread(s, t, th.(pc := Idle, first := false, returned := th.recorded))
    case Register(t) =>
      var th := s.threads[t];
      SetThread(s, t, th.(pc := Idle, first := false, returned := th.recorded)).(handles := s.handles + [t])
    case Exit(t) => SetPc(s, t, if DrainHoldsArc(s, t) then HandedOver else Dying)
    case DropBuffer(t) =>
      if s.threads[t].events == [] then SetPc(s, t, Gone)
      else SetPc(FlushBuffer(k, s, t), t, DropPushed(Full(k, s)))
    case CountDrop(t) => SetPc(CountIf(s, s.threads[t].pc.evicted), t, Gone)
  }

  // ----- Lifecycle, new threads and shutdown -----

  predicate ControlEnabled(s: Sys, a: Action) {
    match a
    case Enable => true
    case Disable => true
    case FailForGood => true
    case Spawn => true
    case LoseSenders => s.stop == Running
    case BeginStop(t) => s.stop == Running && t != FLUSH_THREAD && At(s, t, Idle)
    case DrainCaller =>
      s.stop.StopDraining? && s.stop.caller < |s.threads| && !DrainHoldsLock(s, s.stop.caller)
    case CountCaller => s.stop.StopCounting?
    case SendStop => s.stop.StopSending?
    case FinishStop => s.stop.StopSent? && s.flusher.Finished?
    case _ => false
  }

  function ControlApply(k: Settings, s: Sys, a: Action): Sys
    requires k.capacity > 0 && ControlEnabled(s, a)
  {
    match a
    case Enable => if s.phase == Disabled then s.(phase := Enabled) else s
    case Disable => if s.phase == Enabled then s.(phase := Disabled) else s
    case FailForGood => if s.phase == Stopped then s else s.(phase := FailedForGood)
    case Spawn => s.(threads := s.threads + [NewThread(k)])
    case LoseSenders => s.(stop := SendersGone)
    case BeginStop(t) => s.(stop := StopDraining(t), stopMark := Returned(s.threads))
    case DrainCaller =>
      var t := s.stop.caller;
      if s.threads[t].events == [] then s.(stop := StopSending(t))
      else FlushBuffer(k, s, t).(stop := StopCounting(t, Full(k, s)))
    case CountCaller => CountIf(s, s.stop.evicted).(stop := StopSending(s.stop.caller))
    case SendStop => s.(stop := StopSent(s.stop.caller))
    case FinishStop => s.(stop := StopDone(s.stop.caller), phase := Stopped)
  }

  function NewThread(k: Settings): Thread {
    Thread(Idle, [], k.header, false, false, 0, 0, 0)
  }

  // ----- The flush loop -----

  /** The loop woke up: to exit because it was told to or lost its senders, or because 5 ms passed. */
  predicate WakeEnabled(s: Sys, exit: bool) {
    s.flusher == Waiting && (exit ==> s.stop.StopSent? || s.stop == SendersGone)
  }

  function Woken(s: Sys, exit: bool): Sys {
    if !exit && s.phase != Enabled then s else s.(flusher := Deciding(exit))
  }

  function Bumped(s: Sys): Sys {
    s.(drainEpoch := s.drainEpoch + 1, marks := s.marks + [Returned(s.threads)])
  }

  /** The writer wants a drain and none is under way. */
  predicate WantsDrain(s: Sys, now: real) {
    !s.bumped && ShouldDrain(s.writer, now)
  }

  /** Merge the sources' metadata, run the two-state drain machine, and bump the epoch if it or the exit says so. */
  function Decided(s: Sys, now: real, entries: seq<Entry>): Sys
    requires s.flusher.Deciding?
  {
    var exit := s.flusher.exit;
    var s1 := s.(writer := if entries == [] then s.writer else Updated(s.writer, entries), cycle := s.cycle + 1);
    var tick := Tick(exit, s.bumped, exit || s1.cycle % SELF_DRAIN_INTERVAL == 0);
    var schedule := !exit && WantsDrain(s1, now);
    var s2 := if schedule || exit then Bumped(s1) else s1;
    s2.(bumped := schedule,
        flusher := if exit || tick.doDrain then Snapshotting(tick) else InFlush(tick, Gate))
  }

  function Snapshotted(s: Sys): Sys
    requires s.flusher.Snapshotting?
  {
    s.(flusher := InDrain(s.flusher.tick, Drain(s.drainEpoch, s.handles, 0), Check))
  }

  predicate DrainEnabled(s: Sys) {
    && s.flusher.InDrain?
    && (s.flusher.drain.at < |s.flusher.drain.handles| ==> s.flusher.drain.handles[s.flusher.drain.at] < |s.threads|)
    && (s.flusher.drain.at >= |s.flusher.drain.handles| ==> s.flusher.step.Check?)
    && (s.flusher.step.Lock? ==> !OwnerHolds(s.threads[s.flusher.drain.handles[s.flusher.drain.at]].pc))
    && (forall i :: 0 <= i < |s.handles| ==> s.handles[i] < |s.threads|)
  }

  /** The handles whose buffer still has a strong reference. */
  function Pruned(handles: seq<nat>, threads: seq<Thread>): seq<nat>
    requires forall i :: 0 <= i < |handles| ==> handles[i] < |threads|
  {
    if |handles| == 0 then []
    else
      var n := |handles| - 1;
      Pruned(handles[..n], threads) + (if Strong(threads[handles[n]]) then [handles[n]] else [])
  }

  function GoTo(s: Sys, step: DrainStep): Sys
    requires s.flusher.InDrain?
  {
    s.(flusher := s.flusher.(step := step))
  }

  function Advance(s: Sys): Sys
    requires s.flusher.InDrain?
  {
    var d := s.flusher.drain;
    s.(flusher := InDrain(s.flusher.tick, d.(at := d.at + 1), Check))
  }

  /** One step of the intrusive drain. */
  function DrainApply(k: Settings, s: Sys): Sys
    requires k.capacity > 0 && DrainEnabled(s)
  {
    var d := s.flusher.drain;
    if d.at >= |d.handles| then
      s.(handles := Pruned(s.handles, s.threads), missed := MidExit(s.threads, s.drainEpoch), flusher := InFlush(s.flusher.tick, Gate))
    else
      var t := d.handles[d.at];
      var th := s.threads[t];
      match s.flusher.step
      case Check => if th.flushEpoch >= d.epoch then Advance(s) else GoTo(s, Upgrade)
      case Upgrade => if Strong(th) then GoTo(s, Lock) else Advance(s)
      case Lock => GoTo(s, Flush)
      case Flush => if th.events == [] then GoTo(s, Stamp) else GoTo(FlushBuffer(k, s, t), Count(Full(k, s)))
      case Count(evicted) => GoTo(CountIf(s, evicted), Stamp)
      case Stamp => GoTo(SetThread(s, t, th.(flushEpoch := d.epoch)), Release)
      case Release => Advance(if th.pc == HandedOver then SetPc(s, t, Dying) else s)
  }

  function FlushTo(s: Sys, action: FlushStep): Sys
    requires s.flusher.InFlush?
  {
    s.(flusher := s.flusher.(action := action))
  }

  predicate FlushEnabled(s: Sys) {
    && s.flusher.InFlush?
    && |s.threads| > 0
    && (s.flusher.action.Sources? ==> s.threads[FLUSH_THREAD].pc == Idle)
  }

  /** Hand the oldest batch to the writer; an error ends the cycle. */
  function PopNext(k: Settings, s: Sys, env: WriteEnv): Sys
    requires s.flusher.InFlush?
  {
    if s.ring == [] then FlushTo(s, Close(true))
    else
      var b := s.ring[0];
      var s1 := s.(ring := s.ring[1..], removed := s.removed + [Removal(b, Popped)]);
      if |b.events| == 0 then s1
      else
        var out := Written(k.writer, s.writer, b, env);
        var s2 := WriterMoved(s1, out.writer);
        if out.ok then s2 else FlushTo(s2.(writeFailed := true), DisableOnError)
  }

  /** Notify the writer of the drain, or finalize it on exit. */
  function ClosedCycle(k: Settings, s: Sys, env: FlushEnv): Sys
    requires s.flusher.InFlush?
  {
    var tick := s.flusher.tick;
    if tick.exit then
      var updated := if env.entries == [] then s.writer else Updated(s.writer, env.entries);
      var described := MetadataIfNeeded(updated, env.meta).writer;
      WriterMoved(s, Finalized(k.writer, described, env.sealMeta, env.io).writer).(flusher := Finished(s.flusher.action.Close? && s.flusher.action.emptied))
    else if tick.doDrain then
      WriterMoved(s, AfterDrain(k.writer, s.writer, env.now, env.rotate).writer).(flusher := Waiting)
    else s.(flusher := Waiting)
  }

  /** One step of a flush cycle. */
  function FlushApply(k: Settings, s: Sys, env: FlushEnv): Sys
    requires k.capacity > 0 && FlushEnabled(s)
  {
    match s.flusher.action
    case Gate => FlushTo(s, if s.phase == Enabled then Sources else DrainSelf)
    case Sources => FlushTo(s, DrainSelf)
    case DrainSelf =>
      if !s.flusher.tick.drainSelf || s.threads[FLUSH_THREAD].events == [] then FlushTo(s, TakeDropped)
      else FlushTo(FlushBuffer(k, s, FLUSH_THREAD), CountSelf(Full(k, s)))
    case CountSelf(evicted) => FlushTo(CountIf(s, evicted), TakeDropped)
    case TakeDropped => FlushTo(s.(taken := s.taken + s.dropped, dropped := 0), Pop)
    case Pop => PopNext(k, s, env.write)
    case DisableOnError => FlushTo(if s.phase == Enabled then s.(phase := Disabled) else s, Close(false))
    case Close(_) => ClosedCycle(k, s, env)
  }

  // ----- The system -----

  predicate Allowed(s: Sys, a: Action) {
    if a.Wake? then WakeEnabled(s, a.exit)
    else if a.Decide? then s.flusher.Deciding?
    else if a.Snapshot? then s.flusher.Snapshotting?
    else if a.DrainNext? then DrainEnabled(s)
    else if a.FlushNext? then FlushEnabled(s)
    else ThreadEnabled(s, a) || ControlEnabled(s, a)
  }

  /** The state after one allowed step. */
  function Next(k: Settings, s: Sys, a: Action): Sys
    requires k.capacity > 0 && Allowed(s, a)
  {
    if a.Wake? then Woken(s, a.exit)
    else if a.Decide? then Decided(s, a.now, a.entries)
    else if a.Snapshot? then Snapshotted(s)
    else if a.DrainNext? then DrainApply(k, s)
    else if a.FlushNext? then FlushApply(k, s, a.env)
    else if ThreadEnabled(s, a) then ThreadApply(k, s, a)
    else ControlApply(k, s, a)
  }

  /** A recorder that has just started: only the flush thread exists and recording is off. */
  ghost predicate Init(k: Settings, s: Sys) {
    && s.phase == Disabled && s.drainEpoch == 0 && s.threads == [NewThread(k)] && s.handles == []
    && s.ring == [] && s.dropped == 0 && s.flusher == Waiting && !s.bumped && s.cycle == 0 && s.stop == Running
    && (exists found, first, metadata, now, open {:trigger Created(k.writer, found, first, metadata, now, open)} ::
          (!k.writer.isDisk ==> found == []) && s.writer == Created(k.writer, found, first, metadata, now, open))
    && s.pushed == [] && s.removed == [] && s.taken == 0 && s.marks == [[0]]
    && s.missed == {} && s.notes == [] && !s.writeFailed && s.stopMark == []
  }

  /** The states of a run, one allowed step at a time, from a fresh recorder. */
  ghost predicate Run(k: Settings, states: seq<Sys>, actions: seq<Action>) {
    && k.capacity > 0 && |states| == |actions| + 1
    && Init(k, states[0])
    && forall i {:trigger actions[i]} :: 0 <= i < |actions| ==> Allowed(states[i], actions[i]) && states[i + 1] == Next(k, states[i], actions[i])
  }
}
