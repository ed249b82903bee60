/**
 Building runs of the recording pipeline step by step: chains of allowed steps, what a story needs
 to know of a state, and the stretches that stories are made of.
 */
module RecordingScenes {
  import opened Collector
  import opened SegmentSpec
  import opened RecordingProtocol

  // ----- Chains of steps -----

  /** The actions lead through these states, one allowed step at a time. */
  ghost predicate Chain(k: Settings, states: seq<Sys>, actions: seq<Action>) {
    && k.capacity > 0 && |states| == |actions| + 1
    && forall i {:trigger actions[i]} :: 0 <= i < |actions| ==> Allowed(states[i], actions[i]) && states[i + 1] == Next(k, states[i], actions[i])
  }

  lemma ChainStep(k: Settings, states: seq<Sys>, actions: seq<Action>, a: Action)
    requires Chain(k, states, actions) && Allowed(states[|actions|], a)
    ensures Chain(k, states + [Next(k, states[|actions|], a)], actions + [a])
  {
    hide Next, Allowed;
  }

  lemma ChainStart(k: Settings, s: Sys)
    requires k.capacity > 0
    ensures Chain(k, [s], [])
  {
  }

  lemma {:induction false} ChainJoin(k: Settings, states: seq<Sys>, actions: seq<Action>, more: seq<Sys>, rest: seq<Action>)
    requires Chain(k, states, actions) && Chain(k, more, rest) && states[|actions|] == more[0]
    ensures Chain(k, states + more[1..], actions + rest)
    ensures (states + more[1..])[|actions| + |rest|] == more[|rest|]
  {
    hide Next, Allowed;
    var all, steps := states + more[1..], actions + rest;
    forall i | 0 <= i < |steps|
      ensures Allowed(all[i], steps[i]) && all[i + 1] == Next(k, all[i], steps[i])
    {
      if i >= |actions| {
        assert all[i] == more[i - |actions|] && all[i + 1] == more[i + 1 - |actions|];
      }
    }
  }

  lemma ChainCount(k: Settings, states: seq<Sys>, actions: seq<Action>)
    requires Chain(k, states, actions)
    ensures |states| == |actions| + 1
  {
    hide Next, Allowed;
  }

  lemma RunOf(k: Settings, states: seq<Sys>, actions: seq<Action>)
    requires Chain(k, states, actions) && Init(k, states[0])
    ensures Run(k, states, actions)
  {
    hide Next, Allowed, Init;
  }

  // ----- Stretches -----

  /** Every clock that the step reads shows this time. */
  predicate ReadsAt(a: Action, time: real) {
    match a
    case Decide(now, _) => now == time
    case FlushNext(env) => env.now == time && env.rotate.now == time && env.write.rotate.now == time
    case _ => true
  }

  /** What the steps of a stretch have in common: the time, or that they are the drain's. */
  datatype Pace = At(time: real) | Draining

  predicate Fits(pace: Pace, a: Action) {
    match pace
    case At(time) => ReadsAt(a, time)
    case Draining => a.DrainNext?
  }

  ghost predicate AllFit(pace: Pace, actions: seq<Action>) {
    forall i :: 0 <= i < |actions| ==> Fits(pace, actions[i])
  }

  /** Some allowed steps at this pace lead from `s` to `s'`. */
  ghost predicate Reaches(k: Settings, pace: Pace, s: Sys, s': Sys) {
    exists states, actions {:trigger Chain(k, states, actions)} ::
      Chain(k, states, actions) && AllFit(pace, actions) && states[0] == s && states[|actions|] == s'
  }

  lemma Path(k: Settings, pace: Pace, s: Sys, s': Sys) returns (states: seq<Sys>, actions: seq<Action>)
    requires Reaches(k, pace, s, s')
    ensures Chain(k, states, actions) && AllFit(pace, actions) && states[0] == s && states[|actions|] == s'
  {
    states, actions :| Chain(k, states, actions) && AllFit(pace, actions) && states[0] == s && states[|actions|] == s';
  }

  lemma Go(k: Settings, pace: Pace, s0: Sys, s: Sys, a: Action)
    requires k.capacity > 0 && Reaches(k, pace, s0, s) && Allowed(s, a) && Fits(pace, a)
    ensures Reaches(k, pace, s0, Next(k, s, a))
  {
    hide Next, Allowed, Fits;
    var states, actions := Path(k, pace, s0, s);
    ChainStep(k, states, actions, a);
    var more, steps := states + [Next(k, s, a)], actions + [a];
    assert AllFit(pace, steps);
    assert Chain(k, more, steps) && more[0] == s0 && more[|steps|] == Next(k, s, a);
  }

  lemma Stay(k: Settings, pace: Pace, s: Sys)
    requires k.capacity > 0
    ensures Reaches(k, pace, s, s)
  {
    ChainStart(k, s);
    assert Chain(k, [s], []) && AllFit(pace, []) && [s][0] == s;
  }

  // ----- Runs against a clock -----

  /** The steps read clocks that never go back, from `from` on and up to `to`. */
  ghost predicate Clocked(actions: seq<Action>, times: seq<real>, from: real, to: real) {
    && |times| == |actions| && from <= to
    && (forall i :: 0 <= i < |actions| ==> ReadsAt(actions[i], times[i]) && from <= times[i] <= to)
    && (forall i, j :: 0 <= i < j < |times| ==> times[i] <= times[j])
  }

  /** A story told so far: a chain of steps against a clock. */
  ghost predicate Told(k: Settings, states: seq<Sys>, actions: seq<Action>, times: seq<real>, from: real, to: real) {
    Chain(k, states, actions) && Clocked(actions, times, from, to)
  }

  lemma ToldStart(k: Settings, s: Sys, from: real)
    requires k.capacity > 0
    ensures Told(k, [s], [], [], from, from)
  {
  }

  lemma ClockedStep(actions: seq<Action>, times: seq<real>, from: real, to: real, a: Action, time: real)
    requires Clocked(actions, times, from, to) && to <= time && ReadsAt(a, time)
    ensures Clocked(actions + [a], times + [time], from, time)
  {
    hide ReadsAt;
  }

  lemma {:induction false} ClockedJoin(actions: seq<Action>, times: seq<real>, from: real, to: real, rest: seq<Action>, time: real)
      returns (more: seq<real>)
    requires Clocked(actions, times, from, to) && to <= time && AllFit(At(time), rest)
    ensures Clocked(actions + rest, more, from, time)
  {
    hide ReadsAt;
    more := times + seq(|rest|, i requires 0 <= i < |rest| => time);
    assert forall i :: 0 <= i < |rest| ==> Fits(At(time), rest[i]);
    assert forall i :: 0 <= i < |rest| ==> (actions + rest)[|actions| + i] == rest[i];
  }

  /** The story goes on with one step. */
  lemma TellStep(k: Settings, states: seq<Sys>, actions: seq<Action>, times: seq<real>, from: real, to: real, a: Action, time: real)
      returns (more: seq<Sys>, steps: seq<Action>, clock: seq<real>)
    requires Told(k, states, actions, times, from, to) && Allowed(states[|actions|], a) && ReadsAt(a, time) && to <= time
    ensures Told(k, more, steps, clock, from, time) && states <= more && |steps| == |actions| + 1 && |more| == |states| + 1
    ensures more[|actions| + 1] == Next(k, states[|actions|], a)
  {
    ChainCount(k, states, actions);
    hide Chain, Clocked, Next, Allowed, ReadsAt;
    ChainStep(k, states, actions, a);
    ClockedStep(actions, times, from, to, a, time);
    more, steps, clock := states + [Next(k, states[|actions|], a)], actions + [a], times + [time];
  }

  /** The story goes on with a stretch at one time. */
  lemma TellStretch(k: Settings, states: seq<Sys>, actions: seq<Action>, times: seq<real>, from: real, to: real, time: real, s': Sys)
      returns (more: seq<Sys>, steps: seq<Action>, clock: seq<real>)
    requires Told(k, states, actions, times, from, to) && to <= time && Reaches(k, At(time), states[|actions|], s')
    ensures Told(k, more, steps, clock, from, time) && states <= more && |more| == |steps| + 1 && |actions| <= |steps|
    ensures more[|steps|] == s'
  {
    ChainCount(k, states, actions);
    var after, rest := Path(k, At(time), states[|actions|], s');
    hide Reaches;
    ChainCount(k, after, rest);
    hide Chain, Clocked;
    ChainJoin(k, states, actions, after, rest);
    clock := ClockedJoin(actions, times, from, to, rest, time);
    more, steps := states + after[1..], actions + rest;
  }

  // ----- Scenes -----

  /** What a story needs to know of a state. */
  datatype Scene = Scene(
    threads: seq<Thread>, handles: seq<nat>, ring: seq<Batch>, epoch: nat, bumped: bool, cycle: nat,
    phase: Lifecycle, stop: Stop, missed: set<nat>, failed: bool, writer: Writer)

  predicate Shows(s: Sys, v: Scene, flusher: FlushPc) {
    && s.threads == v.threads && s.handles == v.handles && s.ring == v.ring && s.drainEpoch == v.epoch
    && s.bumped == v.bumped && s.cycle == v.cycle && s.phase == v.phase && s.stop == v.stop && s.missed == v.missed
    && s.writeFailed == v.failed && s.writer == v.writer && s.flusher == flusher
  }

  function WithThread(v: Scene, t: nat, th: Thread): Scene
    requires t < |v.threads|
  {
    v.(threads := v.threads[t := th])
  }

  /** Encoded sizes: of an event, of a metadata record, of a segment's beginning. */
  datatype Sizes = Sizes(event: nat, meta: nat, segment: nat)

  /** A thread after its only recording call, its event still buffered. */
  function Buffered(k: Settings, z: Sizes, t: nat): Thread {
    Thread(Idle, [Event(t, 0)], k.header + z.event, true, false, 0, 1, 1)
  }

  /** A thread after its buffer was flushed and dropped. */
  function Left(k: Settings): Thread {
    Thread(Gone, [], k.header, true, false, 0, 1, 1)
  }

  function BatchOf(k: Settings, z: Sizes, t: nat): Batch {
    Batch(t, [Event(t, 0)], k.header + z.event)
  }

  // ----- Recording threads -----

  /** A step that changes only the record of thread `t`. */
  lemma ThreadMoves(k: Settings, p: Pace, s0: Sys, s: Sys, v: Scene, f: FlushPc, a: Action, t: nat, th: Thread, th': Thread) returns (s': Sys)
    requires k.capacity > 0 && Reaches(k, p, s0, s) && t < |v.threads| && Shows(s, WithThread(v, t, th), f) && Fits(p, a)
    requires ThreadEnabled(s, a) && ThreadApply(k, s, a) == SetThread(s, t, th')
    ensures Reaches(k, p, s0, s') && Shows(s', WithThread(v, t, th'), f)
  {
    hide ThreadApply, Reaches, Fits;
    s' := SetThread(s, t, th');
    assert s'.threads == v.threads[t := th'];
    Go(k, p, s0, s, a);
  }

  /** Thread `t` may begin a recording call; the flush thread does so in its sources. */
  predicate CanCall(v: Scene, f: FlushPc, t: nat) {
    && t < |v.threads| && v.epoch == 0 && !f.InDrain?
    && if t == FLUSH_THREAD then f.InFlush? && f.action == Sources else v.phase == Enabled && v.stop == Running
  }

  lemma CallBegins(k: Settings, p: Pace, s0: Sys, s: Sys, v: Scene, f: FlushPc, z: Sizes, t: nat) returns (s': Sys)
    requires k.capacity > 0 && p.At? && Reaches(k, p, s0, s) && Shows(s, v, f) && CanCall(v, f, t) && v.threads[t] == NewThread(k)
    ensures Reaches(k, p, s0, s')
    ensures Shows(s', WithThread(v, t, Thread(Encoded, [Event(t, 0)], k.header + z.event, true, true, 0, 1, 0)), f)
  {
    hide Reaches, FlushBuffer, Returned;
    var th := v.threads[t];
    assert WithThread(v, t, th) == v;
    var s1 := ThreadMoves(k, p, s0, s, v, f, Begin(t), t, th, th.(pc := Checked));
    var th2 := th.(pc := Encoding, hasCollector := true, first := true);
    var s2 := ThreadMoves(k, p, s0, s1, v, f, LockOwn(t), t, th.(pc := Checked), th2);
    s' := Encodes(k, p, s0, s2, v, f, z, t);
  }

  lemma Encodes(k: Settings, p: Pace, s0: Sys, s: Sys, v: Scene, f: FlushPc, z: Sizes, t: nat) returns (s': Sys)
    requires k.capacity > 0 && p.At? && Reaches(k, p, s0, s) && t < |v.threads|
    requires Shows(s, WithThread(v, t, Thread(Encoding, [], k.header, true, true, 0, 0, 0)), f)
    ensures Reaches(k, p, s0, s')
    ensures Shows(s', WithThread(v, t, Thread(Encoded, [Event(t, 0)], k.header + z.event, true, true, 0, 1, 0)), f)
  {
    hide Reaches, FlushBuffer;
    var th := Thread(Encoding, [], k.header, true, true, 0, 0, 0);
    assert ThreadApply(k, s, Encode(t, 1, z.event)).threads[t].events == [Event(t, 0)];
    s' := ThreadMoves(k, p, s0, s, v, f, Encode(t, 1, z.event), t, th, Thread(Encoded, [Event(t, 0)], k.header + z.event, true, true, 0, 1, 0));
  }

  /** A first recording call up to its unlocking: the buffer is neither full nor behind. */
  lemma CallTests(k: Settings, p: Pace, s0: Sys, s: Sys, v: Scene, f: FlushPc, z: Sizes, t: nat) returns (s': Sys)
    requires k.capacity > 0 && k.header + z.event < k.batchSize && p.At?
    requires Reaches(k, p, s0, s) && Shows(s, v, f) && CanCall(v, f, t) && v.threads[t] == NewThread(k)
    ensures Reaches(k, p, s0, s')
    ensures Shows(s', WithThread(v, t, Thread(Unlocking, [Event(t, 0)], k.header + z.event, true, true, 0, 1, 0)), f)
  {
    hide Reaches, FlushBuffer;
    var th := Thread(Encoded, [Event(t, 0)], k.header + z.event, true, true, 0, 1, 0);
    var s1 := CallBegins(k, p, s0, s, v, f, z, t);
    var s2 := ThreadMoves(k, p, s0, s1, v, f, LoadEpoch(t), t, th, th.(pc := Loaded(0)));
    s' := ThreadMoves(k, p, s0, s2, v, f, Test(t), t, th.(pc := Loaded(0)), th.(pc := Unlocking));
  }

  /** A thread's first recording call: it registers its handle and returns with its event buffered. */
  lemma FirstCall(k: Settings, p: Pace, s0: Sys, s: Sys, v: Scene, f: FlushPc, z: Sizes, t: nat) returns (s': Sys)
    requires k.capacity > 0 && k.header + z.event < k.batchSize && p.At? && t != FLUSH_THREAD
    requires Reaches(k, p, s0, s) && Shows(s, v, f) && CanCall(v, f, t) && v.threads[t] == NewThread(k)
    ensures Reaches(k, p, s0, s') && Shows(s', WithThread(v, t, Buffered(k, z, t)).(handles := v.handles + [t]), f)
  {
    hide Reaches, FlushBuffer;
    var th := Thread(Unlocking, [Event(t, 0)], k.header + z.event, true, true, 0, 1, 0);
    var s1 := CallTests(k, p, s0, s, v, f, z, t);
    var s2 := ThreadMoves(k, p, s0, s1, v, f, Unlock(t), t, th, th.(pc := Registering));
    s' := Next(k, s2, Register(t));
    assert s'.threads == v.threads[t := Buffered(k, z, t)];
    Go(k, p, s0, s2, Register(t));
  }

  /** A source records an event on the flush thread's own buffer, whose handle is never registered. */
  lemma SourceCall(k: Settings, p: Pace, s0: Sys, s: Sys, v: Scene, f: FlushPc, z: Sizes) returns (s': Sys)
    requires k.capacity > 0 && k.header + z.event < k.batchSize && p.At?
    requires Reaches(k, p, s0, s) && Shows(s, v, f) && CanCall(v, f, FLUSH_THREAD) && v.threads[FLUSH_THREAD] == NewThread(k)
    ensures Reaches(k, p, s0, s') && Shows(s', WithThread(v, FLUSH_THREAD, Buffered(k, z, FLUSH_THREAD)), f)
  {
    hide Reaches, FlushBuffer;
    var t := FLUSH_THREAD;
    var th := Thread(Unlocking, [Event(t, 0)], k.header + z.event, true, true, 0, 1, 0);
    var s1 := CallTests(k, p, s0, s, v, f, z, t);
    s' := ThreadMoves(k, p, s0, s1, v, f, Unlock(t), t, th, Buffered(k, z, t));
  }

  /** The thread exits; nobody else refers to its buffer. */
  lemma Exits(k: Settings, p: Pace, s0: Sys, s: Sys, v: Scene, z: Sizes, t: nat) returns (s': Sys)
    requires k.capacity > 0 && p.At? && Reaches(k, p, s0, s) && Shows(s, v, Waiting) && v.stop == Running
    requires 0 < t < |v.threads| && v.threads[t] == Buffered(k, z, t)
    ensures Reaches(k, p, s0, s') && Shows(s', WithThread(v, t, Buffered(k, z, t).(pc := Dying)), Waiting)
  {
    hide Reaches, FlushBuffer;
    assert WithThread(v, t, v.threads[t]) == v;
    s' := ThreadMoves(k, p, s0, s, v, Waiting, Exit(t), t, Buffered(k, z, t), Buffered(k, z, t).(pc := Dying));
  }

  lemma DropPushes(k: Settings, s: Sys, v: Scene, z: Sizes, t: nat)
    requires k.capacity > 0 && |v.ring| < k.capacity && t < |v.threads|
    requires Shows(s, v, Waiting) && v.threads[t] == Buffered(k, z, t).(pc := Dying)
    ensures Allowed(s, DropBuffer(t))
    ensures Shows(Next(k, s, DropBuffer(t)),
                  WithThread(v, t, Left(k).(pc := DropPushed(false))).(ring := v.ring + [BatchOf(k, z, t)]), Waiting)
  {
    var s' := Next(k, s, DropBuffer(t));
    assert s'.threads == v.threads[t := Left(k).(pc := DropPushed(false))];
  }

  /** The exited thread's buffer is dropped, which pushes its event. */
  lemma Drops(k: Settings, p: Pace, s0: Sys, s: Sys, v: Scene, z: Sizes, t: nat) returns (s': Sys)
    requires k.capacity > 0 && p.At? && Reaches(k, p, s0, s) && Shows(s, v, Waiting) && |v.ring| < k.capacity
    requires 0 < t < |v.threads| && v.threads[t] == Buffered(k, z, t).(pc := Dying)
    ensures Reaches(k, p, s0, s') && Shows(s', WithThread(v, t, Left(k)).(ring := v.ring + [BatchOf(k, z, t)]), Waiting)
  {
    DropPushes(k, s, v, z, t);
    hide Reaches, FlushBuffer, Next, Allowed;
    Go(k, p, s0, s, DropBuffer(t));
    var pushed := v.(ring := v.ring + [BatchOf(k, z, t)]);
    s' := ThreadMoves(k, p, s0, Next(k, s, DropBuffer(t)), pushed, Waiting, CountDrop(t), t, Left(k).(pc := DropPushed(false)), Left(k));
  }

  /** The thread exits and drops its buffer at once. */
  lemma Leaves(k: Settings, p: Pace, s0: Sys, s: Sys, v: Scene, z: Sizes, t: nat) returns (s': Sys)
    requires k.capacity > 0 && p.At? && Reaches(k, p, s0, s) && |v.ring| < k.capacity
    requires Shows(s, v, Waiting) && v.stop == Running && 0 < t < |v.threads| && v.threads[t] == Buffered(k, z, t)
    ensures Reaches(k, p, s0, s') && Shows(s', WithThread(v, t, Left(k)).(ring := v.ring + [BatchOf(k, z, t)]), Waiting)
  {
    hide Reaches, Shows;
    var s1 := Exits(k, p, s0, s, v, z, t);
    var gone := WithThread(v, t, Buffered(k, z, t).(pc := Dying));
    s' := Drops(k, p, s0, s1, gone, z, t);
    assert WithThread(gone, t, Left(k)) == WithThread(v, t, Left(k));
  }

  // ----- Control -----

  lemma EnableSpawn(k: Settings, p: Pace, s: Sys) returns (s': Sys, v: Scene)
    requires k.capacity > 0 && p.At? && Init(k, s)
    ensures Reaches(k, p, s, s') && Shows(s', v, Waiting)
    ensures v == Scene([NewThread(k), NewThread(k)], [], [], 0, false, 0, Enabled, Running, {}, false, s.writer)
  {
    hide Reaches, Created;
    Stay(k, p, s);
    var s1 := Next(k, s, Enable);
    Go(k, p, s, s, Enable);
    s' := Next(k, s1, Spawn);
    Go(k, p, s, s1, Spawn);
    v := Scene([NewThread(k), NewThread(k)], [], [], 0, false, 0, Enabled, Running, {}, false, s.writer);
  }

  lemma Spawns(k: Settings, p: Pace, s0: Sys, s: Sys, v: Scene) returns (s': Sys)
    requires k.capacity > 0 && p.At? && Reaches(k, p, s0, s) && Shows(s, v, Waiting)
    ensures Reaches(k, p, s0, s') && Shows(s', v.(threads := v.threads + [NewThread(k)]), Waiting)
  {
    hide Reaches, FlushBuffer;
    s' := Next(k, s, Spawn);
    Go(k, p, s0, s, Spawn);
  }

  lemma LosesSenders(k: Settings, p: Pace, s0: Sys, s: Sys, v: Scene) returns (s': Sys)
    requires k.capacity > 0 && p.At? && Reaches(k, p, s0, s) && Shows(s, v, Waiting) && v.stop == Running
    ensures Reaches(k, p, s0, s') && Shows(s', v.(stop := SendersGone), Waiting)
  {
    hide Reaches, FlushBuffer;
    s' := Next(k, s, LoseSenders);
    Go(k, p, s0, s, LoseSenders);
  }

  // ----- The flush loop -----

  lemma Wakes(k: Settings, p: Pace, s0: Sys, s: Sys, v: Scene, exit: bool) returns (s': Sys)
    requires k.capacity > 0 && p.At? && Reaches(k, p, s0, s) && Shows(s, v, Waiting)
    requires if exit then v.stop == SendersGone else v.phase == Enabled
    ensures Reaches(k, p, s0, s') && Shows(s', v, Deciding(exit))
  {
    hide Reaches;
    s' := Next(k, s, Wake(exit));
    Go(k, p, s0, s, Wake(exit));
  }

  /** The tick of the next iteration. */
  function TickOf(v: Scene, exit: bool): Tick {
    Tick(exit, v.bumped, exit || (v.cycle + 1) % SELF_DRAIN_INTERVAL == 0)
  }

  function DecidedScene(v: Scene, exit: bool, now: real): Scene {
    var schedule := !exit && !v.bumped && ShouldDrain(v.writer, now);
    v.(epoch := if schedule || exit then v.epoch + 1 else v.epoch, bumped := schedule, cycle := v.cycle + 1)
  }

  /** What an iteration of the loop decides to do. */
  lemma Decides(k: Settings, s: Sys, v: Scene, exit: bool, now: real)
    requires k.capacity > 0 && Shows(s, v, Deciding(exit))
    ensures Allowed(s, Decide(now, []))
    ensures Shows(Next(k, s, Decide(now, [])), DecidedScene(v, exit, now),
                  if exit || v.bumped then Snapshotting(TickOf(v, exit)) else InFlush(TickOf(v, exit), Gate))
  {
    hide ShouldDrain;
  }

  /** One step of the flush cycle. */
  lemma LoopMoves(k: Settings, p: Pace, s0: Sys, s: Sys, env: FlushEnv) returns (s': Sys)
    requires k.capacity > 0 && Reaches(k, p, s0, s) && FlushEnabled(s) && Fits(p, FlushNext(env))
    ensures s' == FlushApply(k, s, env) && Reaches(k, p, s0, s')
  {
    hide Reaches, FlushApply, FlushEnabled, Fits;
    s' := FlushApply(k, s, env);
    GoFlush(k, s, env);
    Go(k, p, s0, s, FlushNext(env));
  }

  lemma GoFlush(k: Settings, s: Sys, env: FlushEnv)
    requires k.capacity > 0 && FlushEnabled(s)
    ensures Allowed(s, FlushNext(env)) && Next(k, s, FlushNext(env)) == FlushApply(k, s, env)
  {
    hide FlushApply;
  }

  /** A cycle starts: with recording enabled the sources are next. */
  lemma ToSources(k: Settings, p: Pace, s0: Sys, s: Sys, v: Scene, tick: Tick, env: FlushEnv) returns (s': Sys)
    requires k.capacity > 0 && Reaches(k, p, s0, s) && Shows(s, v, InFlush(tick, Gate)) && Fits(p, FlushNext(env))
    requires |v.threads| > 0
    ensures Reaches(k, p, s0, s') && Shows(s', v, InFlush(tick, if v.phase == Enabled then Sources else DrainSelf))
  {
    hide Reaches, FlushBuffer, PopNext, ClosedCycle;
    s' := LoopMoves(k, p, s0, s, env);
  }

  /** The sources are done and the flush thread's own buffer has nothing to flush or is held back. */
  lemma PassSelf(k: Settings, p: Pace, s0: Sys, s: Sys, v: Scene, tick: Tick, env: FlushEnv, from: FlushStep) returns (s': Sys)
    requires k.capacity > 0 && Reaches(k, p, s0, s) && Shows(s, v, InFlush(tick, from)) && Fits(p, FlushNext(env))
    requires (from == Sources || from == DrainSelf) && |v.threads| > 0
    requires v.threads[0].pc == Idle && (v.threads[0].events == [] || !tick.drainSelf)
    ensures Reaches(k, p, s0, s') && Shows(s', v, InFlush(tick, Pop))
  {
    hide Reaches, FlushBuffer, PopNext, ClosedCycle;
    var s1 := s;
    if from == Sources {
      s1 := LoopMoves(k, p, s0, s, env);
    }
    var s2 := LoopMoves(k, p, s0, s1, env);
    s' := LoopMoves(k, p, s0, s2, env);
  }

  /** From the start of a cycle to its first pop, with quiet sources. */
  lemma ToPop(k: Settings, p: Pace, s0: Sys, s: Sys, v: Scene, tick: Tick, env: FlushEnv) returns (s': Sys)
    requires k.capacity > 0 && Reaches(k, p, s0, s) && Shows(s, v, InFlush(tick, Gate)) && Fits(p, FlushNext(env))
    requires |v.threads| > 0 && v.threads[0].pc == Idle && (v.threads[0].events == [] || !tick.drainSelf)
    ensures Reaches(k, p, s0, s') && Shows(s', v, InFlush(tick, Pop))
  {
    hide Reaches, Shows, Fits;
    var s1 := ToSources(k, p, s0, s, v, tick, env);
    s' := PassSelf(k, p, s0, s1, v, tick, env, if v.phase == Enabled then Sources else DrainSelf);
  }

  lemma SelfFlush(k: Settings, s: Sys, v: Scene, z: Sizes, tick: Tick, env: FlushEnv)
    requires k.capacity > 0 && Shows(s, v, InFlush(tick, DrainSelf)) && |v.ring| < k.capacity
    requires |v.threads| > 0 && v.threads[0] == Buffered(k, z, 0) && tick.drainSelf
    ensures FlushEnabled(s)
    ensures Shows(FlushApply(k, s, env),
                  WithThread(v, 0, Buffered(k, z, 0).(events := [], bytes := k.header)).(ring := v.ring + [BatchOf(k, z, 0)]),
                  InFlush(tick, CountSelf(false)))
  {
    hide PopNext, ClosedCycle;
  }

  /** The flush thread's own buffer is flushed. */
  lemma DrainsSelf(k: Settings, p: Pace, s0: Sys, s: Sys, v: Scene, z: Sizes, tick: Tick, env: FlushEnv) returns (s': Sys)
    requires k.capacity > 0 && Reaches(k, p, s0, s) && Shows(s, v, InFlush(tick, Sources)) && Fits(p, FlushNext(env))
    requires |v.threads| > 0 && v.threads[0] == Buffered(k, z, 0) && tick.drainSelf && |v.ring| < k.capacity
    ensures Reaches(k, p, s0, s')
    ensures Shows(s', WithThread(v, 0, Buffered(k, z, 0).(events := [], bytes := k.header)).(ring := v.ring + [BatchOf(k, z, 0)]),
                  InFlush(tick, Pop))
  {
    hide Reaches, FlushBuffer, PopNext, ClosedCycle;
    var s1 := LoopMoves(k, p, s0, s, env);
    SelfFlush(k, s1, v, z, tick, env);
    var s2 := LoopMoves(k, p, s0, s1, env);
    hide BatchOf;
    var s3 := LoopMoves(k, p, s0, s2, env);
    s' := LoopMoves(k, p, s0, s3, env);
  }

  /** The oldest batch is handed to the writer. */
  lemma Pops(k: Settings, p: Pace, s0: Sys, s: Sys, v: Scene, tick: Tick, env: FlushEnv) returns (s': Sys)
    requires k.capacity > 0 && Reaches(k, p, s0, s) && Shows(s, v, InFlush(tick, Pop)) && |v.threads| > 0
    requires v.ring != [] && |v.ring[0].events| > 0 && Fits(p, FlushNext(env))
    ensures var out := Written(k.writer, v.writer, v.ring[0], env.write);
      && Reaches(k, p, s0, s')
      && Shows(s', v.(ring := v.ring[1..], writer := out.writer, failed := v.failed || !out.ok),
               InFlush(tick, if out.ok then Pop else DisableOnError))
  {
    hide Reaches, Written;
    s' := LoopMoves(k, p, s0, s, env);
  }

  /** The ring is empty. */
  lemma PopsLast(k: Settings, p: Pace, s0: Sys, s: Sys, v: Scene, tick: Tick, env: FlushEnv) returns (s': Sys)
    requires k.capacity > 0 && Reaches(k, p, s0, s) && Shows(s, v, InFlush(tick, Pop)) && |v.threads| > 0
    requires v.ring == [] && Fits(p, FlushNext(env))
    ensures Reaches(k, p, s0, s') && Shows(s', v, InFlush(tick, Close(true)))
  {
    hide Reaches, Written;
    s' := LoopMoves(k, p, s0, s, env);
  }

  /** A cycle without a drain closes. */
  lemma ClosesPlain(k: Settings, p: Pace, s0: Sys, s: Sys, v: Scene, tick: Tick, env: FlushEnv) returns (s': Sys)
    requires k.capacity > 0 && Reaches(k, p, s0, s) && Shows(s, v, InFlush(tick, Close(true))) && !tick.exit && !tick.doDrain
    requires |v.threads| > 0 && Fits(p, FlushNext(env))
    ensures Reaches(k, p, s0, s') && Shows(s', v, Waiting)
  {
    hide Reaches, Written, Finalized, AfterDrain, MetadataIfNeeded;
    s' := LoopMoves(k, p, s0, s, env);
  }

  // ----- Drains that find only exited threads -----

  /** The handles are of threads whose last reference is gone. */
  predicate NoneStrong(v: Scene) {
    forall i :: 0 <= i < |v.handles| ==> v.handles[i] < |v.threads| && !Strong(v.threads[v.handles[i]])
  }

  /** The drain passes over one handle. */
  lemma PassOne(k: Settings, p: Pace, s0: Sys, s: Sys, v: Scene, tick: Tick, at: nat) returns (s': Sys)
    requires k.capacity > 0 && Fits(p, DrainNext) && Reaches(k, p, s0, s) && at < |v.handles| && NoneStrong(v)
    requires Shows(s, v, InDrain(tick, Drain(v.epoch, v.handles, at), Check))
    ensures Reaches(k, p, s0, s') && Shows(s', v, InDrain(tick, Drain(v.epoch, v.handles, at + 1), Check))
  {
    hide Reaches, FlushBuffer, Pruned;
    s' := Next(k, s, DrainNext);
    Go(k, p, s0, s, DrainNext);
    if v.threads[v.handles[at]].flushEpoch < v.epoch {
      var s1 := s';
      s' := Next(k, s1, DrainNext);
      Go(k, p, s0, s1, DrainNext);
    }
  }

  lemma {:induction false} PassUpTo(k: Settings, p: Pace, s0: Sys, s: Sys, v: Scene, tick: Tick, at: nat) returns (s': Sys)
    requires k.capacity > 0 && Fits(p, DrainNext) && Reaches(k, p, s0, s) && at <= |v.handles| && NoneStrong(v)
    requires Shows(s, v, InDrain(tick, Drain(v.epoch, v.handles, at), Check))
    ensures Reaches(k, p, s0, s') && Shows(s', v, InDrain(tick, Drain(v.epoch, v.handles, |v.handles|), Check))
    decreases |v.handles| - at
  {
    hide Reaches, NoneStrong, Shows, Fits;
    if at < |v.handles| {
      var s1 := PassOne(k, p, s0, s, v, tick, at);
      s' := PassUpTo(k, p, s0, s1, v, tick, at + 1);
    } else {
      s' := s;
    }
  }

  /** The drain takes its snapshot and passes over every handle. */
  lemma Passes(k: Settings, p: Pace, s0: Sys, s: Sys, v: Scene, tick: Tick) returns (s': Sys)
    requires k.capacity > 0 && p.At? && Reaches(k, p, s0, s) && Shows(s, v, Snapshotting(tick)) && NoneStrong(v)
    ensures Reaches(k, p, s0, s') && Shows(s', v, InDrain(tick, Drain(v.epoch, v.handles, |v.handles|), Check))
  {
    hide Reaches, NoneStrong;
    var s1 := Next(k, s, Snapshot);
    Go(k, p, s0, s, Snapshot);
    s' := PassUpTo(k, p, s0, s1, v, tick, 0);
  }

  lemma {:induction false} NoneKept(handles: seq<nat>, threads: seq<Thread>)
    requires forall i :: 0 <= i < |handles| ==> handles[i] < |threads| && !Strong(threads[handles[i]])
    ensures Pruned(handles, threads) == []
  {
    if |handles| != 0 {
      NoneKept(handles[..|handles| - 1], threads);
    }
  }

  /** The drain ends: it forgets all handles, and knows whom it missed. */
  lemma DrainForgets(k: Settings, p: Pace, s0: Sys, s: Sys, v: Scene, tick: Tick) returns (s': Sys)
    requires k.capacity > 0 && p.At? && Reaches(k, p, s0, s) && NoneStrong(v)
    requires Shows(s, v, InDrain(tick, Drain(v.epoch, v.handles, |v.handles|), Check))
    ensures Reaches(k, p, s0, s')
    ensures Shows(s', v.(handles := [], missed := MidExit(v.threads, v.epoch)), InFlush(tick, Gate))
  {
    NoneKept(v.handles, v.threads);
    hide Reaches, FlushBuffer, Pruned, MidExit;
    s' := Next(k, s, DrainNext);
    Go(k, p, s0, s, DrainNext);
  }

  /** The loop wakes up to drain and gets to the start of its cycle. */
  lemma DrainsToCycle(k: Settings, p: Pace, s0: Sys, s: Sys, v: Scene, exit: bool) returns (s': Sys)
    requires k.capacity > 0 && p.At? && Reaches(k, p, s0, s) && Shows(s, v, Waiting) && NoneStrong(v)
    requires if exit then v.stop == SendersGone else v.phase == Enabled && v.bumped
    ensures var v' := DecidedScene(v, exit, p.time);
      && Reaches(k, p, s0, s')
      && Shows(s', v'.(handles := [], missed := MidExit(v.threads, v'.epoch)), InFlush(TickOf(v, exit), Gate))
  {
    var v' := DecidedScene(v, exit, p.time);
    assert NoneStrong(v');
    hide Reaches, Shows, Next, Allowed, NoneStrong, MidExit;
    var s1 := Wakes(k, p, s0, s, v, exit);
    Decides(k, s1, v, exit, p.time);
    Go(k, p, s0, s1, Decide(p.time, []));
    var s2 := Passes(k, p, s0, Next(k, s1, Decide(p.time, [])), v', TickOf(v, exit));
    s' := DrainForgets(k, p, s0, s2, v', TickOf(v, exit));
  }
}
