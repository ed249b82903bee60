/**
 How `segment.complete=true` can be wrong: runs from a fresh recorder in which one stamped segment
 misses an event that had returned before its own drain's bump, and the next stamped segment holds
 an event that had returned before the bump of the previous seal's drain.

 In both, thread 1 records one event, which is written first. A drain falls due, its epoch is
 bumped when further events have returned, and the segment is sealed as drained at its rotation
 deadline. Then the loop loses its senders and seals the next segment on its way out. Clocks never
 go back, and the sizes of events, metadata records and segment beginnings are arbitrary.
 */
module StampWitness {
  import opened Wrappers
  import opened Collector
  import opened Rotation
  import opened SegmentSpec
  import opened SegmentProofs
  import opened SegmentInvariants
  import opened RecordingProtocol
  import opened RecordingSeals
  import opened RecordingTheorems
  import opened RecordingScenes
  import opened EndToEnd

  // ----- The writer's part -----

  /**
   The settings leave room: for two batches in the ring, for an event in a buffer, for one batch in
   the first segment and two in the next.
   */
  predicate Roomy(k: Settings, w: Writer, z: Sizes) {
    && k.capacity >= 2 && k.header + z.event < k.batchSize
    && w.active.Some? && w.nextRotation.Some?
    && w.active.value.bytes + z.meta + (k.header + z.event) <= k.writer.maxFileSize
    && z.segment + z.meta + 2 * (k.header + z.event) <= k.writer.maxFileSize
    && z.segment <= k.writer.maxTotalSize
  }

  /** A writer that has sealed nothing yet and rotates by time. */
  predicate Opened(w: Writer) {
    w.active.Some? && w.nextIndex >= 1 && w.priorSeal == Drained && w.log == [] && w.nextRotation.Some?
  }

  /** What the clock shows when thread 1's batch is written, at the bump, at the first seal and on exit. */
  datatype Readings = Readings(written: real, bumped: real, sealed: real, exited: real)

  /** Time does not go back; a drain is due at the bump and a rotation at the seal. */
  predicate Passing(w: Writer, r: Readings) {
    && w.nextRotation.Some? && w.segmentStartedAt <= r.written <= r.bumped <= r.sealed <= r.exited
    && w.nextDrain <= r.bumped && w.nextRotation.value <= r.sealed
  }

  lemma InitOpened(k: Settings, s: Sys, z: Sizes)
    requires Init(k, s) && Roomy(k, s.writer, z)
    ensures Opened(s.writer) && !s.writer.hasRealEvents && s.writer.active.value.needMetadata
  {
    hide EvictCount, Total;
  }

  /** Every write and seal of the step succeeds, except that `batch` is what becomes of a batch write. */
  function Env(z: Sizes, now: real, batch: BatchWrite): FlushEnv {
    var rotate := RotateEnv(now, Wrote(z.meta), IoOk, Some(z.segment));
    FlushEnv(WriteEnv(Wrote(z.meta), batch, rotate), now, rotate, [], Wrote(z.meta), Wrote(z.meta), IoOk)
  }

  function Smooth(z: Sizes, now: real): FlushEnv {
    Env(z, now, BatchWrote)
  }

  /** The writer after it took a batch that still fits the segment. */
  function Took(k: Settings, z: Sizes, w: Writer, t: nat, now: real): Writer {
    Written(k.writer, w, BatchOf(k, z, t), Smooth(z, now).write).writer
  }

  lemma TakesBatch(k: Settings, z: Sizes, w: Writer, t: nat, now: real)
    requires w.active.Some?
    requires w.active.value.bytes + (if w.active.value.needMetadata then z.meta else 0) + (k.header + z.event) <= k.writer.maxFileSize
    ensures Written(k.writer, w, BatchOf(k, z, t), Smooth(z, now).write).ok
    ensures var w' := Took(k, z, w, t, now);
      && w'.offers == w.offers + [Offer(BatchOf(k, z, t), Accepted)] && w'.hasRealEvents
      && w'.active.Some? && !w'.active.value.needMetadata && w'.log == w.log
      && w'.active.value.bytes == w.active.value.bytes + (if w.active.value.needMetadata then z.meta else 0) + (k.header + z.event)
      && w'.priorSeal == w.priorSeal && w'.nextIndex == w.nextIndex
      && w'.nextRotation == w.nextRotation && w'.nextDrain == w.nextDrain && w'.segmentStartedAt == w.segmentStartedAt
  {
  }

  /** A failed batch write tears the segment and refuses the batch. */
  lemma FailsBatch(k: Settings, z: Sizes, w: Writer, t: nat, now: real, torn: nat)
    requires w.active.Some? && !w.active.value.needMetadata
    ensures Written(k.writer, w, BatchOf(k, z, t), Env(z, now, BatchTore(torn)).write)
         == Outcome(Torn(w, torn).(offers := w.offers + [Offer(BatchOf(k, z, t), Failed)]), false)
  {
  }

  /** The rotation that is due after a drain seals with a true stamp and opens an empty segment. */
  lemma RotateDue(k: Settings, z: Sizes, w: Writer, now: real)
    requires Opened(w) && w.hasRealEvents && w.nextRotation.value <= now && z.segment <= k.writer.maxTotalSize
    ensures var w' := AfterDrain(k.writer, w, now, Smooth(z, now).rotate).writer;
      && |w'.log| == 1 && w'.log[0].stamp == Some(true) && w'.offers == w.offers && w'.priorSeal == Drained
      && w'.active.Some? && w'.active.value.bytes == z.segment && w'.active.value.needMetadata
  {
    var c, env := k.writer, Smooth(z, now).rotate;
    var sealed := SealedActive(c, w, Drained, env);
    var next := sealed.(nextIndex := sealed.nextIndex + 1, active := Some(Active(z.segment, z.segment, true, [])), hasRealEvents := false, metadataChanged := false);
    assert AfterDrain(c, w, now, env).writer == Evict(c, next);
    if c.isDisk {
      EvictFits(c, next);
    }
    hide Evict, Timed;
    EvictKeepsLog(c, next);
  }

  lemma EvictKeepsLog(c: Config, w: Writer)
    ensures Evict(c, w).log == w.log && Evict(c, w).priorSeal == w.priorSeal && Evict(c, w).offers == w.offers
    ensures !c.isDisk ==> Evict(c, w) == w
  {
  }

  lemma FinalizeStamps(c: Config, w: Writer, meta: nat)
    requires w.active.Some? && w.priorSeal == Drained
    ensures var w' := Finalized(c, w, Wrote(meta), IoOk).writer;
      && |w'.log| == |w.log| + 1 && w.log <= w'.log && w'.log[|w.log|].stamp == Some(true) && w'.offers == w.offers
  {
    hide EvictCount, Total;
  }

  // ----- What both stories share -----

  /** Thread 1's batch has been written to the first segment. */
  predicate Ready(w: Writer) {
    Opened(w) && w.hasRealEvents && !w.active.value.needMetadata
  }

  /** Thread 1 and two more threads, or one more. */
  lemma Gathers(k: Settings, p: Pace, s: Sys, z: Sizes, third: bool) returns (s': Sys, v: Scene)
    requires Init(k, s) && Roomy(k, s.writer, z) && p.At?
    ensures Reaches(k, p, s, s') && Shows(s', v, Waiting)
    ensures v == Scene([NewThread(k), Left(k), NewThread(k)] + (if third then [NewThread(k)] else []),
                       [1], [BatchOf(k, z, 1)], 0, false, 0, Enabled, Running, {}, false, s.writer)
  {
    hide Reaches, Init, Shows, Opened;
    var s1, v1 := EnableSpawn(k, p, s);
    var s2 := FirstCall(k, p, s, s1, v1, Waiting, z, 1);
    var v2 := WithThread(v1, 1, Buffered(k, z, 1)).(handles := [1]);
    assert WithThread(v1, 1, Buffered(k, z, 1)).(handles := v1.handles + [1]) == v2;
    var s3 := Leaves(k, p, s, s2, v2, z, 1);
    var v3 := v2.(threads := [NewThread(k), Left(k)], ring := [BatchOf(k, z, 1)]);
    assert WithThread(v2, 1, Left(k)).(ring := v2.ring + [BatchOf(k, z, 1)]) == v3;
    s' := Spawns(k, p, s, s3, v3);
    v := v3.(threads := [NewThread(k), Left(k), NewThread(k)]);
    assert v3.(threads := v3.threads + [NewThread(k)]) == v;
    if third {
      s' := Spawns(k, p, s, s', v);
      v := v.(threads := v.threads + [NewThread(k)]);
    }
  }

  /** The loop wakes up and starts a cycle without a drain. */
  lemma StartsPlain(k: Settings, p: Pace, s0: Sys, s: Sys, v: Scene, env: FlushEnv) returns (s': Sys)
    requires k.capacity > 0 && p.At? && Reaches(k, p, s0, s) && Shows(s, v, Waiting) && v.phase == Enabled && !v.bumped
    requires !ShouldDrain(v.writer, p.time) && |v.threads| > 0 && Fits(p, FlushNext(env))
    ensures Reaches(k, p, s0, s') && Shows(s', v.(cycle := v.cycle + 1), InFlush(TickOf(v, false), Sources))
  {
    hide Reaches, ShouldDrain;
    var s1 := Wakes(k, p, s0, s, v, false);
    Decides(k, s1, v, false, p.time);
    Go(k, p, s0, s1, Decide(p.time, []));
    s' := ToSources(k, p, s0, Next(k, s1, Decide(p.time, [])), v.(cycle := v.cycle + 1), TickOf(v, false), env);
  }

  /** The only batch in the ring is written and the cycle, one without a drain, closes. */
  lemma WritesOne(k: Settings, z: Sizes, p: Pace, s0: Sys, s: Sys, v: Scene, tick: Tick, t: nat) returns (s': Sys)
    requires k.capacity > 0 && p.At? && Reaches(k, p, s0, s) && Shows(s, v, InFlush(tick, Pop)) && !tick.exit && !tick.doDrain
    requires |v.threads| > 0 && v.ring == [BatchOf(k, z, t)] && Written(k.writer, v.writer, BatchOf(k, z, t), Smooth(z, p.time).write).ok
    ensures Reaches(k, p, s0, s') && Shows(s', v.(ring := [], writer := Took(k, z, v.writer, t, p.time)), Waiting)
  {
    hide Reaches, Written;
    var env := Smooth(z, p.time);
    var s1 := Pops(k, p, s0, s, v, tick, env);
    var v1 := v.(ring := [], writer := Took(k, z, v.writer, t, p.time));
    assert Shows(s1, v1, InFlush(tick, Pop));
    var s2 := PopsLast(k, p, s0, s1, v1, tick, env);
    s' := ClosesPlain(k, p, s0, s2, v1, tick, env);
  }

  /** The cycle after the bump, with quiet sources and an empty ring. */
  lemma QuietCycle(k: Settings, p: Pace, s0: Sys, s: Sys, v: Scene, tick: Tick, env: FlushEnv) returns (s': Sys)
    requires k.capacity > 0 && Reaches(k, p, s0, s) && Shows(s, v, InFlush(tick, Gate)) && Fits(p, FlushNext(env))
    requires !tick.exit && !tick.doDrain && v.ring == [] && |v.threads| > 0 && v.threads[0].pc == Idle
    requires v.threads[0].events == [] || !tick.drainSelf
    ensures Reaches(k, p, s0, s') && Shows(s', v, Waiting)
  {
    hide Reaches, Shows, Fits;
    var s1 := ToPop(k, p, s0, s, v, tick, env);
    var s2 := PopsLast(k, p, s0, s1, v, tick, env);
    s' := ClosesPlain(k, p, s0, s2, v, tick, env);
  }

  /** The bump: a drain is due. */
  lemma BumpStep(k: Settings, s: Sys, v: Scene, now: real)
    requires k.capacity > 0 && Shows(s, v, Deciding(false)) && Ready(v.writer) && !v.bumped && v.writer.nextDrain <= now
    ensures Allowed(s, Decide(now, []))
    ensures Shows(Next(k, s, Decide(now, [])), v.(epoch := v.epoch + 1, bumped := true, cycle := v.cycle + 1),
                  InFlush(TickOf(v, false), Gate))
  {
    Decides(k, s, v, false, now);
  }

  /** The first seal, at the rotation deadline. */
  lemma FirstSeal(k: Settings, z: Sizes, s: Sys, v: Scene, tick: Tick, emptied: bool, now: real)
    requires k.capacity > 0 && Shows(s, v, InFlush(tick, Close(emptied))) && !tick.exit && tick.doDrain && |v.threads| > 0
    ensures Allowed(s, FlushNext(Smooth(z, now)))
    ensures Shows(Next(k, s, FlushNext(Smooth(z, now))),
                  v.(writer := AfterDrain(k.writer, v.writer, now, Smooth(z, now).rotate).writer), Waiting)
  {
    hide AfterDrain;
  }

  /** The second seal, by the exit. */
  lemma SecondSeal(k: Settings, z: Sizes, s: Sys, v: Scene, tick: Tick, now: real)
    requires k.capacity > 0 && Shows(s, v, InFlush(tick, Close(true))) && tick.exit && |v.threads| > 0
    requires v.writer.active.Some? && !v.writer.active.value.needMetadata
    ensures Allowed(s, FlushNext(Smooth(z, now)))
    ensures var s' := Next(k, s, FlushNext(Smooth(z, now)));
      && s'.writer == Finalized(k.writer, v.writer, Wrote(z.meta), IoOk).writer
      && s'.writeFailed == v.failed && s'.ring == v.ring
  {
    hide Finalized;
  }

  /** The run: up to the bump, up to the first seal, up to the second. */
  lemma Tells(k: Settings, s: Sys, r: Readings, s1: Sys, a1: Action, s2: Sys, a2: Action, s3: Sys, a3: Action)
      returns (states: seq<Sys>, actions: seq<Action>, times: seq<real>, bump: nat, c: nat)
    requires Init(k, s) && k.capacity > 0 && r.written <= r.bumped <= r.sealed <= r.exited
    requires Reaches(k, At(r.written), s, s1) && Allowed(s1, a1) && ReadsAt(a1, r.bumped)
    requires Reaches(k, At(r.sealed), Next(k, s1, a1), s2) && Allowed(s2, a2) && ReadsAt(a2, r.sealed)
    requires Reaches(k, At(r.exited), Next(k, s2, a2), s3) && Allowed(s3, a3) && ReadsAt(a3, r.exited)
    ensures Run(k, states, actions) && Clocked(actions, times, r.written, r.exited) && bump < c && c + 1 < |actions| == |states| - 1
    ensures states[0] == s && states[bump] == s1 && states[bump + 1] == Next(k, s1, a1)
    ensures states[c] == s2 && states[c + 1] == Next(k, s2, a2)
    ensures states[|actions| - 1] == s3 && states[|actions|] == Next(k, s3, a3)
  {
    hide Told, Reaches, Allowed, Next, Init, ReadsAt;
    ToldStart(k, s, r.written);
    var st1, ac1, ti1 := TellStretch(k, [s], [], [], r.written, r.written, r.written, s1);
    bump := |ac1|;
    var st2, ac2, ti2 := TellStep(k, st1, ac1, ti1, r.written, r.written, a1, r.bumped);
    var st3, ac3, ti3 := TellStretch(k, st2, ac2, ti2, r.written, r.bumped, r.sealed, s2);
    c := |ac3|;
    var st4, ac4, ti4 := TellStep(k, st3, ac3, ti3, r.written, r.sealed, a2, r.sealed);
    var st5, ac5, ti5 := TellStretch(k, st4, ac4, ti4, r.written, r.sealed, r.exited, s3);
    states, actions, times := TellStep(k, st5, ac5, ti5, r.written, r.exited, a3, r.exited);
    assert states[0] == [s][0] && states[bump] == st1[bump] && states[bump + 1] == st2[bump + 1];
    assert states[c] == st3[c] && states[c + 1] == st4[c + 1];
    ToldRun(k, states, actions, times, r.written, r.exited);
  }

  lemma ToldRun(k: Settings, states: seq<Sys>, actions: seq<Action>, times: seq<real>, from: real, to: real)
    requires Told(k, states, actions, times, from, to) && Init(k, states[0])
    ensures Run(k, states, actions) && Clocked(actions, times, from, to)
  {
    hide Clocked, Init, Next, Allowed;
    RunOf(k, states, actions);
  }

  // ----- A failed write -----

  /** Thread 1's batch is written. */
  lemma FailureStart(k: Settings, s: Sys, z: Sizes, now: real) returns (s': Sys, v: Scene)
    requires Init(k, s) && Roomy(k, s.writer, z)
    ensures Reaches(k, At(now), s, s') && Shows(s', v, Waiting)
    ensures v == Scene([NewThread(k), Left(k), NewThread(k), NewThread(k)], [1], [], 0, false, 1,
                       Enabled, Running, {}, false, Took(k, z, s.writer, 1, now))
  {
    InitOpened(k, s, z);
    TakesBatch(k, z, s.writer, 1, now);
    assert !ShouldDrain(s.writer, now);
    hide Reaches, Init, Shows, Written, Took, ShouldDrain;
    var p := At(now);
    var s1, v1 := Gathers(k, p, s, z, true);
    var env := Smooth(z, now);
    var s2 := StartsPlain(k, p, s, s1, v1, env);
    var v2 := v1.(cycle := 1);
    var s3 := PassSelf(k, p, s, s2, v2, TickOf(v1, false), env, Sources);
    s' := WritesOne(k, z, p, s, s3, v2, TickOf(v1, false), 1);
    v := v2.(ring := [], writer := Took(k, z, s.writer, 1, now));
  }

  /** Thread 1's batch is written and threads 2 and 3 have recorded: the loop is about to decide. */
  lemma FailurePrologue(k: Settings, s: Sys, z: Sizes, now: real) returns (s': Sys, v: Scene)
    requires Init(k, s) && Roomy(k, s.writer, z)
    ensures Reaches(k, At(now), s, s') && Shows(s', v, Deciding(false))
    ensures v == Scene([NewThread(k), Left(k), Buffered(k, z, 2), Buffered(k, z, 3)], [1, 2, 3], [], 0, false, 1,
                       Enabled, Running, {}, false, Took(k, z, s.writer, 1, now))
  {
    hide Reaches, Init, Shows, Took;
    var p := At(now);
    var s1, v1 := FailureStart(k, s, z, now);
    var s2 := FirstCall(k, p, s, s1, v1, Waiting, z, 2);
    var v2 := v1.(threads := [NewThread(k), Left(k), Buffered(k, z, 2), NewThread(k)], handles := [1, 2]);
    assert WithThread(v1, 2, Buffered(k, z, 2)).(handles := v1.handles + [2]) == v2;
    var s3 := FirstCall(k, p, s, s2, v2, Waiting, z, 3);
    v := v2.(threads := [NewThread(k), Left(k), Buffered(k, z, 2), Buffered(k, z, 3)], handles := [1, 2, 3]);
    assert WithThread(v2, 3, Buffered(k, z, 3)).(handles := v2.handles + [3]) == v;
    s' := Wakes(k, p, s, s3, v, false);
  }

  /** The writer after it refused thread 2's batch. */
  function Refused(k: Settings, z: Sizes, w: Writer, torn: nat): Writer {
    Torn(w, torn).(offers := w.offers + [Offer(BatchOf(k, z, 2), Failed)])
  }

  /** The threads leave after the bump, and the drain gets to its cycle's first pop. */
  lemma FailureDrains(k: Settings, p: Pace, s: Sys, v: Scene, z: Sizes, tick: Tick) returns (s': Sys, tick': Tick)
    requires k.capacity >= 2 && p.At? && Shows(s, v, InFlush(tick, Gate)) && !tick.exit && !tick.doDrain
    requires v == Scene([NewThread(k), Left(k), Buffered(k, z, 2), Buffered(k, z, 3)], [1, 2, 3], [], 1, true, 2,
                        Enabled, Running, {}, false, v.writer)
    ensures Reaches(k, p, s, s') && !tick'.exit && tick'.doDrain
    ensures Shows(s', Scene([NewThread(k), Left(k), Left(k), Left(k)], [], [BatchOf(k, z, 2), BatchOf(k, z, 3)], 1, false, 3,
                            Enabled, Running, {}, false, v.writer), InFlush(tick', Pop))
  {
    hide Reaches, Shows, ShouldDrain;
    var env := Smooth(z, p.time);
    Stay(k, p, s);
    var s1 := QuietCycle(k, p, s, s, v, tick, env);
    var s2 := Leaves(k, p, s, s1, v, z, 2);
    var v2 := v.(threads := [NewThread(k), Left(k), Left(k), Buffered(k, z, 3)], ring := [BatchOf(k, z, 2)]);
    assert WithThread(v, 2, Left(k)).(ring := v.ring + [BatchOf(k, z, 2)]) == v2;
    var s3 := Leaves(k, p, s, s2, v2, z, 3);
    var v3 := v2.(threads := [NewThread(k), Left(k), Left(k), Left(k)], ring := [BatchOf(k, z, 2), BatchOf(k, z, 3)]);
    assert WithThread(v2, 3, Left(k)).(ring := v2.ring + [BatchOf(k, z, 3)]) == v3;
    assert MidExit(v3.threads, 1) == {};
    var s4 := DrainsToCycle(k, p, s, s3, v3, false);
    var v4 := v3.(bumped := false, cycle := 3, handles := []);
    assert DecidedScene(v3, false, p.time).(handles := [], missed := {}) == v4;
    tick' := TickOf(v3, false);
    s' := ToPop(k, p, s, s4, v4, tick', env);
  }

  /** The write of thread 2's batch fails, which cuts the cycle short before thread 3's. */
  lemma CutShort(k: Settings, p: Pace, s0: Sys, s: Sys, v: Scene, z: Sizes, tick: Tick, torn: nat) returns (s': Sys)
    requires k.capacity > 0 && p.At? && Reaches(k, p, s0, s) && Shows(s, v, InFlush(tick, Pop)) && |v.threads| > 0
    requires v.ring == [BatchOf(k, z, 2), BatchOf(k, z, 3)] && Ready(v.writer) && v.phase == Enabled
    ensures Reaches(k, p, s0, s')
    ensures Shows(s', v.(ring := [BatchOf(k, z, 3)], phase := Disabled, failed := true, writer := Refused(k, z, v.writer, torn)),
                  InFlush(tick, Close(false)))
  {
    FailsBatch(k, z, v.writer, 2, p.time, torn);
    hide Reaches, Written, Torn;
    var env := Env(z, p.time, BatchTore(torn));
    var s1 := Pops(k, p, s0, s, v, tick, env);
    s' := LoopMoves(k, p, s0, s1, env);
  }

  /** After the first seal: the loop exits, writes what was left in the ring, and is about to finalize. */
  lemma FailureEpilogue(k: Settings, p: Pace, s: Sys, v: Scene, z: Sizes) returns (s': Sys, tick: Tick)
    requires k.capacity > 0 && p.At? && Shows(s, v, Waiting)
    requires v == Scene([NewThread(k), Left(k), Left(k), Left(k)], [], [BatchOf(k, z, 3)], 1, false, 3,
                        Disabled, Running, {}, true, v.writer)
    requires Written(k.writer, v.writer, BatchOf(k, z, 3), Smooth(z, p.time).write).ok
    ensures Reaches(k, p, s, s') && tick.exit
    ensures Shows(s', v.(ring := [], epoch := 2, cycle := 4, stop := SendersGone, writer := Took(k, z, v.writer, 3, p.time)),
                  InFlush(tick, Close(true)))
  {
    assert MidExit(v.threads, 2) == {};
    hide Reaches, Written, Shows, ShouldDrain;
    var env := Smooth(z, p.time);
    Stay(k, p, s);
    var s1 := LosesSenders(k, p, s, s, v);
    var v1 := v.(stop := SendersGone);
    var s2 := DrainsToCycle(k, p, s, s1, v1, true);
    var v2 := v1.(epoch := 2, cycle := 4);
    assert DecidedScene(v1, true, p.time).(handles := [], missed := {}) == v2;
    tick := TickOf(v1, true);
    var s3 := ToPop(k, p, s, s2, v2, tick, env);
    var s4 := Pops(k, p, s, s3, v2, tick, env);
    var v4 := v2.(ring := [], writer := Took(k, z, v.writer, 3, p.time));
    assert v2.(ring := v2.ring[1..], writer := Written(k.writer, v2.writer, v2.ring[0], env.write).writer, failed := true) == v4;
    s' := PopsLast(k, p, s, s4, v4, tick, env);
  }

  /** What a run of these stories ends with: two segments, both stamped complete, sealed at `c` and at the last step. */
  ghost predicate TwoStamps(states: seq<Sys>, actions: seq<Action>, c: nat) {
    && |states| == |actions| + 1 && c + 1 < |actions|
    && SealedAt(states, c, 0) && SealedAt(states, |actions| - 1, 1)
    && |states[|actions|].writer.log| == |states[|actions|].notes| == 2
    && states[|actions|].writer.log[0].stamp == Some(true) && states[|actions|].writer.log[1].stamp == Some(true)
    && states[|actions|].notes[0].epoch == states[c].drainEpoch && states[|actions|].notes[0].missed == states[c].missed
  }

  lemma BothStamped(k: Settings, states: seq<Sys>, actions: seq<Action>, c: nat)
    requires Run(k, states, actions) && |states| == |actions| + 1 && c + 1 < |actions|
    requires states[c].writer.log == [] && |states[c + 1].writer.log| == 1 && states[c + 1].writer.log[0].stamp == Some(true)
    requires states[|actions| - 1].writer.log == states[c + 1].writer.log
    requires |states[|actions|].writer.log| == 2 && states[|actions|].writer.log[1].stamp == Some(true)
    ensures TwoStamps(states, actions, c)
  {
    var last := states[|actions|];
    assert SealedAt(states, c, 0) && SealedAt(states, |actions| - 1, 1);
    hide Run, SealedAt;
    SealHolds(k, states, actions, c, |actions|, 0);
    assert last.writer.log[0] == last.writer.log[..0 + 1][0] == states[c + 1].writer.log[0];
    StampedDrained(k, states, actions, |actions|, 0);
    DrainedSeal(k, states, actions, c, |actions|, 0);
  }

  /** The event had returned before the first segment's drain and the second segment holds it all the same. */
  ghost predicate Belated(states: seq<Sys>, actions: seq<Action>, bump: nat, e: Event)
    requires |actions| < |states| && |states[|actions|].notes| > 0 && |states[|actions|].writer.log| == 2
  {
    var last := states[|actions|];
    && ReturnedBefore(states, bump, last.notes[0].epoch, e)
    && Occurrences(Contents(last.writer.log[..1]), e) == 0 && Occurrences(WithFate(last.removed, Evicted), e) == 0
    && Occurrences(DataOf(last.writer.log[1].records), e) == 1
  }

  /** An event left in a buffer or in the ring at the first seal, and accepted by the second. */
  lemma LeftBehind(k: Settings, states: seq<Sys>, actions: seq<Action>, bump: nat, c: nat, e: Event)
    requires Run(k, states, actions) && TwoStamps(states, actions, c)
    requires ReturnedBefore(states, bump, states[c].drainEpoch, e)
    requires InBuffer(states[c], e) || InRing(states[c], e)
    requires OfferedAs(states[|actions| - 1], Accepted, e)
    ensures Belated(states, actions, bump, e)
  {
    assert TwoStamps(states, actions, c);
    var last := states[|actions|];
    assert last.writer.log[..0 + 1] == last.writer.log[..1];
    assert OfferedAs(states[|actions| - 1], Accepted, e) ==>
      Occurrences(OffersWith(states[|actions| - 1].writer.offers, Accepted), e) > 0;
    hide Run, ReturnedBefore, InBuffer, InRing, OfferedAs, SealedAt, Contents, DataOf, Occurrences, WithFate, OffersWith;
    CompleteSegment(k, states, actions, c, |actions|, 0, bump, e);
    NothingOlder(k, states, actions, c, |actions| - 1, |actions|, 0, bump, e);
    OneFate(k, states, actions, |actions|, e);
    RunGrows(k, states, actions, |actions| - 1, |actions|);
    OfferStays(states[|actions| - 1], last, Accepted, e);
  }

  lemma AcceptedBatch(s: Sys, k: Settings, z: Sizes, i: nat, t: nat)
    requires i < |s.writer.offers| && s.writer.offers[i] == Offer(BatchOf(k, z, t), Accepted)
    ensures OfferedAs(s, Accepted, Event(t, 0))
  {
    OffersFind(s.writer.offers, i, Event(t, 0));
  }

  /** Up to the first seal. */
  lemma FailureFirst(k: Settings, s: Sys, z: Sizes, r: Readings, torn: nat)
      returns (s1: Sys, a1: Action, s2: Sys, a2: Action, v: Scene)
    requires Init(k, s) && Roomy(k, s.writer, z) && Passing(s.writer, r)
    ensures Reaches(k, At(r.written), s, s1) && Allowed(s1, a1) && ReadsAt(a1, r.bumped)
    ensures Reaches(k, At(r.sealed), Next(k, s1, a1), s2) && Allowed(s2, a2) && ReadsAt(a2, r.sealed)
    ensures |s1.threads| == 4 && s1.threads[2].returned == s1.threads[3].returned == 1
    ensures s1.drainEpoch == 0 && Next(k, s1, a1).drainEpoch == s2.drainEpoch == 1 && s2.missed == {} && s2.writer.log == []
    ensures s2.ring == [BatchOf(k, z, 3)] && |s2.writer.offers| > 0
    ensures s2.writer.offers[|s2.writer.offers| - 1] == Offer(BatchOf(k, z, 2), Failed) && Opened(s2.writer)
    ensures Shows(Next(k, s2, a2), v, Waiting) && v.writer == AfterDrain(k.writer, s2.writer, r.sealed, Smooth(z, r.sealed).rotate).writer
    ensures s2.writer.hasRealEvents && s2.writer.nextRotation.value <= r.sealed
    ensures v == Scene([NewThread(k), Left(k), Left(k), Left(k)], [], [BatchOf(k, z, 3)], 1, false, 3, Disabled, Running, {}, true, v.writer)
  {
    var w1 := WrittenFirst(k, s, z, r);
    hide Reaches, Next, Allowed, Init, Written, AfterDrain, NewThread, Took, Roomy, Passing;
    var v1;
    s1, v1 := FailurePrologue(k, s, z, r.written);
    BumpStep(k, s1, v1, r.bumped);
    a1 := Decide(r.bumped, []);
    var p := At(r.sealed);
    var s', tick := FailureDrains(k, p, Next(k, s1, a1), v1.(epoch := 1, bumped := true, cycle := 2), z, TickOf(v1, false));
    var v2 := Scene([NewThread(k), Left(k), Left(k), Left(k)], [], [BatchOf(k, z, 2), BatchOf(k, z, 3)], 1, false, 3,
                    Enabled, Running, {}, false, w1);
    s2 := CutShort(k, p, Next(k, s1, a1), s', v2, z, tick, torn);
    var v3 := v2.(ring := [BatchOf(k, z, 3)], phase := Disabled, failed := true, writer := Refused(k, z, w1, torn));
    FirstSeal(k, z, s2, v3, tick, false, r.sealed);
    a2 := FlushNext(Smooth(z, r.sealed));
    v := v3.(writer := AfterDrain(k.writer, v3.writer, r.sealed, Smooth(z, r.sealed).rotate).writer);
  }

  /** From the first seal to the second. */
  lemma FailureSecond(k: Settings, s: Sys, v: Scene, z: Sizes, now: real) returns (s': Sys, a: Action)
    requires k.capacity > 0 && Shows(s, v, Waiting)
    requires v == Scene([NewThread(k), Left(k), Left(k), Left(k)], [], [BatchOf(k, z, 3)], 1, false, 3, Disabled, Running, {}, true, v.writer)
    requires v.writer.active.Some? && v.writer.active.value.bytes + z.meta + (k.header + z.event) <= k.writer.maxFileSize
    requires v.writer.priorSeal == Drained && |v.writer.log| == 1
    ensures Reaches(k, At(now), s, s') && Allowed(s', a) && ReadsAt(a, now)
    ensures s'.writer.log == v.writer.log && s'.writer.offers == v.writer.offers + [Offer(BatchOf(k, z, 3), Accepted)]
    ensures var w := Next(k, s', a).writer; |w.log| == 2 && w.log[1].stamp == Some(true)
  {
    TakesBatch(k, z, v.writer, 3, now);
    hide Reaches, Next, Allowed, Written, Finalized, NewThread, Took;
    var tick;
    s', tick := FailureEpilogue(k, At(now), s, v, z);
    var w := Took(k, z, v.writer, 3, now);
    SecondSeal(k, z, s', v.(ring := [], epoch := 2, cycle := 4, stop := SendersGone, writer := w), tick, now);
    FinalizeStamps(k.writer, w, z.meta);
    a := FlushNext(Smooth(z, now));
  }

  /** The turning points of the run in which a write fails. */
  lemma FailureTurns(k: Settings, s: Sys, z: Sizes, r: Readings, torn: nat)
      returns (states: seq<Sys>, actions: seq<Action>, times: seq<real>, bump: nat, c: nat)
    requires Init(k, s) && Roomy(k, s.writer, z) && Passing(s.writer, r)
    ensures Run(k, states, actions) && Clocked(actions, times, r.written, r.exited) && states[0] == s && TwoStamps(states, actions, c)
    ensures bump < c && |states[bump].threads| == 4 && states[bump].threads[2].returned == states[bump].threads[3].returned == 1
    ensures states[bump].drainEpoch == 0 && states[bump + 1].drainEpoch == states[c].drainEpoch == 1
    ensures states[c].ring == [BatchOf(k, z, 3)] && states[c].missed == {}
    ensures |states[c].writer.offers| > 0
    ensures states[c].writer.offers[|states[c].writer.offers| - 1] == Offer(BatchOf(k, z, 2), Failed)
    ensures states[|actions| - 1].writer.offers == states[c].writer.offers + [Offer(BatchOf(k, z, 3), Accepted)]
  {
    hide Reaches, Next, Allowed, Init, AfterDrain, Run, NewThread, TwoStamps, Opened, ReadsAt, BatchOf;
    var s1, a1, s2, a2, v := FailureFirst(k, s, z, r, torn);
    RotateDue(k, z, s2.writer, r.sealed);
    var s3, a3 := FailureSecond(k, Next(k, s2, a2), v, z, r.exited);
    states, actions, times, bump, c := Tells(k, s, r, s1, a1, s2, a2, s3, a3);
    BothStamped(k, states, actions, c);
  }

  lemma ReturnedOnce(states: seq<Sys>, bump: nat, epoch: nat, t: nat)
    requires bump + 1 < |states| && states[bump].drainEpoch + 1 == states[bump + 1].drainEpoch == epoch
    requires t < |states[bump].threads| && states[bump].threads[t].returned == 1
    ensures ReturnedBefore(states, bump, epoch, Event(t, 0))
  {
  }

  /**
   From every fresh recorder that rotates by time and has room, at whatever times and sizes, there
   is a run in which a failed write makes both stamps wrong. The first segment is stamped complete
   and neither it nor any other ever holds thread 2's event, which was not evicted. The second is
   stamped complete and holds thread 3's event, which belongs to the first.
   */
  lemma StampCanBeWrong(k: Settings, s: Sys, z: Sizes, r: Readings, torn: nat)
      returns (states: seq<Sys>, actions: seq<Action>, times: seq<real>, bump: nat, c: nat)
    requires Init(k, s) && Roomy(k, s.writer, z) && Passing(s.writer, r)
    ensures Run(k, states, actions) && Clocked(actions, times, r.written, r.exited) && states[0] == s
    ensures TwoStamps(states, actions, c) && states[|actions|].notes[0].missed == {}
    ensures var last := states[|actions|];
      && ReturnedBefore(states, bump, last.notes[0].epoch, Event(2, 0))
      && Occurrences(Contents(last.writer.log), Event(2, 0)) == 0 && Occurrences(WithFate(last.removed, Evicted), Event(2, 0)) == 0
      && Belated(states, actions, bump, Event(3, 0))
  {
    states, actions, times, bump, c := FailureTurns(k, s, z, r, torn);
    var i := |states[c].writer.offers| - 1;
    assert Event(2, 0) in states[c].writer.offers[i].batch.events;
    RingBatch(k, z, states[c]);
    assert c <= |actions| < |states| && bump + 1 < |states|;
    hide Run, Occurrences, Contents, WithFate, ReturnedBefore, Belated, InRing, OfferedAs;
    FailedNowhere(k, states, actions, c, |actions|, i, Event(2, 0));
    ReturnedOnce(states, bump, 1, 2);
    ReturnedOnce(states, bump, 1, 3);
    AcceptedBatch(states[|actions| - 1], k, z, i + 1, 3);
    LeftBehind(k, states, actions, bump, c, Event(3, 0));
  }

  lemma RingBatch(k: Settings, z: Sizes, s: Sys)
    requires s.ring == [BatchOf(k, z, 3)]
    ensures InRing(s, Event(3, 0))
  {
    AllEventsAppend([], BatchOf(k, z, 3));
    assert s.ring == [] + [BatchOf(k, z, 3)];
  }

  // ----- No failed write -----

  /** A cycle in which a source records on the flush thread, up to its first pop. */
  lemma SourceCycle(k: Settings, p: Pace, s0: Sys, s: Sys, v: Scene, z: Sizes) returns (s': Sys)
    requires k.capacity > 0 && k.header + z.event < k.batchSize && p.At? && Reaches(k, p, s0, s) && Shows(s, v, Waiting)
    requires v.phase == Enabled && !v.bumped && v.epoch == 0 && v.cycle == 0 && !ShouldDrain(v.writer, p.time)
    requires |v.threads| > 0 && v.threads[0] == NewThread(k)
    ensures Reaches(k, p, s0, s')
    ensures Shows(s', WithThread(v, 0, Buffered(k, z, 0)).(cycle := 1), InFlush(TickOf(v, false), Pop))
  {
    hide Reaches, Shows, ShouldDrain, Fits;
    var env, tick := Smooth(z, p.time), TickOf(v, false);
    FitsSmooth(z, p);
    var s1 := StartsPlain(k, p, s0, s, v, env);
    var v1 := v.(cycle := 1);
    var s2 := SourceCall(k, p, s0, s1, v1, InFlush(tick, Sources), z);
    s' := PassSelf(k, p, s0, s2, WithThread(v1, 0, Buffered(k, z, 0)), tick, env, Sources);
  }

  lemma FitsSmooth(z: Sizes, p: Pace)
    requires p.At?
    ensures Fits(p, FlushNext(Smooth(z, p.time)))
  {
  }

  lemma QuietStart(k: Settings, s: Sys, z: Sizes, now: real) returns (s': Sys, v: Scene, tick: Tick)
    requires Init(k, s) && Roomy(k, s.writer, z) && !s.writer.hasRealEvents
    ensures Reaches(k, At(now), s, s') && Shows(s', v, InFlush(tick, Pop)) && !tick.exit && !tick.doDrain
    ensures v == Scene([Buffered(k, z, 0), Left(k), NewThread(k)], [1], [BatchOf(k, z, 1)], 0, false, 1,
                       Enabled, Running, {}, false, s.writer)
  {
    assert !ShouldDrain(s.writer, now);
    hide Reaches, Init, Shows, ShouldDrain;
    var s1, v1 := Gathers(k, At(now), s, z, false);
    s' := SourceCycle(k, At(now), s, s1, v1, z);
    tick := TickOf(v1, false);
    v := v1.(threads := [Buffered(k, z, 0), Left(k), NewThread(k)], cycle := 1);
    assert WithThread(v1, 0, Buffered(k, z, 0)).(cycle := 1) == v;
  }

  /**
   A source has recorded on the flush thread and thread 2 on its own, and thread 1's batch was
   written: the loop is about to decide.
   */
  lemma QuietPrologue(k: Settings, s: Sys, z: Sizes, now: real) returns (s': Sys, v: Scene)
    requires Init(k, s) && Roomy(k, s.writer, z)
    ensures Reaches(k, At(now), s, s') && Shows(s', v, Deciding(false))
    ensures v == Scene([Buffered(k, z, 0), Left(k), Buffered(k, z, 2)], [1, 2], [], 0, false, 1,
                       Enabled, Running, {}, false, Took(k, z, s.writer, 1, now))
  {
    InitOpened(k, s, z);
    TakesBatch(k, z, s.writer, 1, now);
    hide Reaches, Init, Shows, Written, Took;
    var p := At(now);
    var s1, v1, tick := QuietStart(k, s, z, now);
    var s2 := WritesOne(k, z, p, s, s1, v1, tick, 1);
    var v2 := v1.(ring := [], writer := Took(k, z, s.writer, 1, now));
    var s3 := FirstCall(k, p, s, s2, v2, Waiting, z, 2);
    v := v2.(threads := [Buffered(k, z, 0), Left(k), Buffered(k, z, 2)], handles := [1, 2]);
    assert WithThread(v2, 2, Buffered(k, z, 2)).(handles := v2.handles + [2]) == v;
    s' := Wakes(k, p, s, s3, v, false);
  }

  /** Thread 2 exits before the drain reaches it; the cycle finds nothing to write and is about to close. */
  lemma QuietDrains(k: Settings, p: Pace, s: Sys, v: Scene, z: Sizes, tick: Tick) returns (s': Sys, tick': Tick)
    requires k.capacity >= 2 && p.At? && Shows(s, v, InFlush(tick, Gate)) && !tick.exit && !tick.doDrain && !tick.drainSelf
    requires v == Scene([Buffered(k, z, 0), Left(k), Buffered(k, z, 2)], [1, 2], [], 1, true, 2,
                        Enabled, Running, {}, false, v.writer)
    ensures Reaches(k, p, s, s') && !tick'.exit && tick'.doDrain && !tick'.drainSelf
    ensures Shows(s', Scene([Buffered(k, z, 0), Left(k), Buffered(k, z, 2).(pc := Dying)], [], [], 1, false, 3,
                            Enabled, Running, {2}, false, v.writer), InFlush(tick', Close(true)))
  {
    hide Reaches, Shows, ShouldDrain;
    var env := Smooth(z, p.time);
    Stay(k, p, s);
    var s1 := QuietCycle(k, p, s, s, v, tick, env);
    var s2 := Exits(k, p, s, s1, v, z, 2);
    var v2 := v.(threads := [Buffered(k, z, 0), Left(k), Buffered(k, z, 2).(pc := Dying)]);
    assert WithThread(v, 2, Buffered(k, z, 2).(pc := Dying)) == v2;
    assert MidExit(v2.threads, 1) == {2};
    var s3 := DrainsToCycle(k, p, s, s2, v2, false);
    var v3 := v2.(bumped := false, cycle := 3, handles := [], missed := {2});
    assert DecidedScene(v2, false, p.time).(handles := [], missed := {2}) == v3;
    tick' := TickOf(v2, false);
    var s4 := ToPop(k, p, s, s3, v3, tick', env);
    s' := PopsLast(k, p, s, s4, v3, tick', env);
  }

  /** After the first seal: thread 2's buffer is dropped, and the exit flushes the loop's own. */
  lemma QuietGathers(k: Settings, p: Pace, s: Sys, v: Scene, z: Sizes) returns (s': Sys, tick: Tick)
    requires k.capacity >= 2 && p.At? && Shows(s, v, Waiting)
    requires v == Scene([Buffered(k, z, 0), Left(k), Buffered(k, z, 2).(pc := Dying)], [], [], 1, false, 3,
                        Enabled, Running, {2}, false, v.writer)
    ensures Reaches(k, p, s, s') && tick.exit
    ensures Shows(s', Scene([Buffered(k, z, 0).(events := [], bytes := k.header), Left(k), Left(k)], [],
                            [BatchOf(k, z, 2), BatchOf(k, z, 0)], 2, false, 4, Enabled, SendersGone, {}, false, v.writer),
                  InFlush(tick, Pop))
  {
    hide Reaches, Shows, ShouldDrain;
    var env := Smooth(z, p.time);
    Stay(k, p, s);
    var s1 := Drops(k, p, s, s, v, z, 2);
    var v1 := v.(threads := [Buffered(k, z, 0), Left(k), Left(k)], ring := [BatchOf(k, z, 2)]);
    assert WithThread(v, 2, Left(k)).(ring := v.ring + [BatchOf(k, z, 2)]) == v1;
    var s2 := LosesSenders(k, p, s, s1, v1);
    var v2 := v1.(stop := SendersGone);
    assert MidExit(v2.threads, 2) == {};
    var s3 := DrainsToCycle(k, p, s, s2, v2, true);
    var v3 := v2.(epoch := 2, cycle := 4, missed := {});
    assert DecidedScene(v2, true, p.time).(handles := [], missed := {}) == v3;
    tick := TickOf(v2, true);
    var s4 := ToSources(k, p, s, s3, v3, tick, env);
    s' := DrainsSelf(k, p, s, s4, v3, z, tick, env);
    var self := Buffered(k, z, 0).(events := [], bytes := k.header);
    assert WithThread(v3, 0, self).(ring := v3.ring + [BatchOf(k, z, 0)])
        == v3.(threads := [self, Left(k), Left(k)], ring := [BatchOf(k, z, 2), BatchOf(k, z, 0)]);
  }

  /** Both batches are written to the second segment, and the exit is about to finalize. */
  lemma QuietEpilogue(k: Settings, p: Pace, s: Sys, v: Scene, z: Sizes) returns (s': Sys, tick: Tick)
    requires k.capacity >= 2 && p.At? && Shows(s, v, Waiting)
    requires v == Scene([Buffered(k, z, 0), Left(k), Buffered(k, z, 2).(pc := Dying)], [], [], 1, false, 3,
                        Enabled, Running, {2}, false, v.writer)
    requires Written(k.writer, v.writer, BatchOf(k, z, 2), Smooth(z, p.time).write).ok
    requires Written(k.writer, Took(k, z, v.writer, 2, p.time), BatchOf(k, z, 0), Smooth(z, p.time).write).ok
    ensures Reaches(k, p, s, s') && tick.exit
    ensures exists v' ::
      && Shows(s', v', InFlush(tick, Close(true))) && !v'.failed && |v'.threads| > 0
      && v'.writer == Took(k, z, Took(k, z, v.writer, 2, p.time), 0, p.time)
  {
    hide Reaches, Written, Shows;
    var env := Smooth(z, p.time);
    var s1;
    s1, tick := QuietGathers(k, p, s, v, z);
    var v1 := Scene([Buffered(k, z, 0).(events := [], bytes := k.header), Left(k), Left(k)], [],
                    [BatchOf(k, z, 2), BatchOf(k, z, 0)], 2, false, 4, Enabled, SendersGone, {}, false, v.writer);
    var s2 := Pops(k, p, s, s1, v1, tick, env);
    var v2 := v1.(ring := [BatchOf(k, z, 0)], writer := Took(k, z, v.writer, 2, p.time));
    assert v1.(ring := v1.ring[1..], writer := Written(k.writer, v1.writer, v1.ring[0], env.write).writer, failed := false) == v2;
    var s3 := Pops(k, p, s, s2, v2, tick, env);
    var v3 := v2.(ring := [], writer := Took(k, z, v2.writer, 0, p.time));
    assert v2.(ring := v2.ring[1..], writer := Written(k.writer, v2.writer, v2.ring[0], env.write).writer, failed := false) == v3;
    s' := PopsLast(k, p, s, s3, v3, tick, env);
  }

  /** Up to the first seal. */
  lemma QuietFirst(k: Settings, s: Sys, z: Sizes, r: Readings)
      returns (s1: Sys, a1: Action, s2: Sys, a2: Action, v: Scene)
    requires Init(k, s) && Roomy(k, s.writer, z) && Passing(s.writer, r)
    ensures Reaches(k, At(r.written), s, s1) && Allowed(s1, a1) && ReadsAt(a1, r.bumped)
    ensures Reaches(k, At(r.sealed), Next(k, s1, a1), s2) && Allowed(s2, a2) && ReadsAt(a2, r.sealed)
    ensures |s1.threads| == 3 && s1.threads[0].returned == s1.threads[2].returned == 1
    ensures s1.drainEpoch == 0 && Next(k, s1, a1).drainEpoch == s2.drainEpoch == 1 && s2.missed == {2} && s2.writer.log == []
    ensures s2.threads == [Buffered(k, z, 0), Left(k), Buffered(k, z, 2).(pc := Dying)] && HeldBack(s2, 0)
    ensures Opened(s2.writer) && s2.writer.hasRealEvents && s2.writer.nextRotation.value <= r.sealed
    ensures Shows(Next(k, s2, a2), v, Waiting) && v.writer == AfterDrain(k.writer, s2.writer, r.sealed, Smooth(z, r.sealed).rotate).writer
    ensures v == Scene(s2.threads, [], [], 1, false, 3, Enabled, Running, {2}, false, v.writer)
  {
    var w1 := WrittenFirst(k, s, z, r);
    hide Reaches, Next, Allowed, Init, AfterDrain, Took, Roomy, Passing, Opened, Buffered;
    var v2, tick;
    s1, a1, s2, v2, tick := QuietToSeal(k, s, z, r, w1);
    FirstSeal(k, z, s2, v2, tick, true, r.sealed);
    a2 := FlushNext(Smooth(z, r.sealed));
    v := v2.(writer := AfterDrain(k.writer, w1, r.sealed, Smooth(z, r.sealed).rotate).writer);
    HeldAtSeal(k, z, s2, v2, tick);
  }

  lemma HeldAtSeal(k: Settings, z: Sizes, s: Sys, v: Scene, tick: Tick)
    requires Shows(s, v, InFlush(tick, Close(true))) && !tick.drainSelf && v.epoch == 1
    requires |v.threads| > 0 && v.threads[0] == Buffered(k, z, 0)
    ensures HeldBack(s, 0)
  {
  }

  /** Thread 1's batch written to a fresh writer. */
  lemma WrittenFirst(k: Settings, s: Sys, z: Sizes, r: Readings) returns (w: Writer)
    requires Init(k, s) && Roomy(k, s.writer, z) && Passing(s.writer, r)
    ensures w == Took(k, z, s.writer, 1, r.written) && Ready(w) && w.nextDrain <= r.bumped && w.nextRotation.value <= r.sealed
  {
    InitOpened(k, s, z);
    TakesBatch(k, z, s.writer, 1, r.written);
    hide Init, Written;
    w := Took(k, z, s.writer, 1, r.written);
  }

  /** Up to where the first seal is due. */
  lemma QuietToSeal(k: Settings, s: Sys, z: Sizes, r: Readings, w: Writer)
      returns (s1: Sys, a1: Action, s2: Sys, v: Scene, tick: Tick)
    requires Init(k, s) && Roomy(k, s.writer, z)
    requires w == Took(k, z, s.writer, 1, r.written) && Ready(w) && w.nextDrain <= r.bumped
    ensures Reaches(k, At(r.written), s, s1) && Allowed(s1, a1) && ReadsAt(a1, r.bumped)
    ensures Reaches(k, At(r.sealed), Next(k, s1, a1), s2) && Shows(s2, v, InFlush(tick, Close(true)))
    ensures |s1.threads| == 3 && s1.threads[0].returned == s1.threads[2].returned == 1
    ensures s1.drainEpoch == 0 && Next(k, s1, a1).drainEpoch == 1 && !tick.exit && tick.doDrain && !tick.drainSelf
    ensures v == Scene([Buffered(k, z, 0), Left(k), Buffered(k, z, 2).(pc := Dying)], [], [], 1, false, 3,
                       Enabled, Running, {2}, false, w)
  {
    hide Reaches, Next, Allowed, Init, Took, Ready;
    var v1;
    s1, v1 := QuietPrologue(k, s, z, r.written);
    BumpStep(k, s1, v1, r.bumped);
    a1 := Decide(r.bumped, []);
    s2, tick := QuietDrains(k, At(r.sealed), Next(k, s1, a1), v1.(epoch := 1, bumped := true, cycle := 2), z, TickOf(v1, false));
    v := Scene([Buffered(k, z, 0), Left(k), Buffered(k, z, 2).(pc := Dying)], [], [], 1, false, 3,
               Enabled, Running, {2}, false, w);
  }

  /** From the first seal to the second. */
  lemma QuietSecond(k: Settings, s: Sys, v: Scene, z: Sizes, now: real) returns (s': Sys, a: Action)
    requires k.capacity >= 2 && Shows(s, v, Waiting)
    requires v == Scene([Buffered(k, z, 0), Left(k), Buffered(k, z, 2).(pc := Dying)], [], [], 1, false, 3,
                        Enabled, Running, {2}, false, v.writer)
    requires v.writer.active.Some? && v.writer.active.value.bytes + z.meta + 2 * (k.header + z.event) <= k.writer.maxFileSize
    requires v.writer.priorSeal == Drained && |v.writer.log| == 1
    ensures Reaches(k, At(now), s, s') && Allowed(s', a) && ReadsAt(a, now)
    ensures s'.writer.log == v.writer.log
    ensures s'.writer.offers == v.writer.offers + [Offer(BatchOf(k, z, 2), Accepted)] + [Offer(BatchOf(k, z, 0), Accepted)]
    ensures var s'' := Next(k, s', a); |s''.writer.log| == 2 && s''.writer.log[1].stamp == Some(true) && !s''.writeFailed
  {
    TakesBatch(k, z, v.writer, 2, now);
    var w1 := Took(k, z, v.writer, 2, now);
    TakesBatch(k, z, w1, 0, now);
    var w2 := Took(k, z, w1, 0, now);
    hide Reaches, Next, Allowed, Written, Finalized, Took;
    var tick;
    s', tick := QuietEpilogue(k, At(now), s, v, z);
    var v' :| Shows(s', v', InFlush(tick, Close(true))) && !v'.failed && |v'.threads| > 0 && v'.writer == w2;
    SecondSeal(k, z, s', v', tick, now);
    FinalizeStamps(k.writer, w2, z.meta);
    a := FlushNext(Smooth(z, now));
  }

  /** The turning points of the run in which nothing fails. */
  lemma QuietTurns(k: Settings, s: Sys, z: Sizes, r: Readings)
      returns (states: seq<Sys>, actions: seq<Action>, times: seq<real>, bump: nat, c: nat)
    requires Init(k, s) && Roomy(k, s.writer, z) && Passing(s.writer, r)
    ensures Run(k, states, actions) && Clocked(actions, times, r.written, r.exited) && states[0] == s && TwoStamps(states, actions, c)
    ensures bump < c && |states[bump].threads| == 3 && states[bump].threads[0].returned == states[bump].threads[2].returned == 1
    ensures states[bump].drainEpoch == 0 && states[bump + 1].drainEpoch == states[c].drainEpoch == 1
    ensures states[c].threads == [Buffered(k, z, 0), Left(k), Buffered(k, z, 2).(pc := Dying)]
    ensures states[c].missed == {2} && HeldBack(states[c], 0) && !states[|actions|].writeFailed
    ensures states[|actions| - 1].writer.offers
         == states[c].writer.offers + [Offer(BatchOf(k, z, 2), Accepted)] + [Offer(BatchOf(k, z, 0), Accepted)]
  {
    hide Reaches, Next, Allowed, Init, AfterDrain, Run, TwoStamps, Opened, ReadsAt, BatchOf, HeldBack;
    var s1, a1, s2, a2, v := QuietFirst(k, s, z, r);
    RotateDue(k, z, s2.writer, r.sealed);
    var s3, a3 := QuietSecond(k, Next(k, s2, a2), v, z, r.exited);
    states, actions, times, bump, c := Tells(k, s, r, s1, a1, s2, a2, s3, a3);
    BothStamped(k, states, actions, c);
  }

  lemma StillBuffered(k: Settings, s: Sys, z: Sizes)
    requires s.threads == [Buffered(k, z, 0), Left(k), Buffered(k, z, 2).(pc := Dying)]
    ensures InBuffer(s, Event(0, 0)) && InBuffer(s, Event(2, 0))
  {
    var threads := s.threads;
    assert threads[..3] == threads && threads[..3][..2] == threads[..2] && threads[..2][..1] == threads[..1];
    assert Event(2, 0) in threads[2].events && Event(0, 0) in threads[0].events;
    assert InBuffers(threads[..1], Event(0, 0)) > 0;
    assert InBuffers(threads[..2], Event(0, 0)) > 0;
  }

  /**
   No failed write is needed. From every fresh recorder that rotates by time and has room, at
   whatever times and sizes, there is a run without one in which both stamps are wrong: the first
   segment is stamped complete without an event that the flush thread's own sources had recorded
   and without one of a thread between its exit and its buffer's drop, both returned before the
   bump of its drain; the second is stamped complete and holds them.
   */
  lemma StampWrongWithoutFailure(k: Settings, s: Sys, z: Sizes, r: Readings)
      returns (states: seq<Sys>, actions: seq<Action>, times: seq<real>, bump: nat, c: nat)
    requires Init(k, s) && Roomy(k, s.writer, z) && Passing(s.writer, r)
    ensures Run(k, states, actions) && Clocked(actions, times, r.written, r.exited) && states[0] == s
    ensures TwoStamps(states, actions, c) && !states[|actions|].writeFailed
    ensures HeldBack(states[c], 0) && states[|actions|].notes[0].missed == {2}
    ensures Belated(states, actions, bump, Event(0, 0)) && Belated(states, actions, bump, Event(2, 0))
  {
    states, actions, times, bump, c := QuietTurns(k, s, z, r);
    var i := |states[c].writer.offers|;
    StillBuffered(k, states[c], z);
    assert c <= |actions| < |states| && bump + 1 < |states|;
    hide Run, ReturnedBefore, Belated, InBuffer, OfferedAs, HeldBack;
    ReturnedOnce(states, bump, 1, 0);
    ReturnedOnce(states, bump, 1, 2);
    AcceptedBatch(states[|actions| - 1], k, z, i, 2);
    AcceptedBatch(states[|actions| - 1], k, z, i + 1, 0);
    LeftBehind(k, states, actions, bump, c, Event(0, 0));
    LeftBehind(k, states, actions, bump, c, Event(2, 0));
  }
}
