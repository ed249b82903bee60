/**
 The two forms of the intrusive drain agree: the protocol's drain, when no other thread takes a
 step in between, does to buffers and handles what the object's method promises.
 */
module DrainAlone {
  import opened Collector
  import opened RecordingProtocol
  import opened RecordingDrain
  import opened RecordingScenes
  import SS = SharedState

  /** A thread's buffer as the object keeps it. */
  function View(th: Thread): SS.TlBuffer {
    SS.TlBuffer(th.events, th.bytes, th.hasCollector, Strong(th), th.flushEpoch, th.recorded)
  }

  function Views(threads: seq<Thread>): (buffers: map<nat, SS.TlBuffer>)
    ensures forall t: nat :: t in buffers <==> t < |threads|
    ensures forall t: nat :: t < |threads| ==> buffers[t] == View(threads[t])
  {
    map t: nat | t < |threads| :: View(threads[t])
  }

  /** No thread is in the middle of something. */
  predicate Calm(threads: seq<Thread>) {
    forall t :: 0 <= t < |threads| ==> !OwnerHolds(threads[t].pc) && threads[t].pc != HandedOver
  }

  predicate HandlesOk(s: Sys) {
    forall i :: 0 <= i < |s.handles| ==> s.handles[i] < |s.threads|
  }

  /** The drain is at this step for the given handle of those registered. */
  predicate AtStep(s: Sys, tick: Tick, at: nat, step: DrainStep) {
    && s.flusher == InDrain(tick, Drain(s.drainEpoch, s.handles, at), step) && at <= |s.handles|
    && HandlesOk(s) && Calm(s.threads)
  }

  predicate Before(s: Sys, tick: Tick, at: nat) {
    AtStep(s, tick, at, Check)
  }

  /** One handle's turn: from `s` to `s'` at most that thread's buffer changed. */
  predicate Turn(s: Sys, s': Sys, t: nat) {
    && t < |s.threads| && s'.handles == s.handles && s'.drainEpoch == s.drainEpoch
    && |s'.threads| == |s.threads| && s'.threads == s.threads[t := s'.threads[t]]
  }

  lemma Moves(k: Settings, s0: Sys, s: Sys) returns (s': Sys)
    requires k.capacity > 0 && Reaches(k, Draining, s0, s) && DrainEnabled(s)
    ensures s' == DrainApply(k, s) && Reaches(k, Draining, s0, s')
  {
    hide DrainApply, Reaches;
    s' := DrainApply(k, s);
    Go(k, Draining, s0, s, DrainNext);
  }

  /** A live buffer that is behind gets locked. */
  lemma LocksStale(k: Settings, s0: Sys, s: Sys, tick: Tick, at: nat) returns (s': Sys)
    requires k.capacity > 0 && Reaches(k, Draining, s0, s) && Before(s, tick, at) && at < |s.handles|
    requires SS.Stale(View(s.threads[s.handles[at]]), s.drainEpoch)
    ensures Reaches(k, Draining, s0, s') && AtStep(s', tick, at, Flush) && s' == s.(flusher := s'.flusher)
  {
    hide Reaches, FlushBuffer;
    var s1 := Moves(k, s0, s);
    var s2 := Moves(k, s0, s1);
    s' := Moves(k, s0, s2);
  }

  /** What the flush step does to the locked buffer. */
  lemma FlushShape(k: Settings, s: Sys, tick: Tick, at: nat)
    requires k.capacity > 0 && AtStep(s, tick, at, Flush) && at < |s.handles|
    ensures DrainEnabled(s)
    ensures var s', t := DrainApply(k, s), s.handles[at];
      && (AtStep(s', tick, at, Stamp) || AtStep(s', tick, at, Count(Full(k, s)))) && Turn(s, s', t)
      && s'.threads[t] == s.threads[t].(events := [], bytes := s'.threads[t].bytes)
  {
    hide ForcePushed, Full, Pruned;
    var t := s.handles[at];
    assert s.threads == s.threads[t := s.threads[t]];
  }

  /** The locked buffer is flushed if it holds anything, and an eviction counted. */
  lemma FlushesLocked(k: Settings, s0: Sys, s: Sys, tick: Tick, at: nat) returns (s': Sys)
    requires k.capacity > 0 && Reaches(k, Draining, s0, s) && AtStep(s, tick, at, Flush) && at < |s.handles|
    ensures var t := s.handles[at];
      && Reaches(k, Draining, s0, s') && AtStep(s', tick, at, Stamp) && Turn(s, s', t)
      && s'.threads[t] == s.threads[t].(events := [], bytes := s'.threads[t].bytes)
  {
    hide Reaches, Full;
    FlushShape(k, s, tick, at);
    hide FlushBuffer;
    s' := Moves(k, s0, s);
    if s'.flusher.step.Count? {
      s' := Moves(k, s0, s');
    }
  }

  /** The flushed buffer is stamped and let go. */
  lemma StampsFlushed(k: Settings, s0: Sys, s: Sys, tick: Tick, at: nat) returns (s': Sys)
    requires k.capacity > 0 && Reaches(k, Draining, s0, s) && AtStep(s, tick, at, Stamp) && at < |s.handles|
    ensures var t := s.handles[at];
      && Reaches(k, Draining, s0, s') && Before(s', tick, at + 1) && Turn(s, s', t)
      && s'.threads[t] == s.threads[t].(flushEpoch := s.drainEpoch)
  {
    hide Reaches, FlushBuffer, Pruned;
    var s1 := Moves(k, s0, s);
    s' := Moves(k, s0, s1);
  }

  /** The turn of a buffer that is behind and alive: lock, flush if there is anything, stamp, release. */
  lemma StaleTurn(k: Settings, s0: Sys, s: Sys, tick: Tick, at: nat) returns (s': Sys)
    requires k.capacity > 0 && Reaches(k, Draining, s0, s) && Before(s, tick, at) && at < |s.handles|
    requires SS.Stale(View(s.threads[s.handles[at]]), s.drainEpoch)
    ensures Reaches(k, Draining, s0, s') && Before(s', tick, at + 1) && Turn(s, s', s.handles[at])
    ensures SS.Drained(View(s.threads[s.handles[at]]), View(s'.threads[s.handles[at]]), s.drainEpoch)
  {
    hide Reaches, AtStep;
    var s1 := LocksStale(k, s0, s, tick, at);
    var s2 := FlushesLocked(k, s0, s1, tick, at);
    s' := StampsFlushed(k, s0, s2, tick, at);
    assert s'.threads == s.threads[s.handles[at] := s'.threads[s.handles[at]]];
  }

  /** The turn of a buffer that has caught up, or whose last reference is gone: nothing happens. */
  lemma IdleTurn(k: Settings, s0: Sys, s: Sys, tick: Tick, at: nat) returns (s': Sys)
    requires k.capacity > 0 && Reaches(k, Draining, s0, s) && Before(s, tick, at) && at < |s.handles|
    requires !SS.Stale(View(s.threads[s.handles[at]]), s.drainEpoch)
    ensures Reaches(k, Draining, s0, s') && Before(s', tick, at + 1) && Turn(s, s', s.handles[at])
    ensures SS.Drained(View(s.threads[s.handles[at]]), View(s'.threads[s.handles[at]]), s.drainEpoch)
  {
    hide Reaches, FlushBuffer;
    s' := Moves(k, s0, s);
    if s'.flusher.step.Upgrade? {
      s' := Moves(k, s0, s');
    }
    assert s'.threads == s.threads[s.handles[at] := s.threads[s.handles[at]]];
  }

  /** From the handle at `at` on. */
  lemma {:induction false} DrainsFrom(k: Settings, s0: Sys, start: Sys, s: Sys, tick: Tick, at: nat) returns (s': Sys)
    requires k.capacity > 0 && Reaches(k, Draining, s0, s) && Before(s, tick, at) && s.handles == start.handles
    requires |s.threads| == |start.threads| && s.drainEpoch == start.drainEpoch
    requires SS.AllDrained(Views(start.threads), Views(s.threads), start.handles[..at], start.drainEpoch)
    ensures Reaches(k, Draining, s0, s') && Before(s', tick, |start.handles|) && s'.handles == start.handles
    ensures |s'.threads| == |start.threads| && s'.drainEpoch == start.drainEpoch
    ensures SS.AllDrained(Views(start.threads), Views(s'.threads), start.handles, start.drainEpoch)
    decreases |start.handles| - at
  {
    hide Reaches, SS.AllDrained, SS.Drained, Calm;
    if at < |s.handles| {
      var s1;
      if SS.Stale(View(s.threads[s.handles[at]]), s.drainEpoch) {
        s1 := StaleTurn(k, s0, s, tick, at);
      } else {
        s1 := IdleTurn(k, s0, s, tick, at);
      }
      assert Views(s1.threads).Keys == Views(s.threads).Keys;
      SS.AllDrainedNext(Views(start.threads), Views(s.threads), Views(s1.threads), start.handles[..at], s.handles[at], s.drainEpoch);
      SS.TakeNext(start.handles, at);
      s' := DrainsFrom(k, s0, start, s1, tick, at + 1);
    } else {
      s' := s;
      assert start.handles[..at] == start.handles;
    }
  }

  /** The protocol's drain without interference: a snapshot, and then drain steps only, lead to the flush cycle. */
  lemma DrainsAlone(k: Settings, s: Sys) returns (s': Sys)
    requires k.capacity > 0 && s.flusher.Snapshotting? && HandlesOk(s) && Calm(s.threads)
    ensures Allowed(s, Snapshot) && Reaches(k, Draining, Next(k, s, Snapshot), s')
    ensures s'.flusher == InFlush(s.flusher.tick, Gate) && |s'.threads| == |s.threads|
    ensures SS.AllDrained(Views(s.threads), Views(s'.threads), s.handles, s.drainEpoch)
    ensures forall t: nat :: t < |s'.threads| ==> (t in s'.handles <==> t in s.handles && Strong(s'.threads[t]))
  {
    hide Reaches, SS.AllDrained, SS.Drained;
    var s1 := Next(k, s, Snapshot);
    Stay(k, Draining, s1);
    SS.NoneDrained(Views(s.threads), s.drainEpoch);
    SS.TakeNone(s.handles);
    var s2 := DrainsFrom(k, s1, s, s1, s.flusher.tick, 0);
    PrunedKeeps(s2.handles, s2.threads);
    s' := Moves(k, s1, s2);
  }
}
