/**
 How the invariant survives a step that concerns one thread: the step changes that thread's
 record, possibly pushes a batch of its events, and leaves the flush thread where it is.
 */
module RecordingFrames {
  import opened Collector
  import opened SegmentSpec
  import opened RecordingProtocol
  import opened RecordingInvariant

  /** Thread `t` moved on: it lost no progress and did not come back to life. */
  ghost predicate Progress(s: Sys, s': Sys, t: nat) {
    && t < |s.threads| && |s'.threads| == |s.threads|
    && (forall u :: 0 <= u < |s.threads| && u != t ==> s'.threads[u] == s.threads[u])
    && (var th, th' := s.threads[t], s'.threads[t];
        && Flushed(th) <= Flushed(th') && th.returned <= th'.returned && th.recorded <= th'.recorded
        && (Strong(th') ==> Strong(th)))
  }

  /** Thread `t` moved on by itself: it kept away from a buffer the drain has locked and alive while the drain refers to it. */
  ghost predicate Moves(s: Sys, s': Sys, t: nat) {
    && Progress(s, s', t)
    && (DrainHoldsArc(s, t) ==> Strong(s'.threads[t]))
    && (DrainHoldsLock(s, t) ==> s'.threads[t].events == s.threads[t].events && !OwnerHolds(s'.threads[t].pc))
  }

  /** Either nothing was pushed or `t`'s buffer was. */
  ghost predicate PushesAtMost(k: Settings, s: Sys, s': Sys, t: nat) {
    || (s'.pushed == s.pushed && s'.ring == s.ring && s'.removed == s.removed)
    || (&& t < |s.threads| && k.capacity > 0
        && s'.pushed == FlushBuffer(k, s, t).pushed
        && s'.ring == FlushBuffer(k, s, t).ring
        && s'.removed == FlushBuffer(k, s, t).removed)
  }

  /** The parts of the state that belong to the flush thread and the history of seals. */
  ghost predicate SameLoop(s: Sys, s': Sys) {
    && s'.drainEpoch == s.drainEpoch && s'.flusher == s.flusher && s'.bumped == s.bumped && s'.cycle == s.cycle
    && s'.writer == s.writer && s'.taken == s.taken && s'.marks == s.marks && s'.missed == s.missed
    && s'.notes == s.notes && s'.writeFailed == s.writeFailed
  }

  /** A step that concerns thread `t` only, whoever takes it. */
  ghost predicate LoopStep(k: Settings, s: Sys, s': Sys, t: nat) {
    && Moves(s, s', t) && PushesAtMost(k, s, s', t) && SameLoop(s, s')
    && (t == FLUSH_THREAD ==> s.flusher.InFlush? && s.flusher.action.Sources?)
    && (forall u :: u in s.handles ==> u in s'.handles)
    && (forall i :: 0 <= i < |s'.handles| ==> 0 < s'.handles[i] < |s.threads|)
    && ThreadOk(s', t)
  }

  /** A step of thread `t`. */
  ghost predicate ThreadStep(k: Settings, s: Sys, s': Sys, t: nat) {
    LoopStep(k, s, s', t) && !Busy(s, t) && s'.stop == s.stop && s'.stopMark == s.stopMark
  }

  // ----- The ring -----

  /** A pushed batch joins the ring; the batch it may displace joins the removals. */
  lemma PushedRing(k: Settings, s: Sys, t: nat)
    requires t < |s.threads| && k.capacity > 0 && s.pushed == Batches(s.removed) + s.ring && |s.ring| <= k.capacity
    ensures var s' := FlushBuffer(k, s, t);
      && s'.pushed == Batches(s'.removed) + s'.ring && |s'.ring| <= k.capacity
      && s'.pushed == s.pushed + [Batch(t, s.threads[t].events, s.threads[t].bytes)]
      && |s'.threads| == |s.threads|
  {
    var b := Batch(t, s.threads[t].events, s.threads[t].bytes);
    if Full(k, s) {
      BatchesAppend(s.removed, Removal(s.ring[0], Evicted));
      assert s.ring == [s.ring[0]] + s.ring[1..];
      assert Batches(s.removed) + s.ring + [b] == (Batches(s.removed) + [s.ring[0]]) + (s.ring[1..] + [b]);
    } else {
      assert Batches(s.removed) + s.ring + [b] == Batches(s.removed) + (s.ring + [b]);
    }
  }

  lemma RingPush(k: Settings, s: Sys, t: nat)
    requires RingOk(k, s) && ThreadsOk(s) && t < |s.threads| && k.capacity > 0
    ensures RingOk(k, FlushBuffer(k, s, t))
  {
    assert KeepsEvents(s, t) by {
      assert ThreadOk(s, t);
    }
    hide ThreadsOk, FlushBuffer;
    OwnBuffer(s, t);
    PushedRing(k, s, t);
  }

  /** A buffer holds only its own thread's events. */
  lemma OwnBuffer(s: Sys, t: nat)
    requires t < |s.threads| && KeepsEvents(s, t)
    ensures forall j :: 0 <= j < |s.threads[t].events| ==> s.threads[t].events[j].thread == t
    ensures |s.threads[t].events| <= s.threads[t].recorded
  {
    var flushed := OfThread(s.pushed, t);
    var all := FirstEvents(t, s.threads[t].recorded);
    forall j | 0 <= j < |s.threads[t].events|
      ensures s.threads[t].events[j].thread == t
    {
      assert all[|flushed| + j] == s.threads[t].events[j];
    }
  }

  lemma RingFrame(k: Settings, s: Sys, s': Sys, t: nat)
    requires RingOk(k, s) && ThreadsOk(s) && Progress(s, s', t) && PushesAtMost(k, s, s', t) && k.capacity > 0
    ensures RingOk(k, s')
  {
    if s'.pushed != s.pushed {
      RingPush(k, s, t);
    }
  }

  // ----- The other threads -----

  lemma ThreadsFrame(k: Settings, s: Sys, s': Sys, t: nat)
    requires ThreadsOk(s) && k.capacity > 0 && Progress(s, s', t) && PushesAtMost(k, s, s', t) && ThreadOk(s', t)
    requires s'.drainEpoch == s.drainEpoch && s'.marks == s.marks
    requires forall u :: u in s.handles ==> u in s'.handles
    requires forall i :: 0 <= i < |s'.handles| ==> 0 < s'.handles[i] < |s.threads|
    requires forall u :: 0 <= u < |s.threads| && u != t && DrainHoldsArc(s, u) ==> DrainHoldsArc(s', u)
    ensures ThreadsOk(s')
  {
    forall u | 0 <= u < |s'.threads|
      ensures ThreadOk(s', u)
    {
      if u != t {
        assert ThreadOk(s, u);
        assert forall e :: 0 <= e < |s.marks| ==> Mark(s', e, u) == Mark(s, e, u);
        OfThreadAppend(s.pushed, Batch(t, s.threads[t].events, s.threads[t].bytes), u);
      }
    }
  }

  // ----- The drain and the flush cycle -----

  lemma DrainFrame(s: Sys, s': Sys, t: nat)
    requires DrainOk(s) && Moves(s, s', t) && SameLoop(s, s')
    ensures DrainOk(s')
  {
    forall u: nat | u < |s.threads|
      ensures Mark(s', s'.drainEpoch, u) == Mark(s, s.drainEpoch, u)
    {
    }
  }

  /** Removals are only ever added to. */
  ghost predicate Extends(removed: seq<Removal>, removed': seq<Removal>) {
    |removed| <= |removed'| && removed'[..|removed|] == removed
  }

  lemma ExtendsOfThread(removed: seq<Removal>, removed': seq<Removal>, t: nat)
    requires Extends(removed, removed')
    ensures |OfThread(Batches(removed), t)| <= |OfThread(Batches(removed'), t)|
  {
    var rest := removed'[|removed|..];
    assert removed' == removed + rest;
    assert Batches(removed') == Batches(removed) + Batches(rest);
    OfThreadSplit(Batches(removed), Batches(rest), t);
  }

  lemma FlushFrame(k: Settings, s: Sys, s': Sys, t: nat)
    requires FlushOk(s) && Moves(s, s', t) && PushesAtMost(k, s, s', t) && SameLoop(s, s')
    requires t == FLUSH_THREAD ==> s.flusher.InFlush? && s.flusher.action.Sources?
    ensures FlushOk(s')
  {
    assert Extends(s.removed, s'.removed);
    forall u: nat
      ensures |OfThread(Batches(s.removed), u)| <= |OfThread(Batches(s'.removed), u)|
    {
      ExtendsOfThread(s.removed, s'.removed, u);
    }
  }

  // ----- The writer -----

  lemma NonEmptyAppend(batches: seq<Batch>, b: Batch)
    ensures NonEmpty(batches + [b]) == NonEmpty(batches) + (if |b.events| > 0 then [b] else [])
  {
    assert (batches + [b])[..|batches|] == batches;
  }

  lemma HandedAppend(removed: seq<Removal>, r: Removal)
    ensures HandedTo(removed + [r], |removed| + 1)
         == HandedTo(removed, |removed|) + (if r.fate == Popped && |r.batch.events| > 0 then [r.batch] else [])
  {
    assert (removed + [r])[..|removed| + 1] == removed + [r];
    assert removed[..|removed|] == removed;
    WithFateAppend(removed, r, Popped);
    if r.fate == Popped {
      NonEmptyAppend(WithFate(removed, Popped), r.batch);
    } else {
      assert WithFate(removed + [r], Popped) == WithFate(removed, Popped);
    }
  }

  lemma EvictionKeepsHanded(removed: seq<Removal>, removed': seq<Removal>)
    requires removed' == removed || (|removed'| == |removed| + 1 && removed' == removed + [removed'[|removed|]] && removed'[|removed|].fate == Evicted)
    ensures HandedTo(removed', |removed'|) == HandedTo(removed, |removed|)
  {
    if removed' != removed {
      HandedAppend(removed, removed'[|removed|]);
    }
  }

  lemma WriterFrame(k: Settings, s: Sys, s': Sys, t: nat)
    requires WriterOk(s) && PushesAtMost(k, s, s', t) && SameLoop(s, s')
    ensures WriterOk(s')
  {
    EvictionKeepsHanded(s.removed, s'.removed);
  }

  lemma NotesFrame(s: Sys, s': Sys)
    requires NotesOk(s) && s'.notes == s.notes && s'.writer.log == s.writer.log
    ensures NotesOk(s')
  {
  }

  // ----- Shutdown -----

  lemma StopFrame(k: Settings, s: Sys, s': Sys, t: nat)
    requires StopOk(s) && Moves(s, s', t) && PushesAtMost(k, s, s', t) && SameLoop(s, s')
    requires !Busy(s, t) && s'.stop == s.stop && s'.stopMark == s.stopMark
    ensures StopOk(s')
  {
    assert Extends(s.removed, s'.removed);
    forall u: nat
      ensures |OfThread(Batches(s.removed), u)| <= |OfThread(Batches(s'.removed), u)|
    {
      ExtendsOfThread(s.removed, s'.removed, u);
    }
  }

  // ----- Evictions -----

  lemma {:induction false} FlagsUpdate(threads: seq<Thread>, t: nat, th: Thread)
    requires t < |threads|
    ensures ThreadFlags(threads[t := th]) == ThreadFlags(threads) - ThreadFlag(threads[t]) + ThreadFlag(th)
    ensures ThreadFlags(threads) >= ThreadFlag(threads[t])
  {
    var n := |threads| - 1;
    var changed := threads[t := th];
    if t == n {
      assert changed[..n] == threads[..n];
    } else {
      assert changed[..n] == threads[..n][t := th];
      FlagsUpdate(threads[..n], t, th);
    }
  }

  lemma EvictionsPush(k: Settings, s: Sys, t: nat)
    requires t < |s.threads| && k.capacity > 0
    ensures |WithFate(FlushBuffer(k, s, t).removed, Evicted)| == |WithFate(s.removed, Evicted)| + Flag(Full(k, s))
  {
    if Full(k, s) {
      WithFateAppend(s.removed, Removal(s.ring[0], Evicted), Evicted);
    }
  }

  // ----- All together -----

  lemma LoopFrame(k: Settings, s: Sys, s': Sys, t: nat)
    requires Inv(k, s) && LoopStep(k, s, s', t) && StopOk(s') && EvictionsOk(s')
    ensures Inv(k, s')
  {
    hide StopOk, EvictionsOk;
    ThreadsFrame(k, s, s', t);
    RingFrame(k, s, s', t);
    DrainFrame(s, s', t);
    FlushFrame(k, s, s', t);
    WriterFrame(k, s, s', t);
    NotesFrame(s, s');
  }

  lemma InvFrame(k: Settings, s: Sys, s': Sys, t: nat)
    requires Inv(k, s) && ThreadStep(k, s, s', t) && EvictionsOk(s')
    ensures Inv(k, s')
  {
    hide EvictionsOk, StopOk, DrainOk, FlushOk, WriterOk, NotesOk, ThreadsOk, RingOk;
    StopFrame(k, s, s', t);
    hide Inv;
    LoopFrame(k, s, s', t);
  }

  /** The thread may act: it is not the flush thread, or the flush thread runs its sources. */
  predicate MayStep(s: Sys, t: nat) {
    t == FLUSH_THREAD ==> s.flusher.InFlush? && s.flusher.action.Sources?
  }

  /** What a step of thread `t` needs to know of the rest of the state. */
  ghost predicate Facts(k: Settings, s: Sys, t: nat) {
    && k.capacity > 0 && t < |s.threads| && |s.marks| == s.drainEpoch + 1 && ThreadOk(s, t)
    && (forall i :: 0 <= i < |s.handles| ==> 0 < s.handles[i] < |s.threads|)
    && (s.threads[t].pc != Idle ==> MayStep(s, t))
    && !(OwnerHolds(s.threads[t].pc) && DrainHoldsLock(s, t))
    && (DrainHoldsArc(s, t) ==> Strong(s.threads[t]))
    && (Busy(s, t) ==> s.threads[t].pc == Idle && t != FLUSH_THREAD)
    && EvictionsOk(s)
  }

  lemma InvFacts(k: Settings, s: Sys, t: nat)
    requires Inv(k, s) && t < |s.threads|
    ensures Facts(k, s, t)
  {
    assert ThreadOk(s, t);
  }

  /** The two obligations of a step: it is a step of its thread, and evictions stay accounted for. */
  ghost predicate StepOk(k: Settings, s: Sys, s': Sys, t: nat) {
    ThreadStep(k, s, s', t) && EvictionsOk(s')
  }

  /** A step that changes nothing but one thread's record, without pushing. */
  lemma RecordStep(k: Settings, s: Sys, t: nat, th: Thread)
    requires Facts(k, s, t) && MayStep(s, t) && !Busy(s, t)
    requires Moves(s, SetThread(s, t, th), t) && ThreadOk(SetThread(s, t, th), t)
    requires ThreadFlag(th) == ThreadFlag(s.threads[t])
    ensures StepOk(k, s, SetThread(s, t, th), t)
  {
    FlagsUpdate(s.threads, t, th);
  }

  /** A step that pushes a thread's buffer; the eviction it may have caused is flagged in the thread's new position. */
  lemma PushStep(k: Settings, s: Sys, t: nat, pc: ThreadPc)
    requires Facts(k, s, t) && MayStep(s, t) && !Busy(s, t)
    requires ThreadFlag(s.threads[t]) == 0 && ThreadFlag(s.threads[t].(pc := pc)) == Flag(Full(k, s))
    requires Moves(s, SetPc(FlushBuffer(k, s, t), t, pc), t) && ThreadOk(SetPc(FlushBuffer(k, s, t), t, pc), t)
    ensures StepOk(k, s, SetPc(FlushBuffer(k, s, t), t, pc), t)
  {
    var s' := SetPc(FlushBuffer(k, s, t), t, pc);
    assert s'.threads == s.threads[t := s'.threads[t]];
    FlagsUpdate(s.threads, t, s'.threads[t]);
    EvictionsPush(k, s, t);
  }

  /** A step that counts a thread's flagged eviction. */
  lemma CountStep(k: Settings, s: Sys, t: nat, pc: ThreadPc)
    requires Facts(k, s, t) && MayStep(s, t) && !Busy(s, t)
    requires s.threads[t].pc.Pushed? || s.threads[t].pc.DropPushed?
    requires ThreadFlag(s.threads[t].(pc := pc)) == 0
    requires Moves(s, SetPc(CountIf(s, s.threads[t].pc.evicted), t, pc), t)
    requires ThreadOk(SetPc(CountIf(s, s.threads[t].pc.evicted), t, pc), t)
    ensures StepOk(k, s, SetPc(CountIf(s, s.threads[t].pc.evicted), t, pc), t)
  {
    hide Moves, ThreadOk, FlushBuffer;
    FlagsUpdate(s.threads, t, s.threads[t].(pc := pc));
  }
}
