/** The steps of a flush cycle keep the invariant: sources, self-drain, pops, writes and seals. */
module RecordingFlush {
  import opened Wrappers
  import opened Collector
  import opened Rotation
  import opened SegmentSpec
  import opened SegmentProofs
  import opened RecordingProtocol
  import opened RecordingInvariant
  import opened RecordingFrames
  import opened RecordingSteps
  import opened RecordingDrain

  // ----- Steps without writer or buffer -----

  /** Neither a buffer, nor the ring, nor the writer is touched. */
  predicate Plain(s: Sys) {
    && s.flusher.InFlush? && |s.threads| > 0
    && !s.flusher.action.Pop? && !s.flusher.action.Close?
    && (s.flusher.action.DrainSelf? ==> !s.flusher.tick.drainSelf || s.threads[FLUSH_THREAD].events == [])
  }

  lemma PlainFlush(k: Settings, s: Sys, env: FlushEnv)
    requires k.capacity > 0 && FlushEnabled(s) && Plain(s) && FlushOk(s)
    ensures FlushOk(FlushApply(k, s, env))
  {
    hide PopNext, ClosedCycle, FlushBuffer, OfThread, Batches;
    assert forall e, u :: Mark(FlushApply(k, s, env), e, u) == Mark(s, e, u);
  }

  lemma WithinCycle(s: Sys, s': Sys)
    requires StopOk(s) && SameData(s, s')
    requires s.flusher.InFlush? && s'.flusher.InFlush? && s'.flusher.tick == s.flusher.tick
    ensures StopOk(s')
  {
    assert forall e, u :: Mark(s', e, u) == Mark(s, e, u);
  }

  lemma PlainRest(k: Settings, s: Sys, env: FlushEnv)
    requires k.capacity > 0 && FlushEnabled(s) && Plain(s)
    ensures var s' := FlushApply(k, s, env);
      && SameData(s, s') && KeepsArc(s, s') && DrainOk(s')
      && s'.flusher.InFlush? && s'.flusher.tick == s.flusher.tick
  {
    hide PopNext, ClosedCycle, FlushBuffer;
  }

  lemma PlainEvictions(k: Settings, s: Sys, env: FlushEnv)
    requires k.capacity > 0 && FlushEnabled(s) && Plain(s) && EvictionsOk(s)
    ensures EvictionsOk(FlushApply(k, s, env))
  {
    var s' := FlushApply(k, s, env);
    if !s.flusher.action.CountSelf? {
      assert s'.taken + s'.dropped == s.taken + s.dropped && Uncounted(s') == Uncounted(s);
    }
  }

  lemma PlainKeeps(k: Settings, s: Sys, env: FlushEnv)
    requires Inv(k, s) && FlushEnabled(s) && Plain(s)
    ensures Inv(k, FlushApply(k, s, env))
  {
    assert FlushOk(s) && StopOk(s) && EvictionsOk(s);
    hide Inv, FlushOk, StopOk, EvictionsOk, DrainOk, SameData, KeepsArc, FlushApply;
    PlainFlush(k, s, env);
    PlainRest(k, s, env);
    PlainEvictions(k, s, env);
    WithinCycle(s, FlushApply(k, s, env));
    PositionKeeps(k, s, FlushApply(k, s, env));
  }

  // ----- The flush thread's own buffer -----

  lemma SelfDrainEvictions(k: Settings, s: Sys)
    requires k.capacity > 0 && EvictionsOk(s) && |s.threads| > 0
    requires s.flusher.InFlush? && s.flusher.action.DrainSelf?
    ensures EvictionsOk(FlushTo(FlushBuffer(k, s, FLUSH_THREAD), CountSelf(Full(k, s))))
  {
    FlagsUpdate(s.threads, FLUSH_THREAD, FlushBuffer(k, s, FLUSH_THREAD).threads[FLUSH_THREAD]);
    EvictionsPush(k, s, FLUSH_THREAD);
  }

  /** What emptying the flush thread's own buffer does to that thread. */
  lemma SelfDrainShape(k: Settings, s: Sys)
    requires k.capacity > 0 && |s.threads| > 0 && s.flusher.InFlush?
    ensures var s' := FlushTo(FlushBuffer(k, s, FLUSH_THREAD), CountSelf(Full(k, s)));
      && s'.threads == s.threads[FLUSH_THREAD := s.threads[FLUSH_THREAD].(events := [], bytes := k.header)]
      && s'.handles == s.handles && s'.marks == s.marks && s'.drainEpoch == s.drainEpoch
      && s'.pushed == FlushBuffer(k, s, FLUSH_THREAD).pushed
  {
  }

  /** An idle thread whose buffer was flushed is still in order. */
  lemma EmptiedOk(s: Sys, s': Sys, t: nat)
    requires t < |s.threads| && ThreadOk(s, t) && s.threads[t].pc == Idle
    requires |s'.threads| == |s.threads| && s'.handles == s.handles && s'.marks == s.marks && s'.drainEpoch == s.drainEpoch
    requires s'.threads[t].events == [] && s'.threads[t] == s.threads[t].(events := [], bytes := s'.threads[t].bytes)
    requires KeepsEvents(s', t)
    ensures ThreadOk(s', t)
  {
    hide KeepsEvents;
    assert forall e :: Mark(s', e, t) == Mark(s, e, t);
  }

  /** Outside its sources the flush thread is in no recording call, so it may empty its own buffer. */
  lemma SelfDrainOk(k: Settings, s: Sys)
    requires k.capacity > 0 && |s.threads| > 0 && ThreadOk(s, FLUSH_THREAD) && s.threads[FLUSH_THREAD].pc == Idle
    requires s.flusher.InFlush? && s.flusher.action.DrainSelf?
    ensures var s' := FlushTo(FlushBuffer(k, s, FLUSH_THREAD), CountSelf(Full(k, s)));
      Progress(s, s', FLUSH_THREAD) && ThreadOk(s', FLUSH_THREAD) && s'.threads[FLUSH_THREAD].events == []
  {
    var t := FLUSH_THREAD;
    var s' := FlushTo(FlushBuffer(k, s, t), CountSelf(Full(k, s)));
    hide ThreadOk, FlushBuffer, FlushTo, Full;
    SelfDrainShape(k, s);
    IdleKeeps(s, t);
    PushKeepsEvents(k, s, t);
    assert KeepsEvents(s', t);
    EmptiedOk(s, s', t);
  }

  lemma IdleKeeps(s: Sys, t: nat)
    requires t < |s.threads| && ThreadOk(s, t)
    ensures KeepsEvents(s, t) && |s.threads[t].events| <= s.threads[t].recorded
  {
    OwnBuffer(s, t);
  }

  lemma SelfDrainRest(k: Settings, s: Sys)
    requires k.capacity > 0 && FlushOk(s) && StopOk(s) && |s.threads| > 0
    requires s.flusher.InFlush? && s.flusher.action.DrainSelf?
    requires Progress(s, FlushTo(FlushBuffer(k, s, FLUSH_THREAD), CountSelf(Full(k, s))), FLUSH_THREAD)
    ensures var s' := FlushTo(FlushBuffer(k, s, FLUSH_THREAD), CountSelf(Full(k, s)));
      FlushOk(s') && StopOk(s') && DrainOk(s')
  {
    var s' := FlushTo(FlushBuffer(k, s, FLUSH_THREAD), CountSelf(Full(k, s)));
    assert forall e, u :: Mark(s', e, u) == Mark(s, e, u);
  }

  lemma SelfDrainData(k: Settings, s: Sys, s': Sys)
    requires ThreadsOk(s) && RingOk(k, s) && WriterOk(s) && NotesOk(s) && k.capacity > 0
    requires s.flusher.InFlush? && s.flusher.action.DrainSelf?
    requires s' == FlushTo(FlushBuffer(k, s, FLUSH_THREAD), CountSelf(Full(k, s)))
    requires Progress(s, s', FLUSH_THREAD) && ThreadOk(s', FLUSH_THREAD)
    ensures ThreadsOk(s') && RingOk(k, s') && WriterOk(s') && NotesOk(s')
  {
    ThreadsFrame(k, s, s', FLUSH_THREAD);
    RingFrame(k, s, s', FLUSH_THREAD);
    hide ThreadOk, RingOk, Progress;
    EvictionKeepsHanded(s.removed, s'.removed);
    SameWriter(k, s, s');
  }

  lemma FlushThreadIdle(k: Settings, s: Sys)
    requires ThreadsOk(s) && FlushOk(s) && s.flusher.InFlush? && s.flusher.action.DrainSelf?
    ensures |s.threads| > 0 && s.threads[FLUSH_THREAD].pc == Idle && ThreadOk(s, FLUSH_THREAD)
  {
  }

  lemma SelfDrainKeeps(k: Settings, s: Sys)
    requires Inv(k, s) && s.flusher.InFlush? && s.flusher.action.DrainSelf? && |s.threads| > 0 && k.capacity > 0
    ensures Inv(k, FlushTo(FlushBuffer(k, s, FLUSH_THREAD), CountSelf(Full(k, s))))
  {
    var s' := FlushTo(FlushBuffer(k, s, FLUSH_THREAD), CountSelf(Full(k, s)));
    hide *;
    PartsOf(k, s);
    FlushThreadIdle(k, s);
    SelfDrainOk(k, s);
    SelfDrainEvictions(k, s);
    SelfDrainRest(k, s);
    SelfDrainData(k, s, s');
    FromParts(k, s');
  }

  // ----- Popping -----

  /** The state after the oldest batch left the ring, before the writer sees it. */
  function Taken(s: Sys): Sys
    requires s.ring != []
  {
    s.(ring := s.ring[1..], removed := s.removed + [Removal(s.ring[0], Popped)])
  }

  lemma TakenRing(k: Settings, s: Sys)
    requires RingOk(k, s) && s.ring != []
    ensures RingOk(k, Taken(s))
    ensures Extends(s.removed, Taken(s).removed)
  {
    var b := s.ring[0];
    BatchesAppend(s.removed, Removal(b, Popped));
    assert s.ring == [b] + s.ring[1..];
    assert Batches(s.removed) + ([b] + s.ring[1..]) == (Batches(s.removed) + [b]) + s.ring[1..];
  }

  /** A popped batch with events was never offered before: the writer has been offered what was handed to it so far. */
  lemma TakenHanded(s: Sys)
    requires s.ring != []
    ensures HandedTo(Taken(s).removed, |Taken(s).removed|)
         == HandedTo(s.removed, |s.removed|) + (if |s.ring[0].events| > 0 then [s.ring[0]] else [])
  {
    HandedAppend(s.removed, Removal(s.ring[0], Popped));
  }

  /** The ring is empty: everything that was flushed has left it, so the drained threads' events are handed out. */
  lemma EmptyRingHandsOut(k: Settings, s: Sys, t: nat)
    requires RingOk(k, s) && ThreadsOk(s) && s.ring == [] && t < |s.threads|
    ensures |OfThread(Batches(s.removed), t)| == Flushed(s.threads[t])
  {
    assert ThreadOk(s, t);
    assert s.pushed == Batches(s.removed);
    assert |OfThread(s.pushed, t) + s.threads[t].events| == s.threads[t].recorded;
  }

  lemma PopEmptyFlush(k: Settings, s: Sys)
    requires FlushOk(s) && RingOk(k, s) && ThreadsOk(s)
    requires s.flusher.InFlush? && s.flusher.action.Pop? && s.ring == []
    ensures FlushOk(FlushTo(s, Close(true)))
  {
    var s' := FlushTo(s, Close(true));
    assert forall e, u :: Mark(s', e, u) == Mark(s, e, u);
    forall t | 0 <= t < |s.threads|
      ensures |OfThread(Batches(s.removed), t)| == Flushed(s.threads[t])
    {
      EmptyRingHandsOut(k, s, t);
    }
  }

  lemma PopEmptyKeeps(k: Settings, s: Sys, env: FlushEnv)
    requires Inv(k, s) && FlushEnabled(s) && s.flusher.action.Pop? && s.ring == []
    ensures Inv(k, FlushApply(k, s, env))
  {
    var s' := FlushTo(s, Close(true));
    PopEmptyFlush(k, s);
    WithinCycle(s, s');
    assert DrainOk(s') && EvictionsOk(s') && KeepsArc(s, s');
    hide Inv, FlushOk, StopOk, EvictionsOk, DrainOk, KeepsArc;
    PositionKeeps(k, s, s');
  }

  /** What one pop that hands the batch to the writer, or skips it, changes. */
  ghost predicate Pops(s: Sys, s': Sys) {
    && s.ring != [] && s.flusher.InFlush? && s.flusher.action.Pop?
    && s'.threads == s.threads && s'.handles == s.handles && s'.pushed == s.pushed
    && s'.ring == Taken(s).ring && s'.removed == Taken(s).removed
    && s'.marks == s.marks && s'.drainEpoch == s.drainEpoch && s'.missed == s.missed
    && s'.stop == s.stop && s'.stopMark == s.stopMark && s'.taken == s.taken && s'.dropped == s.dropped
    && s'.flusher.InFlush? && s'.flusher.tick == s.flusher.tick
    && (s'.flusher.action.Pop? || (s'.flusher.action.DisableOnError? && s'.writeFailed))
    && (s.writeFailed ==> s'.writeFailed)
  }

  lemma PopsThreads(s: Sys, s': Sys)
    requires ThreadsOk(s) && Pops(s, s')
    ensures ThreadsOk(s')
  {
    assert forall e, t :: Mark(s', e, t) == Mark(s, e, t);
    forall t | 0 <= t < |s'.threads|
      ensures ThreadOk(s', t)
    {
      assert ThreadOk(s, t);
    }
  }

  lemma PopsRest(k: Settings, s: Sys, s': Sys)
    requires FlushOk(s) && StopOk(s) && EvictionsOk(s) && RingOk(k, s) && Pops(s, s')
    ensures FlushOk(s') && StopOk(s') && DrainOk(s') && RingOk(k, s')
  {
    assert forall e, t :: Mark(s', e, t) == Mark(s, e, t);
    TakenRing(k, s);
  }

  lemma PopsEvictions(s: Sys, s': Sys)
    requires EvictionsOk(s) && Pops(s, s')
    ensures EvictionsOk(s')
  {
    WithFateAppend(s.removed, Removal(s.ring[0], Popped), Evicted);
    assert WithFate(s'.removed, Evicted) == WithFate(s.removed, Evicted);
  }

  lemma PopsKeeps(k: Settings, s: Sys, s': Sys)
    requires Inv(k, s) && Pops(s, s') && WriterOk(s') && NotesOk(s')
    ensures Inv(k, s')
  {
    hide WriterOk, NotesOk;
    PopsThreads(s, s');
    PopsRest(k, s, s');
    PopsEvictions(s, s');
  }

  lemma PopEmptyBatchKeeps(k: Settings, s: Sys, env: FlushEnv)
    requires Inv(k, s) && FlushEnabled(s) && s.flusher.action.Pop? && s.ring != [] && |s.ring[0].events| == 0
    ensures Inv(k, FlushApply(k, s, env))
  {
    var s' := Taken(s);
    TakenHanded(s);
    TakenRing(k, s);
    assert WriterOk(s') && Pops(s, s');
    hide Inv, WriterOk, NotesOk, Pops;
    PopsKeeps(k, s, s');
  }

  // ----- Seals -----

  /** While no write failed and none was dropped, what was accepted is all that was offered. */
  lemma {:induction false} AllAccepted(offers: seq<Offer>)
    requires OffersWith(offers, Failed) == [] && OffersWith(offers, Dropped) == []
    ensures OffersWith(offers, Accepted) == OfferedBatches(offers)
  {
    if |offers| != 0 {
      var n := |offers| - 1;
      AllAccepted(offers[..n]);
      assert OfferedBatches(offers) == OfferedBatches(offers[..n]) + [offers[n].batch];
    }
  }

  // ----- Handing a batch to the writer -----

  /** The state after the popped batch was handed to the writer. */
  function Handed(k: Settings, s: Sys, env: WriteEnv): Sys
    requires s.ring != [] && s.flusher.InFlush?
  {
    var out := Written(k.writer, s.writer, s.ring[0], env);
    var s2 := WriterMoved(Taken(s), out.writer);
    if out.ok then s2 else FlushTo(s2.(writeFailed := true), DisableOnError)
  }

  /** What handing a batch over means for the writer's part of the state. */
  lemma HandedData(k: Settings, s: Sys, env: WriteEnv)
    requires s.ring != [] && s.flusher.InFlush?
    ensures var s' := Handed(k, s, env);
      && s'.writer == Written(k.writer, s.writer, s.ring[0], env).writer
      && s'.removed == Taken(s).removed && !s'.flusher.Finished?
      && (!s'.writeFailed ==> !s.writeFailed && Written(k.writer, s.writer, s.ring[0], env).ok)
  {
    hide Written;
  }

  lemma OfferedOneMore(s: Sys, b: Batch, fate: OfferFate)
    requires OfferedBatches(s.writer.offers) == HandedTo(s.removed, |s.removed|)
    requires s.ring != [] && b == s.ring[0] && |b.events| > 0
    ensures OfferedBatches(s.writer.offers + [Offer(b, fate)]) == HandedTo(Taken(s).removed, |Taken(s).removed|)
    ensures fate != Failed ==> OffersWith(s.writer.offers + [Offer(b, fate)], Failed) == OffersWith(s.writer.offers, Failed)
  {
    hide HandedTo, Taken;
    TakenHanded(s);
    OffersAppend(s.writer.offers, Offer(b, fate), Failed);
    assert OfferedBatches(s.writer.offers + [Offer(b, fate)]) == OfferedBatches(s.writer.offers) + [b];
  }

  lemma HandedWriter(k: Settings, s: Sys, env: WriteEnv)
    requires WriterOk(s) && s.ring != [] && s.flusher.InFlush? && |s.ring[0].events| > 0
    ensures WriterOk(Handed(k, s, env))
  {
    var b := s.ring[0];
    var fate := WriteFate(s.writer, env);
    hide Handed, Written, WriteFate, HandedTo, Taken, OffersWith, Conserved, DropsCounted;
    WrittenConserves(k.writer, s.writer, b, env);
    WrittenOffers(k.writer, s.writer, b, env);
    HandedData(k, s, env);
    OfferedOneMore(s, b, fate);
  }

  lemma SealsShape(w: Writer, w': Writer, kind: SealKind)
    requires Seals(w, w', kind)
    ensures |w'.log| == |w.log| + 1 && w'.log[..|w.log|] == w.log && w'.log[|w.log|].kind == kind && w.active.Some?
  {
  }

  lemma HandedNotes(k: Settings, s: Sys, env: WriteEnv)
    requires NotesOk(s) && s.ring != [] && s.flusher.InFlush? && |s.ring[0].events| > 0
    ensures NotesOk(Handed(k, s, env))
  {
    var b := s.ring[0];
    hide Written, WriteFate;
    if WriteFate(s.writer, env) == Accepted {
      var grown := WrittenAccepts(k.writer, s.writer, b, env);
    } else {
      WrittenRefuses(k.writer, s.writer, b, env);
    }
  }

  lemma HandedKeeps(k: Settings, s: Sys, env: FlushEnv)
    requires Inv(k, s) && FlushEnabled(s) && s.flusher.action.Pop? && s.ring != [] && |s.ring[0].events| > 0
    ensures Inv(k, FlushApply(k, s, env))
  {
    var s' := Handed(k, s, env.write);
    assert s' == FlushApply(k, s, env);
    assert Pops(s, s');
    hide WriterOk, NotesOk, Pops, ThreadsOk, RingOk, DrainOk, FlushOk, StopOk, EvictionsOk;
    HandedWriter(k, s, env.write);
    HandedNotes(k, s, env.write);
    hide Inv;
    PopsKeeps(k, s, s');
  }

  // ----- Closing a cycle -----

  /** The writer as the end of the cycle finds it: on exit the last metadata is written first. */
  function Prepared(s: Sys, env: FlushEnv): Writer
    requires s.flusher.InFlush?
  {
    if s.flusher.tick.exit
    then MetadataIfNeeded(if env.entries == [] then s.writer else Updated(s.writer, env.entries), env.meta).writer
    else s.writer
  }

  /** The writer after the cycle. */
  function ClosedWriter(k: Settings, s: Sys, env: FlushEnv): Writer
    requires s.flusher.InFlush?
  {
    if s.flusher.tick.exit then Finalized(k.writer, Prepared(s, env), env.sealMeta, env.io).writer
    else if s.flusher.tick.doDrain then AfterDrain(k.writer, s.writer, env.now, env.rotate).writer
    else s.writer
  }

  /** The segments hold the same batches and the same offers were made. */
  predicate SameContents(w: Writer, w': Writer) {
    && w'.log == w.log && w'.active.Some? == w.active.Some? && ActiveData(w') == ActiveData(w)
    && w'.offers == w.offers && w'.droppedEvents == w.droppedEvents
  }

  lemma PreparedSame(s: Sys, env: FlushEnv)
    requires s.flusher.InFlush?
    ensures SameContents(s.writer, Prepared(s, env))
  {
    MetadataKeepsData(if env.entries == [] then s.writer else Updated(s.writer, env.entries), env.meta);
  }

  lemma ClosedSeals(k: Settings, s: Sys, env: FlushEnv)
    requires s.flusher.InFlush?
    ensures var w, w' := Prepared(s, env), ClosedWriter(k, s, env);
      && (SameContents(w, w') || Seals(w, w', Drained))
      && (Seals(w, w', Drained) ==> DrainedTick(s.flusher.tick) || SameContents(w, w'))
      && (s.flusher.tick.exit ==> w'.active.None?)
  {
    var w := Prepared(s, env);
    if s.flusher.tick.exit {
      if w.active.Some? {
        FinalizedSeals(k.writer, w, env.sealMeta, env.io);
      }
    } else if s.flusher.tick.doDrain && w.active.Some? {
      RotatedSeals(k.writer, w, Drained, env.rotate);
    }
  }

  /** What closing a cycle changes. */
  ghost predicate Closes(k: Settings, s: Sys, s': Sys, env: FlushEnv) {
    && s.flusher.InFlush? && s.flusher.action.Close?
    && s'.threads == s.threads && s'.handles == s.handles && s'.pushed == s.pushed
    && s'.ring == s.ring && s'.removed == s.removed && s'.writeFailed == s.writeFailed
    && s'.marks == s.marks && s'.drainEpoch == s.drainEpoch && s'.missed == s.missed
    && s'.stop == s.stop && s'.stopMark == s.stopMark && s'.taken == s.taken && s'.dropped == s.dropped
    && s'.flusher == (if s.flusher.tick.exit then Finished(s.flusher.action.emptied) else Waiting)
    && s'.writer == ClosedWriter(k, s, env)
    && s'.notes == WriterMoved(s, ClosedWriter(k, s, env)).notes
  }

  lemma CloseShape(k: Settings, s: Sys, env: FlushEnv)
    requires FlushEnabled(s) && s.flusher.action.Close? && k.capacity > 0
    ensures Closes(k, s, FlushApply(k, s, env), env)
  {
    hide Finalized, MetadataIfNeeded, AfterDrain, Updated;
  }

  lemma ClosesThreads(k: Settings, s: Sys, s': Sys, env: FlushEnv)
    requires ThreadsOk(s) && Closes(k, s, s', env)
    ensures ThreadsOk(s')
  {
    hide ClosedWriter;
    assert forall e, t :: Mark(s', e, t) == Mark(s, e, t);
    forall t | 0 <= t < |s'.threads|
      ensures ThreadOk(s', t)
    {
      assert ThreadOk(s, t);
    }
  }

  /** On exit everything that had returned before the stop has left the ring; that is what the shutdown waits for. */
  lemma ClosesStop(k: Settings, s: Sys, s': Sys, env: FlushEnv)
    requires ThreadsOk(s) && FlushOk(s) && StopOk(s) && Closes(k, s, s', env)
    ensures StopOk(s')
  {
    hide ClosedWriter;
    assert forall e, t :: Mark(s', e, t) == Mark(s, e, t);
    assert ThreadOk(s, FLUSH_THREAD);
    hide ThreadOk;
  }

  lemma ClosesRest(k: Settings, s: Sys, s': Sys, env: FlushEnv)
    requires RingOk(k, s) && FlushOk(s) && EvictionsOk(s) && Closes(k, s, s', env)
    ensures RingOk(k, s') && FlushOk(s') && EvictionsOk(s') && DrainOk(s')
  {
    hide ClosedWriter;
  }

  /** Moving the writer from `w` to `w'` keeps its batches and offers accounted for. */
  lemma SameConserves(w: Writer, w': Writer)
    requires Conserved(w) && DropsCounted(w)
    requires SameContents(w, w') || Seals(w, w', Drained)
    ensures Conserved(w') && DropsCounted(w') && w'.offers == w.offers
  {
    if !SameContents(w, w') {
      SealConserves(w, w', Drained);
    }
  }

  lemma ClosesWriter(k: Settings, s: Sys, s': Sys, env: FlushEnv)
    requires WriterOk(s) && FlushOk(s) && Closes(k, s, s', env)
    ensures WriterOk(s')
  {
    PreparedSame(s, env);
    ClosedSeals(k, s, env);
    hide ClosedWriter, Prepared, SameContents, Seals;
    SameConserves(s.writer, Prepared(s, env));
    SameConserves(Prepared(s, env), s'.writer);
  }

  lemma ClosesNotes(k: Settings, s: Sys, s': Sys, env: FlushEnv)
    requires NotesOk(s) && Closes(k, s, s', env)
    ensures NotesOk(s')
  {
    PreparedSame(s, env);
    ClosedSeals(k, s, env);
    hide ClosedWriter, Prepared;
  }

  lemma CloseKeeps(k: Settings, s: Sys, env: FlushEnv)
    requires Inv(k, s) && FlushEnabled(s) && s.flusher.action.Close?
    ensures Inv(k, FlushApply(k, s, env))
  {
    var s' := FlushApply(k, s, env);
    PartsOf(k, s);
    hide *;
    CloseShape(k, s, env);
    ClosesThreads(k, s, s', env);
    ClosesStop(k, s, s', env);
    ClosesRest(k, s, s', env);
    ClosesWriter(k, s, s', env);
    ClosesNotes(k, s, s', env);
    FromParts(k, s');
  }

  // ----- Every step of the flush loop -----

  lemma FlushActionKeeps(k: Settings, s: Sys, env: FlushEnv)
    requires Inv(k, s) && FlushEnabled(s)
    ensures Inv(k, FlushApply(k, s, env))
  {
    var self := FlushTo(FlushBuffer(k, s, FLUSH_THREAD), CountSelf(Full(k, s)));
    assert s.flusher.action.DrainSelf? && s.flusher.tick.drainSelf && s.threads[FLUSH_THREAD].events != [] ==>
      FlushApply(k, s, env) == self;
    hide Inv, FlushApply, FlushBuffer, FlushTo, Full;
    if s.flusher.action.Pop? {
      if s.ring == [] {
        PopEmptyKeeps(k, s, env);
      } else if |s.ring[0].events| == 0 {
        PopEmptyBatchKeeps(k, s, env);
      } else {
        HandedKeeps(k, s, env);
      }
    } else if s.flusher.action.Close? {
      CloseKeeps(k, s, env);
    } else if Plain(s) {
      PlainKeeps(k, s, env);
    } else {
      SelfDrainKeeps(k, s);
    }
  }
}
