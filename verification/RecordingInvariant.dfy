/** What holds in every reachable state of the recording pipeline. */
module RecordingInvariant {
  import opened Wrappers
  import opened Collector
  import opened SegmentSpec
  import opened SegmentProofs
  import opened RecordingProtocol

  // ----- Threads -----

  /** Outside the stretch from encoding to returning, every recorded event's call has returned. */
  predicate Settled(pc: ThreadPc) {
    !pc.Encoded? && !pc.Loaded? && !pc.Pushed? && !pc.Stamping? && !pc.Unlocking? && !pc.Registering?
  }

  /** Between emptying its buffer and encoding again, or once gone. */
  predicate Emptied(pc: ThreadPc) {
    pc.Pushed? || pc.Stamping? || pc.DropPushed? || pc.Gone?
  }

  predicate InFirstCall(pc: ThreadPc) {
    OwnerHolds(pc) || pc.Registering?
  }

  /** A thread's events are, in order, those it flushed and then those in its buffer. */
  ghost predicate KeepsEvents(s: Sys, t: nat)
    requires t < |s.threads|
  {
    OfThread(s.pushed, t) + s.threads[t].events == FirstEvents(t, s.threads[t].recorded)
  }

  /** Whatever a thread's own flush epoch says was flushed, was; no later epoch is claimed than the current one. */
  ghost predicate EpochSound(s: Sys, t: nat)
    requires t < |s.threads|
  {
    var th := s.threads[t];
    && th.flushEpoch <= s.drainEpoch
    && Mark(s, th.flushEpoch, t) <= Flushed(th)
    && (th.pc.Loaded? || th.pc.Pushed? || th.pc.Stamping? ==> th.flushEpoch <= th.pc.current <= s.drainEpoch)
    && (forall e :: 0 <= e < |s.marks| ==> Mark(s, e, t) <= th.returned)
  }

  /** A thread with a returned event has its handle registered while its buffer is alive. */
  ghost predicate Registered(s: Sys, t: nat)
    requires t < |s.threads|
  {
    var th := s.threads[t];
    && (th.first ==> th.hasCollector && th.returned == 0 && InFirstCall(th.pc))
    && (th.pc == Registering ==> th.first && t != FLUSH_THREAD)
    && (!th.hasCollector ==> th.recorded == 0 && !OwnerHolds(th.pc) && th.pc != Registering)
    && (t != FLUSH_THREAD && th.hasCollector && !th.first && Strong(th) ==> t in s.handles)
  }

  ghost predicate ThreadOk(s: Sys, t: nat)
    requires t < |s.threads|
  {
    var th := s.threads[t];
    && KeepsEvents(s, t) && EpochSound(s, t) && Registered(s, t)
    && th.returned <= th.recorded
    && (Settled(th.pc) ==> th.returned == th.recorded)
    && (Emptied(th.pc) ==> th.events == [])
    && (th.pc == HandedOver ==> DrainHoldsArc(s, t))
  }

  ghost predicate ThreadsOk(s: Sys) {
    && |s.threads| > 0 && |s.marks| == s.drainEpoch + 1
    && (forall e :: 0 <= e < |s.marks| ==> |s.marks[e]| <= |s.threads|)
    && (forall i :: 0 <= i < |s.handles| ==> 0 < s.handles[i] < |s.threads|)
    && (forall t :: 0 <= t < |s.threads| ==> ThreadOk(s, t))
  }

  // ----- The ring -----

  /** Every batch ever pushed has left the ring or is in it, in order. */
  ghost predicate RingOk(k: Settings, s: Sys) {
    && s.pushed == Batches(s.removed) + s.ring
    && |s.ring| <= k.capacity
    && OwnEvents(s.pushed)
    && (forall i :: 0 <= i < |s.pushed| ==> s.pushed[i].thread < |s.threads|)
  }

  // ----- The drain -----

  /** Everything `t` had returned before the current epoch began has left its buffer. */
  predicate Cleared(s: Sys, t: nat)
    requires t < |s.threads|
  {
    Mark(s, s.drainEpoch, t) <= Flushed(s.threads[t])
  }

  ghost predicate DrainOk(s: Sys) {
    s.flusher.InDrain? ==>
      var d := s.flusher.drain;
      && d.epoch == s.drainEpoch && d.at <= |d.handles|
      && (!s.flusher.step.Check? ==> d.at < |d.handles|)
      && (forall i :: 0 <= i < |d.handles| ==> 0 < d.handles[i] < |s.threads|)
      && (forall t :: 0 < t < |s.threads| && Mark(s, s.drainEpoch, t) > 0 && Strong(s.threads[t]) ==> t in d.handles)
      && (forall i :: 0 <= i < d.at ==> Strong(s.threads[d.handles[i]]) ==> Cleared(s, d.handles[i]))
      && (!s.flusher.step.Check? && !s.flusher.step.Upgrade? ==> Strong(s.threads[d.handles[d.at]]))
      && (s.flusher.step.Flush? || s.flusher.step.Count? || s.flusher.step.Stamp? || s.flusher.step.Release? ==>
            !OwnerHolds(s.threads[d.handles[d.at]].pc))
      && (s.flusher.step.Count? || s.flusher.step.Stamp? || s.flusher.step.Release? ==>
            s.threads[d.handles[d.at]].events == [])
  }

  // ----- The flush cycle -----

  predicate DrainedTick(tick: Tick) {
    tick.exit || tick.doDrain
  }

  /** The flush thread's own buffer has had its turn in this cycle. */
  predicate PastSelfDrain(action: FlushStep) {
    !action.Gate? && !action.Sources? && !action.DrainSelf?
  }

  /** What `t` had returned before the current epoch began has left the ring. */
  predicate HandedOut(s: Sys, t: nat) {
    Mark(s, s.drainEpoch, t) <= |OfThread(Batches(s.removed), t)|
  }

  ghost predicate FlushOk(s: Sys) {
    && (!(s.flusher.InFlush? && s.flusher.action.Sources?) ==> |s.threads| > 0 && s.threads[FLUSH_THREAD].pc == Idle)
    && ((s.flusher.Snapshotting? || s.flusher.InDrain? || s.flusher.InFlush?) && s.flusher.tick.exit ==> s.flusher.tick.drainSelf)
    && ((s.flusher.Snapshotting? || s.flusher.InDrain?) ==> DrainedTick(s.flusher.tick))
    && (s.flusher.InFlush? && DrainedTick(s.flusher.tick) ==>
          forall t :: 0 < t < |s.threads| && t !in s.missed ==> Cleared(s, t))
    && (s.flusher.InFlush? && s.flusher.tick.drainSelf && PastSelfDrain(s.flusher.action) ==>
          |s.threads| > 0 && s.threads[FLUSH_THREAD].events == [])
    && (s.flusher.InFlush? && s.flusher.action.DisableOnError? ==> s.writeFailed)
    && (s.flusher.InFlush? && s.flusher.action.Close? && !s.flusher.action.emptied ==> s.writeFailed)
    && (s.flusher.InFlush? && s.flusher.action == Close(true) ==>
          && |s.threads| > 0 && Flushed(s.threads[FLUSH_THREAD]) <= |OfThread(Batches(s.removed), FLUSH_THREAD)|
          && (DrainedTick(s.flusher.tick) ==> forall t :: 0 < t < |s.threads| && t !in s.missed ==> HandedOut(s, t)))
  }

  // ----- The writer -----

  function NonEmpty(batches: seq<Batch>): seq<Batch> {
    if |batches| == 0 then []
    else
      var last := batches[|batches| - 1];
      NonEmpty(batches[..|batches| - 1]) + (if |last.events| > 0 then [last] else [])
  }

  /** The non-empty batches handed to the writer among the first `cut` removals. */
  function HandedTo(removed: seq<Removal>, cut: nat): seq<Batch>
    requires cut <= |removed|
  {
    NonEmpty(WithFate(removed[..cut], Popped))
  }

  function OfferedBatches(offers: seq<Offer>): (batches: seq<Batch>)
    ensures |batches| == |offers| && forall i :: 0 <= i < |offers| ==> batches[i] == offers[i].batch
  {
    seq(|offers|, i requires 0 <= i < |offers| => offers[i].batch)
  }

  /** The writer was offered exactly the non-empty batches that were popped, in order, and kept them. */
  ghost predicate WriterOk(s: Sys) {
    && Conserved(s.writer) && DropsCounted(s.writer)
    && OfferedBatches(s.writer.offers) == HandedTo(s.removed, |s.removed|)
    && (!s.writeFailed ==> OffersWith(s.writer.offers, Failed) == [])
    && (s.flusher.Finished? ==> s.writer.active.None?)
    && (s.flusher == Finished(false) ==> s.writeFailed)
  }

  /** Every seal has its note. */
  ghost predicate NotesOk(s: Sys) {
    |s.notes| == |s.writer.log|
  }

  // ----- Shutdown -----

  predicate Stopping(s: Sys) {
    !s.stop.Running? && !s.stop.SendersGone?
  }

  ghost predicate StopOk(s: Sys) {
    && |s.stopMark| <= |s.threads|
    && (s.stop.StopDraining? || s.stop.StopCounting? || s.stop.StopSending? || s.stop.StopSent? ==>
          0 < s.stop.caller < |s.threads| && s.threads[s.stop.caller].pc == Idle)
    && (Stopping(s) ==> forall t :: 0 <= t < |s.stopMark| ==> s.stopMark[t] <= s.threads[t].returned)
    && (s.stop.StopDraining? || s.stop.StopCounting? || s.stop.StopSending? || s.stop.Running? ==>
          !s.flusher.Finished? && s.flusher != Deciding(true)
          && ((s.flusher.Snapshotting? || s.flusher.InDrain? || s.flusher.InFlush?) ==> !s.flusher.tick.exit))
    && (s.stop.StopDone? ==> s.flusher.Finished?)
    && (s.stop.StopSent? && (s.flusher.Snapshotting? || s.flusher.InDrain? || s.flusher.InFlush?) && s.flusher.tick.exit ==>
          forall t :: 0 < t < |s.stopMark| ==> s.stopMark[t] <= Mark(s, s.drainEpoch, t))
    && ((s.stop.StopSent? || s.stop.StopDone?) && s.flusher.Finished? ==>
          forall t :: 0 <= t < |s.stopMark| && t !in s.missed ==> s.stopMark[t] <= Flushed(s.threads[t]))
    && ((s.stop.StopSent? || s.stop.StopDone?) && s.flusher == Finished(true) ==>
          forall t :: 0 <= t < |s.stopMark| && t !in s.missed ==> s.stopMark[t] <= |OfThread(Batches(s.removed), t)|)
  }

  // ----- Evictions -----

  function Flag(evicted: bool): nat {
    if evicted then 1 else 0
  }

  function ThreadFlag(th: Thread): nat {
    match th.pc
    case Pushed(_, evicted) => Flag(evicted)
    case DropPushed(evicted) => Flag(evicted)
    case _ => 0
  }

  function ThreadFlags(threads: seq<Thread>): nat {
    if |threads| == 0 then 0 else ThreadFlags(threads[..|threads| - 1]) + ThreadFlag(threads[|threads| - 1])
  }

  /** Evictions that happened but are not counted yet. */
  function Uncounted(s: Sys): nat {
    ThreadFlags(s.threads)
    + (if s.flusher.InDrain? && s.flusher.step.Count? then Flag(s.flusher.step.evicted) else 0)
    + (if s.flusher.InFlush? && s.flusher.action.CountSelf? then Flag(s.flusher.action.evicted) else 0)
    + (if s.stop.StopCounting? then Flag(s.stop.evicted) else 0)
  }

  /** Dropped counts taken, pending and about to be added equal the evicted batches. */
  ghost predicate EvictionsOk(s: Sys) {
    s.taken + s.dropped + Uncounted(s) == |WithFate(s.removed, Evicted)|
  }

  ghost predicate Inv(k: Settings, s: Sys) {
    && k.capacity > 0
    && ThreadsOk(s) && RingOk(k, s) && DrainOk(s) && FlushOk(s)
    && WriterOk(s) && NotesOk(s) && StopOk(s) && EvictionsOk(s)
  }

  /** The invariant's parts, for proofs that keep the parts folded. */
  lemma PartsOf(k: Settings, s: Sys)
    requires Inv(k, s)
    ensures k.capacity > 0
    ensures ThreadsOk(s) && RingOk(k, s) && DrainOk(s) && FlushOk(s)
    ensures WriterOk(s) && NotesOk(s) && StopOk(s) && EvictionsOk(s)
  {
    hide ThreadsOk, RingOk, DrainOk, FlushOk, WriterOk, NotesOk, StopOk, EvictionsOk;
  }

  lemma FromParts(k: Settings, s: Sys)
    requires k.capacity > 0
    requires ThreadsOk(s) && RingOk(k, s) && DrainOk(s) && FlushOk(s)
    requires WriterOk(s) && NotesOk(s) && StopOk(s) && EvictionsOk(s)
    ensures Inv(k, s)
  {
    hide ThreadsOk, RingOk, DrainOk, FlushOk, WriterOk, NotesOk, StopOk, EvictionsOk;
  }
}
