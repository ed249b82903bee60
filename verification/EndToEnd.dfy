/**
 The recording protocol and the segment writer together: what a `segment.complete` stamp and a
 finished shutdown promise about recorded events.
 */
module EndToEnd {
  import opened Wrappers
  import opened Collector
  import opened SegmentMetadata
  import opened SegmentSpec
  import opened SegmentProofs
  import opened SegmentInvariants
  import opened RecordingProtocol
  import opened RecordingInvariant
  import opened RecordingFrames
  import opened RecordingFlush
  import opened RecordingSeals
  import opened RecordingRuns
  import opened RecordingTheorems

  // ----- The writer along a run -----

  /** Stamps, indices, byte budget and metadata records are in order. */
  ghost predicate Orderly(k: Settings, w: Writer) {
    Chained(w) && InBudget(k.writer, w) && SelfDescribing(w)
  }

  lemma CallOrderly(k: Settings, w: Writer, call: Call)
    requires Orderly(k, w)
    ensures Orderly(k, After(k.writer, w, call).writer)
  {
    hide Chained, InBudget, SelfDescribing, After;
    CallChained(k.writer, w, call);
    CallInBudget(k.writer, w, call);
    CallDescribes(k.writer, w, call);
  }

  /** One step of the flush loop uses the writer through its operations only. */
  lemma LoopWriter(k: Settings, s: Sys, env: FlushEnv)
    requires k.capacity > 0 && FlushEnabled(s)
    ensures var w' := FlushApply(k, s, env).writer;
      || w' == s.writer
      || (s.ring != [] && w' == Written(k.writer, s.writer, s.ring[0], env.write).writer)
      || w' == AfterDrain(k.writer, s.writer, env.now, env.rotate).writer
      || w' == Finalized(k.writer, Prepared(s, env), env.sealMeta, env.io).writer
  {
    hide Finalized, MetadataIfNeeded, AfterDrain, Updated, Written, ForcePushed, Full;
  }

  lemma PreparedOrderly(k: Settings, s: Sys, env: FlushEnv)
    requires Orderly(k, s.writer) && s.flusher.InFlush?
    ensures Orderly(k, Prepared(s, env))
  {
    hide Orderly;
    var w := Updated(s.writer, env.entries);
    CallOrderly(k, s.writer, UpdateCall(env.entries));
    CallOrderly(k, s.writer, MetadataCall(env.meta));
    CallOrderly(k, w, MetadataCall(env.meta));
  }

  lemma FlushOrderly(k: Settings, s: Sys, env: FlushEnv)
    requires k.capacity > 0 && FlushEnabled(s) && Orderly(k, s.writer)
    ensures Orderly(k, FlushApply(k, s, env).writer)
  {
    hide Orderly, FlushApply, Written, AfterDrain, Finalized, Prepared, MetadataIfNeeded, Updated;
    LoopWriter(k, s, env);
    PreparedOrderly(k, s, env);
    CallOrderly(k, s.writer, DrainedCall(env.now, env.rotate));
    CallOrderly(k, Prepared(s, env), FinalizeCall(env.sealMeta, env.io));
    if s.ring != [] {
      CallOrderly(k, s.writer, WriteCall(s.ring[0], env.write));
    }
  }

  lemma StepOrderly(k: Settings, s: Sys, a: Action)
    requires k.capacity > 0 && Allowed(s, a) && Orderly(k, s.writer)
    ensures Orderly(k, Next(k, s, a).writer)
  {
    hide *;
    NextCases(k, s, a);
    if a.FlushNext? {
      FlushOrderly(k, s, a.env);
    } else if a.Decide? {
      DecidedOrderly(k, s, a.now, a.entries);
    } else {
      NotFlushing(s, a);
      NextSpares(k, s, a);
    }
  }

  lemma NotFlushing(s: Sys, a: Action)
    requires !a.FlushNext?
    ensures !UsesWriter(s, a)
  {
  }

  lemma DecidedOrderly(k: Settings, s: Sys, now: real, entries: seq<Entry>)
    requires s.flusher.Deciding? && Orderly(k, s.writer)
    ensures Orderly(k, Decided(s, now, entries).writer)
  {
    hide Orderly, Updated, ShouldDrain;
    CallOrderly(k, s.writer, UpdateCall(entries));
  }

  lemma InitOrderly(k: Settings, s: Sys)
    requires Init(k, s)
    ensures Orderly(k, s.writer)
  {
    var found, first, metadata, now, open :|
      (!k.writer.isDisk ==> found == []) && s.writer == Created(k.writer, found, first, metadata, now, open);
    hide Created, Chained, InBudget, SelfDescribing;
    RunKeeps(k.writer, found, first, metadata, now, open, []);
  }

  lemma {:induction false} RunOrderly(k: Settings, states: seq<Sys>, actions: seq<Action>, j: nat)
    requires Run(k, states, actions) && j < |states|
    ensures Orderly(k, states[j].writer)
  {
    hide Orderly, Next, Allowed, Init;
    if j == 0 {
      InitOrderly(k, states[0]);
    } else {
      RunOrderly(k, states, actions, j - 1);
      StepOrderly(k, states[j - 1], actions[j - 1]);
    }
  }

  // ----- Counting an event among the removals -----

  /** The first removals are the first pushed batches, so a thread's events among them are its first events. */
  lemma PrefixEvents(k: Settings, s: Sys, cut: nat, t: nat)
    requires RingOk(k, s) && cut <= |s.removed| && t < |s.threads| && KeepsEvents(s, t)
    ensures var taken := Batches(s.removed[..cut]);
      OwnEvents(taken) && OfThread(taken, t) == FirstEvents(t, |OfThread(taken, t)|)
  {
    var taken := Batches(s.removed[..cut]);
    var rest := s.pushed[cut..];
    assert forall i :: 0 <= i < |taken| ==> taken[i] == s.pushed[i];
    assert s.pushed == taken + rest;
    OfThreadSplit(taken, rest, t);
    hide OfThread;
    var mine, others := OfThread(taken, t), OfThread(rest, t) + s.threads[t].events;
    assert mine + others == FirstEvents(t, s.threads[t].recorded);
    assert mine == (mine + others)[..|mine|];
  }

  lemma EventsKept(s: Sys, t: nat)
    requires ThreadsOk(s) && t < |s.threads|
    ensures KeepsEvents(s, t)
  {
    assert ThreadOk(s, t);
    hide KeepsEvents;
  }

  /** How often an event occurs among the first removals: once if its thread's events reach that far. */
  lemma PrefixOnce(k: Settings, s: Sys, cut: nat, e: Event)
    requires RingOk(k, s) && ThreadsOk(s) && cut <= |s.removed| && e.thread < |s.threads|
    ensures Occurrences(Batches(s.removed[..cut]), e)
         == if e.index < |OfThread(Batches(s.removed[..cut]), e.thread)| then 1 else 0
  {
    hide *;
    EventsKept(s, e.thread);
    PrefixEvents(k, s, cut, e.thread);
    OccurrencesOfThread(Batches(s.removed[..cut]), e);
    FirstEventsOnce(e.thread, |OfThread(Batches(s.removed[..cut]), e.thread)|, e.index);
  }

  lemma FateGrows(removed: seq<Removal>, r: Removal, fate: Fate, e: Event)
    ensures Occurrences(WithFate(removed, fate), e) <= Occurrences(WithFate(removed + [r], fate), e)
  {
    WithFateAppend(removed, r, fate);
    OccurrencesSplit(WithFate(removed, fate), if r.fate == fate then [r.batch] else [], e);
  }

  /** Later prefixes hold what earlier ones held. */
  lemma {:induction false} PrefixGrows(removed: seq<Removal>, cut: nat, cut': nat, fate: Fate, e: Event)
    requires cut <= cut' <= |removed|
    ensures Occurrences(WithFate(removed[..cut], fate), e) <= Occurrences(WithFate(removed[..cut'], fate), e)
    decreases cut'
  {
    if cut < cut' {
      hide *;
      PrefixGrows(removed, cut, cut' - 1, fate, e);
      assert removed[..cut'] == removed[..cut' - 1] + [removed[cut' - 1]];
      FateGrows(removed[..cut' - 1], removed[cut' - 1], fate, e);
    }
  }

  // ----- Where an event can be -----

  /** The event is still in a thread-local buffer. */
  predicate InBuffer(s: Sys, e: Event) {
    InBuffers(s.threads, e) > 0
  }

  /** The event's batch is still in the ring. */
  predicate InRing(s: Sys, e: Event) {
    e in AllEvents(s.ring)
  }

  /** The event's batch was offered to the writer, with the given fate. */
  predicate OfferedAs(s: Sys, fate: OfferFate, e: Event) {
    e in AllEvents(OffersWith(s.writer.offers, fate))
  }

  /**
   A recorded event is in exactly one of: a buffer, the ring, an evicted batch, a batch the writer
   accepted, one it dropped because it had finished, one whose write failed.
   */
  lemma OneFate(k: Settings, states: seq<Sys>, actions: seq<Action>, i: nat, e: Event)
    requires Run(k, states, actions) && i < |states|
    ensures var s := states[i];
      InBuffers(s.threads, e) + Occurrences(s.ring, e) + Occurrences(WithFate(s.removed, Evicted), e)
      + Occurrences(OffersWith(s.writer.offers, Accepted), e) + Occurrences(OffersWith(s.writer.offers, Dropped), e)
      + Occurrences(OffersWith(s.writer.offers, Failed), e)
      == if Recorded(s, e) then 1 else 0
  {
    var s := states[i];
    ExactlyOnce(k, states, actions, i, e);
    RunInv(k, states, actions, i);
    assert OfferedBatches(s.writer.offers) == HandedTo(s.removed, |s.removed|);
    OffersByFate(s.writer.offers, e);
  }

  /** A batch whose write failed is in no segment of any later state, nor anywhere else. */
  lemma FailedNowhere(k: Settings, states: seq<Sys>, actions: seq<Action>, i: nat, j: nat, o: nat, e: Event)
    requires Run(k, states, actions) && i <= j < |states|
    requires o < |states[i].writer.offers| && states[i].writer.offers[o].fate == Failed
    requires e in states[i].writer.offers[o].batch.events
    ensures var s := states[j];
      && Occurrences(Contents(s.writer.log), e) == 0 && Occurrences(ActiveData(s.writer), e) == 0
      && InBuffers(s.threads, e) == 0 && !InRing(s, e) && Occurrences(WithFate(s.removed, Evicted), e) == 0
  {
    var s := states[j];
    assert InRing(s, e) ==> Occurrences(s.ring, e) > 0;
    assert OfferedAs(states[i], Failed, e) ==> Occurrences(OffersWith(states[i].writer.offers, Failed), e) > 0;
    hide *;
    OffersFind(states[i].writer.offers, o, e);
    OfferedIs(states[i], Failed, e);
    RunInv(k, states, actions, j);
    HeldIsAccepted(k, s, e);
    RunGrows(k, states, actions, i, j);
    OfferStays(states[i], s, Failed, e);
    OneFate(k, states, actions, j, e);
  }

  lemma OfferedIs(s: Sys, fate: OfferFate, e: Event)
    ensures OfferedAs(s, fate, e) <==> e in AllEvents(OffersWith(s.writer.offers, fate))
  {
  }

  lemma HeldIsAccepted(k: Settings, s: Sys, e: Event)
    requires Inv(k, s)
    ensures Occurrences(Contents(s.writer.log), e) + Occurrences(ActiveData(s.writer), e)
         == Occurrences(OffersWith(s.writer.offers, Accepted), e)
  {
    assert Conserved(s.writer);
    hide Inv, Occurrences;
    OccurrencesSplit(Contents(s.writer.log), ActiveData(s.writer), e);
  }

  // ----- What a completeness stamp promises -----

  /** The event's recording call had returned when the drain epoch was bumped to `epoch`. */
  ghost predicate ReturnedBefore(states: seq<Sys>, bump: nat, epoch: nat, e: Event) {
    && BumpedAt(states, bump, epoch)
    && e.thread < |states[bump].threads| && e.index < states[bump].threads[e.thread].returned
  }

  lemma StampKinds(w: Writer, n: nat)
    requires Chained(w) && n < |w.log| && w.log[n].stamp == Some(true)
    ensures w.log[n].kind == Drained && (n > 0 ==> w.log[n - 1].kind == Drained)
  {
  }

  lemma StampedDrained(k: Settings, states: seq<Sys>, actions: seq<Action>, j: nat, n: nat)
    requires Run(k, states, actions) && j < |states| && n < |states[j].writer.log|
    requires states[j].writer.log[n].stamp == Some(true)
    ensures states[j].writer.log[n].kind == Drained && (n > 0 ==> states[j].writer.log[n - 1].kind == Drained)
  {
    hide *;
    RunOrderly(k, states, actions, j);
    OrderlyChained(k, states[j].writer);
    StampKinds(states[j].writer, n);
  }

  lemma OrderlyChained(k: Settings, w: Writer)
    requires Orderly(k, w)
    ensures Chained(w)
  {
  }

  /** An epoch that a state has reached was bumped to before it. */
  lemma BumpBefore(k: Settings, states: seq<Sys>, actions: seq<Action>, bump: nat, c: nat)
    requires Run(k, states, actions) && c < |states| && BumpedAt(states, bump, states[c].drainEpoch)
    ensures bump < c
  {
    if c <= bump {
      RunInv(k, states, actions, c);
      RunInv(k, states, actions, bump);
      EpochCount(k, states[c]);
      EpochCount(k, states[bump]);
      RunAges(k, states, actions, c, bump);
      assert false;
    }
  }

  /** An event among those that left the ring is not in it any more. */
  lemma LeftRing(k: Settings, s: Sys, e: Event)
    requires RingOk(k, s) && ThreadsOk(s) && e.thread < |s.threads| && e.index < |OfThread(Batches(s.removed), e.thread)|
    ensures Occurrences(s.ring, e) == 0
  {
    var all := |s.removed|;
    assert s.removed[..all] == s.removed;
    hide *;
    PrefixOnce(k, s, all, e);
    PushedOnce(k, s, e);
    RingHolds(k, s, e);
  }

  /** An event that its thread has not flushed yet is not in the ring. */
  lemma NotYetInRing(k: Settings, s: Sys, e: Event)
    requires RingOk(k, s) && ThreadsOk(s) && e.thread < |s.threads| && e.index >= Flushed(s.threads[e.thread])
    ensures Occurrences(s.ring, e) == 0
  {
    EventsKept(s, e.thread);
    FlushedEvents(s, e.thread);
    hide *;
    RingOwn(k, s);
    OccurrencesOfThread(s.pushed, e);
    FirstEventsOnce(e.thread, |OfThread(s.pushed, e.thread)|, e.index);
    RingHolds(k, s, e);
  }

  lemma RingOwn(k: Settings, s: Sys)
    requires RingOk(k, s)
    ensures OwnEvents(s.pushed)
  {
  }

  lemma FlushedEvents(s: Sys, t: nat)
    requires t < |s.threads| && KeepsEvents(s, t)
    ensures OfThread(s.pushed, t) == FirstEvents(t, |OfThread(s.pushed, t)|) && |OfThread(s.pushed, t)| == Flushed(s.threads[t])
  {
    var mine, rest := OfThread(s.pushed, t), s.threads[t].events;
    assert mine == (mine + rest)[..|mine|] && |mine + rest| == s.threads[t].recorded;
  }

  /**
   The flush thread's own buffer is kept back from a drain's cycle: it has no turn in the cycle and
   has not been flushed since the bump. No drain touches it.
   */
  predicate HeldBack(s: Sys, t: nat) {
    t == FLUSH_THREAD < |s.threads| && s.flusher.InFlush? && !s.flusher.tick.drainSelf
    && s.threads[t].flushEpoch < s.drainEpoch
  }

  /** Threads that the drain did not miss and the loop did not hold back have flushed what is older than the drain. */
  lemma DrainedThread(k: Settings, s: Sys, t: nat)
    requires Inv(k, s) && ClosesDrain(s) && t < |s.threads| && t !in s.missed && !HeldBack(s, t)
    ensures Mark(s, s.drainEpoch, t) <= Flushed(s.threads[t])
  {
    assert ThreadOk(s, t);
    OwnBuffer(s, t);
    if t != FLUSH_THREAD {
      assert Cleared(s, t);
    }
  }

  /** Where an event older than the drain can be at the end of the drain's cycle, besides the writer and the evicted batches. */
  lemma DrainedEvent(k: Settings, s: Sys, e: Event)
    requires Inv(k, s) && ClosesDrain(s) && e.thread < |s.threads| && e.index < Mark(s, s.drainEpoch, e.thread)
    ensures Recorded(s, e)
    ensures InBuffer(s, e) ==> e.thread in s.missed || HeldBack(s, e.thread)
    ensures Occurrences(s.ring, e) > 0 ==> e.thread in s.missed || s.flusher.action == Close(false)
    ensures s.flusher.action == Close(false) ==> s.writeFailed
  {
    var t := e.thread;
    PartsOf(k, s);
    assert ThreadOk(s, t);
    assert s.flusher.action == Close(true) ==> if t == FLUSH_THREAD
      then Flushed(s.threads[t]) <= |OfThread(Batches(s.removed), t)| else t in s.missed || HandedOut(s, t);
    hide Inv, WriterOk, NotesOk, StopOk, EvictionsOk, DrainOk, FlushOk;
    if t !in s.missed && !HeldBack(s, t) {
      DrainedThread(k, s, t);
      hide HeldBack;
      FlushedNotBuffered(s, e);
    }
    if t !in s.missed && s.flusher.action == Close(true) {
      hide HeldBack;
      if e.index < |OfThread(Batches(s.removed), t)| {
        LeftRing(k, s, e);
      } else {
        NotYetInRing(k, s, e);
      }
    }
  }

  lemma RingHolds(k: Settings, s: Sys, e: Event)
    requires RingOk(k, s)
    ensures Occurrences(s.pushed, e) == Occurrences(Batches(s.removed), e) + Occurrences(s.ring, e)
  {
    OccurrencesSplit(Batches(s.removed), s.ring, e);
  }

  /** A flushed event is in no buffer. */
  lemma FlushedNotBuffered(s: Sys, e: Event)
    requires ThreadsOk(s) && e.thread < |s.threads| && e.index < Flushed(s.threads[e.thread])
    ensures Recorded(s, e) && InBuffers(s.threads, e) == 0
  {
    forall t: nat | t < |s.threads|
      ensures forall j :: 0 <= j < |s.threads[t].events| ==> s.threads[t].events[j].thread == t
    {
      assert ThreadOk(s, t);
      OwnBuffer(s, t);
    }
    BuffersOwn(s.threads, e);
    var th := s.threads[e.thread];
    assert ThreadOk(s, e.thread);
    forall i | 0 <= i < |th.events|
      ensures th.events[i] != e
    {
      BufferedIndex(s, e.thread, i);
    }
  }

  /** What `DrainedEvent` says of an event that had returned before the bump of a drained seal. */
  lemma EventAtSeal(k: Settings, states: seq<Sys>, actions: seq<Action>, c: nat, bump: nat, e: Event)
    requires Run(k, states, actions) && c < |states| && ClosesDrain(states[c])
    requires ReturnedBefore(states, bump, states[c].drainEpoch, e)
    ensures var s := states[c];
      && Recorded(s, e)
      && (InBuffer(s, e) ==> e.thread in s.missed || HeldBack(s, e.thread))
      && (Occurrences(s.ring, e) > 0 ==> e.thread in s.missed || s.flusher.action == Close(false))
      && (s.flusher.action == Close(false) ==> s.writeFailed)
  {
    assert BumpedAt(states, bump, states[c].drainEpoch);
    assert e.thread < |states[bump].threads| && e.index < states[bump].threads[e.thread].returned;
    hide *;
    BumpBefore(k, states, actions, bump, c);
    RunInv(k, states, actions, c);
    MarkMeans(k, states, actions, bump, states[c].drainEpoch, c, e.thread);
    RunSpawns(k, states, actions, bump, c);
    DrainedEvent(k, states[c], e);
  }

  lemma RunSpawns(k: Settings, states: seq<Sys>, actions: seq<Action>, i: nat, j: nat)
    requires Run(k, states, actions) && i <= j < |states|
    ensures |states[i].threads| <= |states[j].threads|
  {
    RunAges(k, states, actions, i, j);
  }

  lemma NoFailedOffers(k: Settings, s: Sys)
    requires Inv(k, s) && !s.writeFailed
    ensures OffersWith(s.writer.offers, Failed) == []
  {
  }

  /** What the note of a drained seal says, in terms of the state that was sealed in. */
  lemma NoteMeans(s: Sys, n: Note)
    requires n == NoteOf(s) && ClosesDrain(s)
    ensures n.epoch == s.drainEpoch && n.missed == s.missed && n.clean == !s.writeFailed
    ensures n.emptied <==> s.flusher.action == Close(true)
    ensures !n.emptied <==> s.flusher.action == Close(false)
  {
  }

  /**
   A segment stamped `segment.complete=true` and the segments before it, against the events whose
   recording calls had returned before the epoch bump of its own drain, on whatever thread. Such
   an event is in them, exactly once, or was evicted, exactly if at the seal it was in no buffer,
   not in the ring and in no batch whose write had failed. It can be in a buffer only if the drain
   met its thread between its exit and its buffer's drop, or if it is the flush thread's and the
   loop held that buffer back; in the ring only in the former case or if a failed write cut the
   drain's cycle short.
   */
  lemma CompleteSegment(k: Settings, states: seq<Sys>, actions: seq<Action>, c: nat, j: nat, n: nat, bump: nat, e: Event)
    requires Run(k, states, actions) && SealedAt(states, c, n) && c < j < |states|
    requires n < |states[j].writer.log| == |states[j].notes| && states[j].writer.log[n].stamp == Some(true)
    requires ReturnedBefore(states, bump, states[j].notes[n].epoch, e)
    ensures var s := states[c];
      Occurrences(Contents(states[j].writer.log[..n + 1]), e) + Occurrences(WithFate(s.removed, Evicted), e)
      == if InBuffer(s, e) || InRing(s, e) || OfferedAs(s, Failed, e) then 0 else 1
    ensures InBuffer(states[c], e) ==> e.thread in states[j].notes[n].missed || HeldBack(states[c], e.thread)
    ensures InRing(states[c], e) ==> e.thread in states[j].notes[n].missed || !states[j].notes[n].emptied
    ensures !states[j].notes[n].emptied || OfferedAs(states[c], Failed, e) ==> !states[j].notes[n].clean
  {
    var s := states[c];
    assert InBuffer(s, e) <==> InBuffers(s.threads, e) > 0;
    assert InRing(s, e) <==> Occurrences(s.ring, e) > 0;
    assert OfferedAs(s, Failed, e) <==> Occurrences(OffersWith(s.writer.offers, Failed), e) > 0;
    assert Occurrences([], e) == 0;
    hide *;
    StampedDrained(k, states, actions, j, n);
    DrainedSeal(k, states, actions, c, j, n);
    NoteMeans(s, states[j].notes[n]);
    EventAtSeal(k, states, actions, c, bump, e);
    OneFate(k, states, actions, c, e);
    if !s.writeFailed {
      RunInv(k, states, actions, c);
      NoFailedOffers(k, s);
    }
  }

  /** Exactly when no write had failed do the segments up to a drained seal hold everything the writer was handed. */
  lemma CleanExactly(k: Settings, states: seq<Sys>, actions: seq<Action>, c: nat, j: nat, n: nat)
    requires Run(k, states, actions) && SealedAt(states, c, n) && c < j < |states|
    requires n < |states[j].writer.log| == |states[j].notes| && states[j].writer.log[n].kind == Drained
    ensures states[j].notes[n].clean <==>
      Contents(states[j].writer.log[..n + 1]) == HandedTo(states[c].removed, |states[c].removed|)
  {
    var s := states[c];
    DrainedSeal(k, states, actions, c, j, n);
    RunInv(k, states, actions, c);
    RunBlamed(k, states, actions, c);
    assert OfferedBatches(s.writer.offers) == HandedTo(s.removed, |s.removed|);
    OfferCounts(s.writer.offers);
    if !s.writeFailed {
      AllAccepted(s.writer.offers);
    }
  }

  lemma {:induction false} OfferCounts(offers: seq<Offer>)
    ensures |OffersWith(offers, Accepted)| + |OffersWith(offers, Dropped)| + |OffersWith(offers, Failed)| == |offers|
  {
    if |offers| != 0 {
      OfferCounts(offers[..|offers| - 1]);
    }
  }

  lemma ContentsStep(log: seq<Sealed>, n: nat, e: Event)
    requires n < |log|
    ensures Occurrences(Contents(log[..n + 1]), e) == Occurrences(Contents(log[..n]), e) + Occurrences(DataOf(log[n].records), e)
  {
    assert log[..n + 1] == log[..n] + [log[n]];
    ContentsAppend(log[..n], log[n]);
    OccurrencesSplit(Contents(log[..n]), DataOf(log[n].records), e);
  }

  lemma SealOrder(k: Settings, states: seq<Sys>, actions: seq<Action>, c: nat, c': nat, n: nat)
    requires Run(k, states, actions) && SealedAt(states, c, n) && SealedAt(states, c', n + 1)
    ensures c < c'
  {
    if c' <= c {
      RunGrows(k, states, actions, c', c);
      assert false;
    }
  }

  /**
   A segment stamped `segment.complete=true`, against the events whose recording calls had returned
   before the epoch bump of the previous seal's drain, on whatever thread: it holds such an event
   exactly if that seal left it in a buffer or in the ring and the writer has accepted it since.
   When a seal leaves one there is as for `CompleteSegment`.
   */
  lemma NothingOlder(
      k: Settings, states: seq<Sys>, actions: seq<Action>, c: nat, c': nat, j: nat, n: nat, bump: nat, e: Event)
    requires Run(k, states, actions) && SealedAt(states, c, n) && SealedAt(states, c', n + 1) && c' < j < |states|
    requires n + 1 < |states[j].writer.log| == |states[j].notes| && states[j].writer.log[n + 1].stamp == Some(true)
    requires ReturnedBefore(states, bump, states[j].notes[n].epoch, e)
    ensures Occurrences(DataOf(states[j].writer.log[n + 1].records), e)
         == if (InBuffer(states[c], e) || InRing(states[c], e)) && OfferedAs(states[c'], Accepted, e) then 1 else 0
    ensures InBuffer(states[c], e) ==> e.thread in states[j].notes[n].missed || HeldBack(states[c], e.thread)
    ensures InRing(states[c], e) ==> e.thread in states[j].notes[n].missed || !states[j].notes[n].emptied
  {
    hide *;
    SealOrder(k, states, actions, c, c', n);
    StampedDrained(k, states, actions, j, n + 1);
    DrainedSeal(k, states, actions, c, j, n);
    NoteMeans(states[c], states[j].notes[n]);
    EventAtSeal(k, states, actions, c, bump, e);
    BetweenSeals(k, states, actions, c, c', j, n, e);
    RingCounts(states[c], e);
  }

  lemma RingCounts(s: Sys, e: Event)
    ensures InRing(s, e) <==> Occurrences(s.ring, e) > 0
  {
  }

  /** What two drained seals in a row say of the segment between them. */
  lemma SegmentBetween(k: Settings, states: seq<Sys>, actions: seq<Action>, c: nat, c': nat, j: nat, n: nat, e: Event)
    requires Run(k, states, actions) && SealedAt(states, c, n) && SealedAt(states, c', n + 1) && c' < j < |states|
    requires n + 1 < |states[j].writer.log|
    requires states[j].writer.log[n].kind == Drained && states[j].writer.log[n + 1].kind == Drained
    ensures Occurrences(OffersWith(states[c'].writer.offers, Accepted), e)
         == Occurrences(OffersWith(states[c].writer.offers, Accepted), e) + Occurrences(DataOf(states[j].writer.log[n + 1].records), e)
    ensures OffersWith(states[c].writer.offers, Dropped) == [] && Grows(states[c], states[c'])
  {
    hide *;
    SealOrder(k, states, actions, c, c', n);
    DrainedSeal(k, states, actions, c, j, n);
    DrainedSeal(k, states, actions, c', j, n + 1);
    RunGrows(k, states, actions, c, c');
    assert states[j].writer.log[..n + 1 + 1] == states[j].writer.log[..n + 2];
    ContentsStep(states[j].writer.log, n + 1, e);
  }

  /** The segment between two drained seals holds a recorded event exactly if the first left it behind and the writer took it since. */
  lemma BetweenSeals(k: Settings, states: seq<Sys>, actions: seq<Action>, c: nat, c': nat, j: nat, n: nat, e: Event)
    requires Run(k, states, actions) && SealedAt(states, c, n) && SealedAt(states, c', n + 1) && c' < j < |states|
    requires n + 1 < |states[j].writer.log| && Recorded(states[c], e)
    requires states[j].writer.log[n].kind == Drained && states[j].writer.log[n + 1].kind == Drained
    ensures Occurrences(DataOf(states[j].writer.log[n + 1].records), e)
         == if (InBuffer(states[c], e) || InRing(states[c], e)) && OfferedAs(states[c'], Accepted, e) then 1 else 0
  {
    var s, s' := states[c], states[c'];
    assert c < |states| && c' < |states|;
    assert InBuffer(s, e) <==> InBuffers(s.threads, e) > 0;
    assert OfferedAs(s', Accepted, e) <==> Occurrences(OffersWith(s'.writer.offers, Accepted), e) > 0;
    assert Occurrences([], e) == 0;
    hide *;
    RingCounts(s, e);
    SegmentBetween(k, states, actions, c, c', j, n, e);
    OneFate(k, states, actions, c, e);
    OneFate(k, states, actions, c', e);
    OfferStays(s, s', Accepted, e);
    OfferStays(s, s', Failed, e);
    EvictedStays(s, s', e);
  }

  lemma EvictedStays(s: Sys, s': Sys, e: Event)
    requires Grows(s, s')
    ensures Occurrences(WithFate(s.removed, Evicted), e) <= Occurrences(WithFate(s'.removed, Evicted), e)
  {
    assert s'.removed[..|s.removed|] == s.removed && s'.removed[..|s'.removed|] == s'.removed;
    PrefixGrows(s'.removed, |s.removed|, |s'.removed|, Evicted, e);
  }

  /** A thread that is still alive was missed by no drain. */
  lemma LiveNotMissed(k: Settings, states: seq<Sys>, actions: seq<Action>, j: nat, t: nat)
    requires Run(k, states, actions) && j < |states|
    requires t < |states[j].threads| && Strong(states[j].threads[t])
    ensures t !in states[j].missed && forall n :: 0 <= n < |states[j].notes| ==> t !in states[j].notes[n].missed
  {
    RunMissed(k, states, actions, j);
  }

  // ----- What a finished shutdown promises -----

  lemma {:induction false} EventTotal(batches: seq<Batch>)
    ensures |AllEvents(batches)| == EventCount(batches)
  {
    if |batches| != 0 {
      EventTotal(batches[..|batches| - 1]);
    }
  }

  /** The writer is finished: the sealed segments hold what it accepted, and only refused events were dropped. */
  lemma FinishedWriter(s: Sys, e: Event)
    requires WriterOk(s) && s.flusher.Finished?
    ensures Contents(s.writer.log) == OffersWith(s.writer.offers, Accepted)
    ensures !s.writeFailed ==> OffersWith(s.writer.offers, Failed) == []
    ensures OfferedAs(s, Dropped, e) ==> s.writer.droppedEvents > 0
  {
    EventTotal(OffersWith(s.writer.offers, Dropped));
  }

  /** What the shutdown waited for has been flushed, and has left the ring if the last cycle emptied that. */
  lemma StopCovers(s: Sys, t: nat)
    requires StopOk(s) && WriterOk(s) && s.stop.StopDone? && t < |s.stopMark|
    ensures s.flusher.Finished? && t < |s.threads| && s.stopMark[t] <= s.threads[t].returned
    ensures t !in s.missed ==> s.stopMark[t] <= Flushed(s.threads[t])
    ensures t !in s.missed && s.flusher.emptied ==> s.stopMark[t] <= |OfThread(Batches(s.removed), t)|
    ensures !s.flusher.emptied ==> s.writeFailed
  {
  }

  lemma StopMarkStays(k: Settings, states: seq<Sys>, actions: seq<Action>, i: nat, j: nat)
    requires Run(k, states, actions) && i < j < |states| && i < |actions| && actions[i].BeginStop?
    ensures states[j].stopMark == Returned(states[i].threads)
  {
    StopBegins(k, states, actions, i);
    RunAges(k, states, actions, i + 1, j);
  }

  /** Where an event that the shutdown waited for can be, besides the writer and the evicted batches. */
  lemma StoppedEvent(k: Settings, s: Sys, e: Event)
    requires Inv(k, s) && s.stop.StopDone? && e.thread < |s.stopMark| && e.index < s.stopMark[e.thread]
    ensures s.flusher.Finished? && Recorded(s, e)
    ensures InBuffer(s, e) ==> e.thread in s.missed
    ensures Occurrences(s.ring, e) > 0 ==> e.thread in s.missed || !s.flusher.emptied
    ensures !s.flusher.emptied ==> s.writeFailed
  {
    var t := e.thread;
    PartsOf(k, s);
    StopCovers(s, t);
    assert ThreadOk(s, t);
    hide Inv, WriterOk, NotesOk, StopOk, EvictionsOk, DrainOk, FlushOk;
    if t !in s.missed {
      FlushedNotBuffered(s, e);
      if s.flusher.emptied {
        LeftRing(k, s, e);
      }
    }
  }

  /** A thread that was gone before the shutdown began or is alive after it was not missed by the last drain. */
  lemma StopReached(k: Settings, states: seq<Sys>, actions: seq<Action>, i: nat, j: nat, t: nat)
    requires Run(k, states, actions) && i < j < |states| && i < |actions| && actions[i].BeginStop?
    requires t < |states[i].threads| && t < |states[j].threads| && PastLastDrain(states[j])
    ensures states[i].threads[t].pc == Gone || Strong(states[j].threads[t]) ==> t !in states[j].missed
  {
    if states[i].threads[t].pc == Gone {
      GoneNotMissed(k, states, actions, i, j, t);
    } else if Strong(states[j].threads[t]) {
      LiveNotMissed(k, states, actions, j, t);
    }
  }

  /**
   After the shutdown returned: an event whose recording call had returned when the shutdown was
   called, on whatever thread, was written to a segment, exactly once, or evicted from the ring,
   exactly if it is in no buffer, not in the ring, and in no batch whose write failed or that a
   finished writer refused. It is in a buffer only if the last drain met its thread between its
   exit and its buffer's drop, and in the ring only in that case or if a failed write cut the last
   cycle short. The last drain missed no thread that was gone before or is alive after.
   */
  lemma ShutdownDelivers(k: Settings, states: seq<Sys>, actions: seq<Action>, i: nat, j: nat, e: Event)
    requires Run(k, states, actions) && i < j < |states| && i < |actions| && actions[i].BeginStop?
    requires states[j].stop.StopDone?
    requires e.thread < |states[i].threads| && e.index < states[i].threads[e.thread].returned
    ensures var s := states[j];
      Occurrences(Contents(s.writer.log), e) + Occurrences(WithFate(s.removed, Evicted), e)
      == if InBuffer(s, e) || InRing(s, e) || OfferedAs(s, Failed, e) || OfferedAs(s, Dropped, e) then 0 else 1
    ensures InBuffer(states[j], e) ==> e.thread in states[j].missed
    ensures InRing(states[j], e) ==> e.thread in states[j].missed || states[j].flusher == Finished(false)
    ensures states[j].flusher == Finished(false) || OfferedAs(states[j], Failed, e) ==> states[j].writeFailed
    ensures OfferedAs(states[j], Dropped, e) ==> states[j].writer.droppedEvents > 0
    ensures e.thread < |states[j].threads|
    ensures states[i].threads[e.thread].pc == Gone || Strong(states[j].threads[e.thread]) ==> e.thread !in states[j].missed
  {
    var s := states[j];
    var t := e.thread;
    RunInv(k, states, actions, j);
    PartsOf(k, s);
    assert |Returned(states[i].threads)| == |states[i].threads| && Returned(states[i].threads)[t] == states[i].threads[t].returned;
    assert s.flusher.Finished? ==> PastLastDrain(s);
    assert InBuffer(s, e) <==> InBuffers(s.threads, e) > 0;
    assert InRing(s, e) <==> Occurrences(s.ring, e) > 0;
    assert OfferedAs(s, Failed, e) <==> Occurrences(OffersWith(s.writer.offers, Failed), e) > 0;
    assert OfferedAs(s, Dropped, e) <==> Occurrences(OffersWith(s.writer.offers, Dropped), e) > 0;
    assert Occurrences([], e) == 0;
    hide *;
    StopMarkStays(k, states, actions, i, j);
    RunSpawns(k, states, actions, i, j);
    StoppedEvent(k, s, e);
    StopReached(k, states, actions, i, j, t);
    OneFate(k, states, actions, j, e);
    FinishedWriter(s, e);
  }
}
