/** What holds in every run of the recording pipeline, whatever the interleaving. */
module RecordingTheorems {
  import opened Collector
  import opened SegmentSpec
  import opened RecordingProtocol
  import opened RecordingInvariant
  import opened RecordingFrames
  import opened RecordingControl
  import opened RecordingDrain
  import opened RecordingRuns

  // ----- Every event is in exactly one place -----

  /** How often an event sits in the thread-local buffers. */
  function InBuffers(threads: seq<Thread>, e: Event): nat {
    if |threads| == 0 then 0
    else
      var n := |threads| - 1;
      InBuffers(threads[..n], e) + multiset(threads[n].events)[e]
  }

  predicate Recorded(s: Sys, e: Event) {
    e.thread < |s.threads| && e.index < s.threads[e.thread].recorded
  }

  lemma {:induction false} BuffersOwn(threads: seq<Thread>, e: Event)
    requires forall t, j :: 0 <= t < |threads| && 0 <= j < |threads[t].events| ==> threads[t].events[j].thread == t
    ensures InBuffers(threads, e) == if e.thread < |threads| then multiset(threads[e.thread].events)[e] else 0
  {
    if |threads| != 0 {
      var n := |threads| - 1;
      BuffersOwn(threads[..n], e);
      assert e.thread != n ==> e !in threads[n].events;
    }
  }

  lemma OccurrencesSplit(a: seq<Batch>, b: seq<Batch>, e: Event)
    ensures Occurrences(a + b, e) == Occurrences(a, e) + Occurrences(b, e)
  {
    AllEventsSplit(a, b);
  }

  lemma {:induction false} NonEmptyEvents(batches: seq<Batch>)
    ensures AllEvents(NonEmpty(batches)) == AllEvents(batches)
  {
    if |batches| != 0 {
      var last := batches[|batches| - 1];
      NonEmptyEvents(batches[..|batches| - 1]);
      if |last.events| > 0 {
        AllEventsAppend(NonEmpty(batches[..|batches| - 1]), last);
      } else {
        assert NonEmpty(batches) == NonEmpty(batches[..|batches| - 1]);
      }
    }
  }

  /** Among any prefix of the removals, evicted and handed-over occurrences add up. */
  lemma RemovedSplit(removed: seq<Removal>, cut: nat, e: Event)
    requires cut <= |removed|
    ensures Occurrences(Batches(removed[..cut]), e)
         == Occurrences(WithFate(removed[..cut], Evicted), e) + Occurrences(HandedTo(removed, cut), e)
  {
    OccurrencesByFate(removed[..cut], e);
    NonEmptyEvents(WithFate(removed[..cut], Popped));
  }

  /** How often an event was pushed: once if its thread flushed that far. */
  lemma PushedOnce(k: Settings, s: Sys, e: Event)
    requires RingOk(k, s) && ThreadsOk(s)
    ensures Occurrences(s.pushed, e) + InBuffers(s.threads, e) == if Recorded(s, e) then 1 else 0
  {
    forall t: nat | t < |s.threads|
      ensures forall j :: 0 <= j < |s.threads[t].events| ==> s.threads[t].events[j].thread == t
    {
      assert ThreadOk(s, t);
      OwnBuffer(s, t);
    }
    BuffersOwn(s.threads, e);
    OccurrencesOfThread(s.pushed, e);
    if e.thread < |s.threads| {
      var th := s.threads[e.thread];
      assert ThreadOk(s, e.thread);
      FirstEventsOnce(e.thread, th.recorded, e.index);
      assert multiset(OfThread(s.pushed, e.thread) + th.events)[e] == multiset(FirstEvents(e.thread, th.recorded))[e];
    } else {
      NoEventsOf(s.pushed, e.thread);
    }
  }

  /**
   In every reachable state a recorded event is in exactly one place: a thread-local buffer, the
   ring, an evicted batch or a batch handed to the writer; and nothing else is anywhere.
   */
  lemma ExactlyOnce(k: Settings, states: seq<Sys>, actions: seq<Action>, i: nat, e: Event)
    requires Run(k, states, actions) && i < |states|
    ensures var s := states[i];
      InBuffers(s.threads, e) + Occurrences(s.ring, e)
      + Occurrences(WithFate(s.removed, Evicted), e) + Occurrences(HandedTo(s.removed, |s.removed|), e)
      == if Recorded(s, e) then 1 else 0
  {
    var s := states[i];
    RunInv(k, states, actions, i);
    PartsOf(k, s);
    hide Inv, ThreadsOk, Run;
    PushedOnce(k, s, e);
    OccurrencesSplit(Batches(s.removed), s.ring, e);
    RemovedSplit(s.removed, |s.removed|, e);
    assert s.removed[..|s.removed|] == s.removed;
  }

  /**
   Order and counts: batches leave the ring in the order they were pushed, a thread's events are
   pushed in recording order, the writer is offered exactly the popped non-empty batches in order,
   and the evicted batches are exactly those counted, pending or about to be counted.
   */
  lemma FirstInFirstOut(k: Settings, states: seq<Sys>, actions: seq<Action>, i: nat, t: nat)
    requires Run(k, states, actions) && i < |states| && t < |states[i].threads|
    ensures var s := states[i];
      && s.pushed == Batches(s.removed) + s.ring && |s.ring| <= k.capacity
      && OfThread(s.pushed, t) + s.threads[t].events == FirstEvents(t, s.threads[t].recorded)
      && OfferedBatches(s.writer.offers) == HandedTo(s.removed, |s.removed|)
      && s.taken + s.dropped + Uncounted(s) == |WithFate(s.removed, Evicted)|
  {
    RunInv(k, states, actions, i);
    assert ThreadOk(states[i], t);
  }

  // ----- Drains -----

  /** An event still in a buffer lies beyond what was flushed. */
  lemma BufferedIndex(s: Sys, t: nat, i: nat)
    requires t < |s.threads| && KeepsEvents(s, t) && i < |s.threads[t].events|
    ensures s.threads[t].events[i] == Event(t, Flushed(s.threads[t]) + i)
  {
    var flushed := OfThread(s.pushed, t);
    assert (flushed + s.threads[t].events)[|flushed| + i] == s.threads[t].events[i];
    assert |flushed| + |s.threads[t].events| == s.threads[t].recorded;
  }

  /**
   When a drain of epoch `epoch` has gone through its handles, no buffer of a thread other than
   the flush thread holds an event whose recording call had returned before the bump to `epoch`,
   unless that thread is between its exit and the drop of a buffer still behind the epoch.
   */
  lemma DrainSound(k: Settings, states: seq<Sys>, actions: seq<Action>, bump: nat, j: nat, t: nat, i: nat)
    requires Run(k, states, actions) && j < |states|
    requires states[j].flusher.InDrain? && states[j].flusher.drain.at == |states[j].flusher.drain.handles|
    requires BumpedAt(states, bump, states[j].drainEpoch) && bump < j
    requires 0 < t < |states[bump].threads| && t < |states[j].threads|
    requires t !in MidExit(states[j].threads, states[j].drainEpoch) && i < |states[j].threads[t].events|
    ensures states[j].threads[t].events[i].thread == t
    ensures states[j].threads[t].events[i].index >= states[bump].threads[t].returned
  {
    var s := states[j];
    RunInv(k, states, actions, j);
    DrainCompletes(k, s, t);
    assert ThreadOk(s, t);
    hide Inv, Run;
    MarkMeans(k, states, actions, bump, s.drainEpoch, j, t);
    BufferedIndex(s, t, i);
  }

  /** A flush epoch that has caught up with the drain epoch was stamped after a flush in it. */
  lemma StampedClears(k: Settings, s: Sys, t: nat)
    requires Inv(k, s) && t < |s.threads| && s.threads[t].flushEpoch >= s.drainEpoch
    ensures Cleared(s, t) && KeepsEvents(s, t)
  {
    assert ThreadOk(s, t);
  }

  /**
   The unlocked test is sound: a buffer that claims to have been flushed in this epoch holds
   nothing whose recording call had returned before the bump, so the drain may skip it.
   */
  lemma SkipSound(k: Settings, states: seq<Sys>, actions: seq<Action>, bump: nat, j: nat, t: nat, i: nat)
    requires Run(k, states, actions) && j < |states|
    requires BumpedAt(states, bump, states[j].drainEpoch) && bump < j
    requires t < |states[bump].threads| && t < |states[j].threads|
    requires states[j].threads[t].flushEpoch >= states[j].drainEpoch && i < |states[j].threads[t].events|
    ensures states[j].threads[t].events[i].index >= states[bump].threads[t].returned
  {
    var s := states[j];
    RunInv(k, states, actions, j);
    hide Inv, Run, KeepsEvents;
    StampedClears(k, s, t);
    MarkMeans(k, states, actions, bump, s.drainEpoch, j, t);
    BufferedIndex(s, t, i);
  }

  /** The drain waits only for a lock that a recording thread holds, and that thread is never the one that waits for it. */
  lemma DrainNeverStuck(k: Settings, states: seq<Sys>, actions: seq<Action>, j: nat)
    requires Run(k, states, actions) && j < |states| && states[j].flusher.InDrain?
    ensures var s := states[j];
      DrainEnabled(s)
      || (s.flusher.step.Lock? && s.flusher.drain.at < |s.flusher.drain.handles|
          && var t := s.flusher.drain.handles[s.flusher.drain.at];
             0 < t < |s.threads| && OwnerHolds(s.threads[t].pc))
  {
    RunInv(k, states, actions, j);
  }

  /** The drain and a buffer's owner never hold its lock at the same time. */
  lemma LockExclusive(k: Settings, states: seq<Sys>, actions: seq<Action>, j: nat, t: nat)
    requires Run(k, states, actions) && j < |states| && t < |states[j].threads|
    ensures !(OwnerHolds(states[j].threads[t].pc) && DrainHoldsLock(states[j], t))
  {
    RunInv(k, states, actions, j);
    InvFacts(k, states[j], t);
  }
}
