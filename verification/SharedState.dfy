/**
 The recorder's shared state as an object (dial9-core/src/shared_state.rs, encoder.rs): each
 method runs to its end before the next one, so this is the form of the code itself, while
 `RecordingProtocol` interleaves the same operations at every access to shared memory.
 */
module SharedState {
  import opened Wrappers
  import opened Collector
  import P = RecordingProtocol

  /** A thread-local buffer; `recorded` counts the events its thread ever encoded. */
  datatype TlBuffer = TlBuffer(events: seq<Event>, bytes: nat, attached: bool, alive: bool, flushEpoch: nat, recorded: nat)

  datatype DrainStats = DrainStats(skippedBusy: nat, locked: nat, flushed: nat, eventsFlushed: nat, deadPruned: nat)

  /** The buffer must be flushed by a drain of the given epoch. */
  predicate Stale(b: TlBuffer, epoch: nat) {
    b.alive && b.flushEpoch < epoch
  }

  /** What the drain leaves of a thread's buffer once it has been at its handle. */
  ghost predicate Drained(before: TlBuffer, after: TlBuffer, epoch: nat) {
    if Stale(before, epoch)
    then after == before.(events := [], bytes := after.bytes, flushEpoch := epoch)
    else after == before
  }

  /** Draining a buffer again within the epoch changes nothing. */
  lemma DrainedTwice(before: TlBuffer, once: TlBuffer, twice: TlBuffer, epoch: nat)
    requires Drained(before, once, epoch) && Drained(once, twice, epoch)
    ensures Drained(before, twice, epoch)
  {
  }

  /** Registered buffers are drained, the others are as before. */
  ghost predicate AllDrained(before: map<nat, TlBuffer>, after: map<nat, TlBuffer>, handles: seq<nat>, epoch: nat) {
    && after.Keys == before.Keys
    && (forall t :: t in before && t in handles ==> Drained(before[t], after[t], epoch))
    && (forall t :: t in before && t !in handles ==> after[t] == before[t])
  }

  lemma AllDrainedNext(before: map<nat, TlBuffer>, mid: map<nat, TlBuffer>, after: map<nat, TlBuffer>, handles: seq<nat>, h: nat, epoch: nat)
    requires AllDrained(before, mid, handles, epoch) && h in before && after.Keys == mid.Keys
    requires Drained(mid[h], after[h], epoch) && forall u :: u in mid && u != h ==> after[u] == mid[u]
    ensures AllDrained(before, after, handles + [h], epoch)
  {
    hide Drained;
    if h in handles {
      DrainedTwice(before[h], mid[h], after[h], epoch);
    }
  }

  lemma TakeNone(handles: seq<nat>)
    ensures handles[..0] == []
  {
  }

  lemma TakeNext(handles: seq<nat>, i: nat)
    requires i < |handles|
    ensures handles[..i + 1] == handles[..i] + [handles[i]]
  {
  }

  lemma TakeAll(handles: seq<nat>)
    ensures handles[..|handles|] == handles
  {
  }

  lemma NoneDrained(buffers: map<nat, TlBuffer>, epoch: nat)
    ensures AllDrained(buffers, buffers, [], epoch)
  {
  }

  class SharedState {
    const collector: CentralCollector
    const batchSize: nat
    const header: nat
    var state: P.Lifecycle
    var drainEpoch: nat
    var tlBuffers: seq<nat>
    var buffers: map<nat, TlBuffer>

    /** What a thread recorded is, in order, what it flushed and what its buffer holds: nothing is lost or repeated. */
    ghost predicate KeepsAll(t: nat)
      requires t in buffers
      reads this`buffers, collector
    {
      OfThread(collector.pushed, t) + buffers[t].events == FirstEvents(t, buffers[t].recorded)
    }

    ghost predicate Valid()
      reads this`tlBuffers, this`buffers, this`drainEpoch, collector, collector.queue
    {
      && collector.Valid()
      && (forall i :: 0 <= i < |tlBuffers| ==> tlBuffers[i] in buffers)
      && (forall t :: t in buffers ==> KeepsAll(t) && buffers[t].flushEpoch <= drainEpoch)
      && (forall t :: t !in buffers ==> OfThread(collector.pushed, t) == [])
    }

    constructor (capacity: nat, batchSize: nat, header: nat)
      requires capacity > 0
      ensures Valid() && fresh(collector) && fresh(collector.queue)
      ensures state == P.Disabled && drainEpoch == 0 && tlBuffers == [] && buffers == map[]
      ensures this.batchSize == batchSize && this.header == header
    {
      collector := new CentralCollector(capacity);
      this.batchSize := batchSize;
      this.header := header;
      state := P.Disabled;
      drainEpoch := 0;
      tlBuffers := [];
      buffers := map[];
    }

    // ----- Lifecycle -----

    /** Turn recording on; once failed or stopped it stays off. */
    method Enable()
      modifies this`state
      ensures state == if old(state) == P.Disabled then P.Enabled else old(state)
    {
      if state == P.Disabled {
        state := P.Enabled;
      }
    }

    method Disable()
      modifies this`state
      ensures state == if old(state) == P.Enabled then P.Disabled else old(state)
    {
      if state == P.Enabled {
        state := P.Disabled;
      }
    }

    /** A late failure does not undo a stop. */
    method DisablePermanently()
      modifies this`state
      ensures state == if old(state) == P.Stopped then P.Stopped else P.FailedForGood
    {
      if state != P.Stopped {
        state := P.FailedForGood;
      }
    }

    method MarkStopped()
      modifies this`state
      ensures state == P.Stopped
    {
      state := P.Stopped;
    }

    method BumpDrainEpoch()
      requires Valid()
      modifies this`drainEpoch
      ensures Valid() && drainEpoch == old(drainEpoch) + 1
    {
      drainEpoch := drainEpoch + 1;
    }

    // ----- Buffers -----

    /** A thread's first use of its buffer. */
    method Spawn(t: nat)
      requires Valid() && t !in buffers
      modifies this`buffers
      ensures Valid() && buffers == old(buffers)[t := TlBuffer([], header, false, true, 0, 0)]
    {
      assert FirstEvents(t, 0) == [];
      buffers := buffers[t := TlBuffer([], header, false, true, 0, 0)];
    }

    /** Take a buffer out as a batch and hand it to the collector. */
    method FlushBuffer(t: nat)
      requires Valid() && t in buffers
      modifies this`buffers, collector, collector.queue
      ensures Valid()
      ensures buffers == old(buffers)[t := old(buffers)[t].(events := [], bytes := header)]
      ensures collector.pushed == old(collector.pushed) + [Batch(t, old(buffers)[t].events, old(buffers)[t].bytes)]
      ensures WithFate(collector.removed, Popped) == old(WithFate(collector.removed, Popped))
    {
      var b := buffers[t];
      var batch := Batch(t, b.events, b.bytes);
      ghost var pushed := collector.pushed;
      collector.AcceptFlush(batch);
      buffers := buffers[t := b.(events := [], bytes := header)];
      forall u: nat
        ensures OfThread(collector.pushed, u) == OfThread(pushed, u) + (if u == t then b.events else [])
      {
        OfThreadAppend(pushed, batch, u);
      }
      assert OfThread(pushed, t) + b.events + [] == FirstEvents(t, b.recorded);
    }

    /** Encode `n` events of `size` bytes into a buffer. */
    method Encode(t: nat, n: nat, size: nat)
      requires Valid() && t in buffers
      modifies this`buffers
      ensures Valid() && buffers.Keys == old(buffers.Keys)
      ensures forall u :: u in buffers && u != t ==> buffers[u] == old(buffers)[u]
      ensures buffers[t] == old(buffers)[t].(
        attached := true, events := buffers[t].events,
        bytes := old(buffers)[t].bytes + size, recorded := old(buffers)[t].recorded + n)
    {
      var b := buffers[t];
      var added := seq(n, i requires 0 <= i < n => Event(t, b.recorded + i));
      assert FirstEvents(t, b.recorded) + added == FirstEvents(t, b.recorded + n);
      assert OfThread(collector.pushed, t) + (b.events + added) == (OfThread(collector.pushed, t) + b.events) + added;
      buffers := buffers[t := b.(attached := true, events := b.events + added, bytes := b.bytes + size, recorded := b.recorded + n)];
    }

    /** Note that a buffer was flushed in an epoch. */
    method Stamp(t: nat, epoch: nat)
      requires Valid() && t in buffers && epoch <= drainEpoch
      modifies this`buffers
      ensures Valid() && buffers == old(buffers)[t := old(buffers)[t].(flushEpoch := epoch)]
    {
      buffers := buffers[t := buffers[t].(flushEpoch := epoch)];
    }

    method Register(t: nat)
      requires Valid() && t in buffers
      modifies this`tlBuffers
      ensures Valid() && tlBuffers == old(tlBuffers) + [t]
    {
      tlBuffers := tlBuffers + [t];
    }

    /**
     Record `n` events of `size` bytes on thread `t`: the buffer is flushed if it is full or an
     epoch behind. The thread's first call returns a handle to register.
     */
    method WithEncoder(t: nat, n: nat, size: nat) returns (handle: Option<nat>)
      requires Valid() && t in buffers && buffers[t].alive
      modifies this`buffers, collector, collector.queue
      ensures Valid() && buffers.Keys == old(buffers.Keys)
      ensures forall u :: u in buffers && u != t ==> buffers[u] == old(buffers)[u]
      ensures var before, b := old(buffers)[t], buffers[t];
        && b.recorded == before.recorded + n && b.attached && b.alive
        && (before.bytes + size >= batchSize || before.flushEpoch < drainEpoch ==> b.events == [] && b.flushEpoch == drainEpoch)
        && (before.bytes + size < batchSize && before.flushEpoch >= drainEpoch ==>
              collector.pushed == old(collector.pushed) && b.flushEpoch == before.flushEpoch)
      ensures handle == if old(buffers)[t].attached then None else Some(t)
      ensures WithFate(collector.removed, Popped) == old(WithFate(collector.removed, Popped))
    {
      hide *;
      handle := if buffers[t].attached then None else Some(t);
      Encode(t, n, size);
      var currentEpoch := drainEpoch;
      if buffers[t].bytes >= batchSize || buffers[t].flushEpoch < currentEpoch {
        FlushBuffer(t);
        Stamp(t, currentEpoch);
      }
    }

    /** Record through the recorder's handle: the buffer's handle is registered after its lock is released. */
    method Record(t: nat, n: nat, size: nat)
      requires Valid() && t in buffers && buffers[t].alive
      modifies this`buffers, this`tlBuffers, collector, collector.queue
      ensures Valid() && buffers.Keys == old(buffers.Keys)
      ensures forall u :: u in buffers && u != t ==> buffers[u] == old(buffers)[u]
      ensures buffers[t].recorded == old(buffers)[t].recorded + n && buffers[t].attached
      ensures tlBuffers == old(tlBuffers) + (if old(buffers)[t].attached then [] else [t])
    {
      hide *;
      var handle := WithEncoder(t, n, size);
      if handle.Some? {
        Register(handle.value);
      }
    }

    /** Drain a thread's own buffer, even if it is not full. */
    method DrainToCollector(t: nat)
      requires Valid() && t in buffers
      modifies this`buffers, collector, collector.queue
      ensures Valid() && buffers.Keys == old(buffers.Keys) && buffers[t].events == []
      ensures buffers[t].recorded == old(buffers)[t].recorded && buffers[t].alive == old(buffers)[t].alive
      ensures forall u :: u in buffers && u != t ==> buffers[u] == old(buffers)[u]
      ensures WithFate(collector.removed, Popped) == old(WithFate(collector.removed, Popped))
    {
      if buffers[t].events != [] {
        FlushBuffer(t);
      }
    }

    /** The thread's buffer is dropped: what it still holds goes to the collector. */
    method DropBuffer(t: nat)
      requires Valid() && t in buffers
      modifies this`buffers, collector, collector.queue
      ensures Valid() && buffers.Keys == old(buffers.Keys) && buffers[t].events == [] && !buffers[t].alive
      ensures forall u :: u in buffers && u != t ==> buffers[u] == old(buffers)[u]
      ensures WithFate(collector.removed, Popped) == old(WithFate(collector.removed, Popped))
    {
      hide *;
      DrainToCollector(t);
      Retire(t);
    }

    /** Nobody refers to the buffer any more. */
    method Retire(t: nat)
      requires Valid() && t in buffers
      modifies this`buffers
      ensures Valid() && buffers == old(buffers)[t := old(buffers)[t].(alive := false)]
    {
      buffers := buffers[t := buffers[t].(alive := false)];
    }

    // ----- The intrusive drain -----

    /** The drain at one handle. */
    method DrainHandle(t: nat, stats: DrainStats) returns (after: DrainStats)
      requires Valid() && t in buffers
      modifies this`buffers, collector, collector.queue
      ensures Valid() && buffers.Keys == old(buffers.Keys)
      ensures forall u :: u in buffers && u != t ==> buffers[u] == old(buffers)[u]
      ensures Drained(old(buffers)[t], buffers[t], drainEpoch)
      ensures after.skippedBusy + after.locked <= stats.skippedBusy + stats.locked + 1
      ensures after.flushed - stats.flushed <= after.locked - stats.locked
      ensures WithFate(collector.removed, Popped) == old(WithFate(collector.removed, Popped))
    {
      var epoch := drainEpoch;
      after := stats;
      if buffers[t].flushEpoch >= epoch {
        after := after.(skippedBusy := stats.skippedBusy + 1);
        return;
      }
      if buffers[t].alive {
        hide Valid;
        after := after.(locked := after.locked + 1);
        if buffers[t].events != [] {
          after := after.(eventsFlushed := after.eventsFlushed + |buffers[t].events|, flushed := after.flushed + 1);
          FlushBuffer(t);
        }
        Stamp(t, epoch);
      }
    }

    /** The handles whose buffer is alive, in order. */
    method Alive(handles: seq<nat>) returns (kept: seq<nat>)
      requires forall i :: 0 <= i < |handles| ==> handles[i] in buffers
      ensures |kept| <= |handles|
      ensures forall t :: t in kept <==> t in handles && buffers[t].alive
    {
      kept := [];
      for i := 0 to |handles|
        invariant |kept| <= i
        invariant forall t :: t in kept <==> t in handles[..i] && t in buffers && buffers[t].alive
      {
        assert handles[..i + 1] == handles[..i] + [handles[i]];
        if buffers[handles[i]].alive {
          kept := kept + [handles[i]];
        }
      }
      assert handles[..|handles|] == handles;
    }

    /** Go through the handles; each is drained against what it was at the start. */
    method DrainHandles(handles: seq<nat>) returns (stats: DrainStats)
      requires Valid() && forall i :: 0 <= i < |handles| ==> handles[i] in buffers
      modifies this`buffers, collector, collector.queue
      ensures Valid() && AllDrained(old(buffers), buffers, handles, drainEpoch)
      ensures stats.skippedBusy + stats.locked <= |handles| && stats.flushed <= stats.locked
      ensures WithFate(collector.removed, Popped) == old(WithFate(collector.removed, Popped))
    {
      stats := DrainStats(0, 0, 0, 0, 0);
      hide *;
      NoneDrained(buffers, drainEpoch);
      ghost var done: seq<nat> := [];
      TakeNone(handles);
      for i := 0 to |handles|
        invariant Valid() && buffers.Keys == old(buffers.Keys)
        invariant done == handles[..i] && AllDrained(old(buffers), buffers, done, drainEpoch)
        invariant stats.skippedBusy + stats.locked <= i && stats.flushed <= stats.locked
        invariant WithFate(collector.removed, Popped) == old(WithFate(collector.removed, Popped))
      {
        ghost var mid := buffers;
        stats := DrainHandle(handles[i], stats);
        AllDrainedNext(old(buffers), mid, buffers, done, handles[i], drainEpoch);
        TakeNext(handles, i);
        done := done + [handles[i]];
      }
      TakeAll(handles);
    }

    /** Forget the handles of dead buffers. */
    method Prune() returns (pruned: nat)
      requires Valid()
      modifies this`tlBuffers
      ensures Valid() && pruned + |tlBuffers| == |old(tlBuffers)|
      ensures forall t :: t in buffers ==> (t in tlBuffers <==> t in old(tlBuffers) && buffers[t].alive)
    {
      var kept := Alive(tlBuffers);
      forall i | 0 <= i < |kept|
        ensures kept[i] in buffers
      {
        assert kept[i] in kept;
      }
      pruned := |tlBuffers| - |kept|;
      tlBuffers := kept;
    }

    /**
     Flush every registered buffer that is alive and has not been flushed in the current epoch,
     leave all others alone, and forget the handles of dead ones.
     */
    method DrainAllTlBuffers() returns (stats: DrainStats)
      requires Valid()
      modifies this`buffers, this`tlBuffers, collector, collector.queue
      ensures Valid() && AllDrained(old(buffers), buffers, old(tlBuffers), drainEpoch)
      ensures forall t :: t in buffers ==> (t in tlBuffers <==> t in old(tlBuffers) && buffers[t].alive)
      ensures stats.deadPruned + |tlBuffers| == |old(tlBuffers)|
      ensures stats.skippedBusy + stats.locked <= |old(tlBuffers)| && stats.flushed <= stats.locked
      ensures WithFate(collector.removed, Popped) == old(WithFate(collector.removed, Popped))
    {
      stats := DrainHandles(tlBuffers);
      hide *;
      var pruned := Prune();
      stats := stats.(deadPruned := pruned);
    }
  }
}
