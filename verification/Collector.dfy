/**
 Encoded batches and the bounded ring that carries them from the recording threads to the
 flush thread (dial9-core/src/collector.rs, dial9-core/src/primitives.rs).
 */
module Collector {
  import opened Wrappers

  /** An event's identity: the `index`-th event that `thread` encoded. */
  datatype Event = Event(thread: nat, index: nat)

  /** One flush of a thread-local buffer. */
  datatype Batch = Batch(thread: nat, events: seq<Event>, bytes: nat)

  /** How a batch left the ring. */
  datatype Fate = Evicted | Popped
  datatype Removal = Removal(batch: Batch, fate: Fate)

  // ----- Sequences of batches -----

  /** The events of the batches that `thread` flushed, in order. */
  function OfThread(batches: seq<Batch>, thread: nat): seq<Event> {
    if |batches| == 0 then []
    else
      var last := batches[|batches| - 1];
      OfThread(batches[..|batches| - 1], thread) + (if last.thread == thread then last.events else [])
  }

  /** All events of the batches, in order. */
  function AllEvents(batches: seq<Batch>): seq<Event> {
    if |batches| == 0 then []
    else AllEvents(batches[..|batches| - 1]) + batches[|batches| - 1].events
  }

  /** The batches behind a sequence of removals. */
  function Batches(removals: seq<Removal>): (batches: seq<Batch>)
    ensures |batches| == |removals|
    ensures forall i :: 0 <= i < |removals| ==> batches[i] == removals[i].batch
  {
    seq(|removals|, i requires 0 <= i < |removals| => removals[i].batch)
  }

  /** The batches that left the ring with the given fate, in order. */
  function WithFate(removals: seq<Removal>, fate: Fate): seq<Batch> {
    if |removals| == 0 then []
    else
      var last := removals[|removals| - 1];
      WithFate(removals[..|removals| - 1], fate) + (if last.fate == fate then [last.batch] else [])
  }

  /** The first `n` events of a thread. */
  function FirstEvents(thread: nat, n: nat): (events: seq<Event>)
    ensures |events| == n
    ensures forall i :: 0 <= i < n ==> events[i] == Event(thread, i)
  {
    seq(n, i requires 0 <= i < n => Event(thread, i))
  }

  /** No batch carries another thread's events. */
  ghost predicate OwnEvents(batches: seq<Batch>) {
    forall i, j :: 0 <= i < |batches| && 0 <= j < |batches[i].events| ==> batches[i].events[j].thread == batches[i].thread
  }

  lemma OfThreadAppend(batches: seq<Batch>, b: Batch, thread: nat)
    ensures OfThread(batches + [b], thread)
         == OfThread(batches, thread) + (if b.thread == thread then b.events else [])
  {
    assert (batches + [b])[..|batches|] == batches;
  }

  lemma AllEventsAppend(batches: seq<Batch>, b: Batch)
    ensures AllEvents(batches + [b]) == AllEvents(batches) + b.events
  {
    assert (batches + [b])[..|batches|] == batches;
  }

  lemma BatchesAppend(removals: seq<Removal>, r: Removal)
    ensures Batches(removals + [r]) == Batches(removals) + [r.batch]
  {
  }

  lemma WithFateAppend(removals: seq<Removal>, r: Removal, fate: Fate)
    ensures WithFate(removals + [r], fate) == WithFate(removals, fate) + (if r.fate == fate then [r.batch] else [])
  {
    assert (removals + [r])[..|removals|] == removals;
  }

  lemma {:induction false} OfThreadSplit(a: seq<Batch>, b: seq<Batch>, thread: nat)
    ensures OfThread(a + b, thread) == OfThread(a, thread) + OfThread(b, thread)
  {
    if |b| == 0 {
      assert a + b == a;
    } else {
      var n := |b| - 1;
      OfThreadSplit(a, b[..n], thread);
      assert a + b == (a + b[..n]) + [b[n]];
      OfThreadAppend(a + b[..n], b[n], thread);
    }
  }

  // ----- Counting occurrences -----

  /** How often an event occurs in the batches. */
  function Occurrences(batches: seq<Batch>, e: Event): nat {
    multiset(AllEvents(batches))[e]
  }

  lemma OccurrencesAppend(batches: seq<Batch>, b: Batch, e: Event)
    ensures Occurrences(batches + [b], e) == Occurrences(batches, e) + multiset(b.events)[e]
  {
    AllEventsAppend(batches, b);
  }

  lemma {:induction false} OccurrencesOfThread(batches: seq<Batch>, e: Event)
    requires OwnEvents(batches)
    ensures Occurrences(batches, e) == multiset(OfThread(batches, e.thread))[e]
  {
    if |batches| != 0 {
      var n := |batches| - 1;
      assert OwnEvents(batches[..n]);
      OccurrencesOfThread(batches[..n], e);
      assert e.thread != batches[n].thread ==> e !in batches[n].events;
    }
  }

  lemma {:induction false} OccurrencesByFate(removals: seq<Removal>, e: Event)
    ensures Occurrences(Batches(removals), e)
         == Occurrences(WithFate(removals, Evicted), e) + Occurrences(WithFate(removals, Popped), e)
  {
    if |removals| != 0 {
      var n := |removals| - 1;
      var r := removals[n];
      OccurrencesByFate(removals[..n], e);
      OccurrencesAppend(Batches(removals[..n]), r.batch, e);
      assert Batches(removals) == Batches(removals[..n]) + [r.batch];
      if r.fate == Evicted {
        OccurrencesAppend(WithFate(removals[..n], Evicted), r.batch, e);
        assert WithFate(removals, Popped) == WithFate(removals[..n], Popped);
      } else {
        OccurrencesAppend(WithFate(removals[..n], Popped), r.batch, e);
        assert WithFate(removals, Evicted) == WithFate(removals[..n], Evicted);
      }
    }
  }

  lemma {:induction false} AllEventsSplit(a: seq<Batch>, b: seq<Batch>)
    ensures AllEvents(a + b) == AllEvents(a) + AllEvents(b)
  {
    if |b| == 0 {
      assert a + b == a;
    } else {
      var n := |b| - 1;
      AllEventsSplit(a, b[..n]);
      assert a + b == (a + b[..n]) + [b[n]];
      AllEventsAppend(a + b[..n], b[n]);
    }
  }

  lemma {:induction false} FirstEventsOnce(thread: nat, n: nat, k: nat)
    ensures multiset(FirstEvents(thread, n))[Event(thread, k)] == if k < n then 1 else 0
  {
    if n != 0 {
      FirstEventsOnce(thread, n - 1, k);
      assert FirstEvents(thread, n) == FirstEvents(thread, n - 1) + [Event(thread, n - 1)];
    } else {
      assert FirstEvents(thread, n) == [];
    }
  }

  // ----- The ring -----

  /** The ring after a push that evicts the oldest batch when the ring is full. */
  function ForcePushed<T>(queue: seq<T>, capacity: nat, value: T): seq<T>
    requires capacity > 0
  {
    (if |queue| >= capacity then queue[1..] else queue) + [value]
  }

  /** A bounded queue that evicts its front when it is full. */
  class BoundedQueue<T> {
    const capacity: nat
    var items: seq<T>

    ghost predicate Valid()
      reads this
    {
      0 < capacity && |items| <= capacity
    }

    constructor (capacity: nat)
      requires capacity > 0
      ensures Valid() && items == [] && this.capacity == capacity
    {
      this.capacity := capacity;
      items := [];
    }

    method ForcePush(value: T) returns (evicted: Option<T>)
      requires Valid()
      modifies this
      ensures Valid()
      ensures (if evicted.Some? then [evicted.value] else []) + items == old(items) + [value]
      ensures evicted.Some? <==> |old(items)| == capacity
    {
      if |items| >= capacity {
        evicted := Some(items[0]);
        items := items[1..];
      } else {
        evicted := None;
      }
      items := items + [value];
    }

    method Pop() returns (front: Option<T>)
      requires Valid()
      modifies this
      ensures Valid()
      ensures front.None? <==> old(items) == []
      ensures (if front.Some? then [front.value] else []) + items == old(items)
    {
      if items == [] {
        front := None;
      } else {
        front := Some(items[0]);
        items := items[1..];
      }
    }
  }

  /**
   The collector: the ring plus a counter of evicted batches that the flush thread takes.
   The ghost fields record every push and every removal.
   */
  class CentralCollector {
    const queue: BoundedQueue<Batch>
    var droppedBatches: nat
    ghost var pushed: seq<Batch>
    ghost var removed: seq<Removal>
    ghost var taken: nat

    ghost predicate Valid()
      reads this, queue
    {
      && queue.Valid()
      && pushed == Batches(removed) + queue.items
      && taken + droppedBatches == |WithFate(removed, Evicted)|
    }

    constructor (capacity: nat)
      requires capacity > 0
      ensures Valid() && fresh(queue) && queue.capacity == capacity && pushed == [] && removed == []
    {
      queue := new BoundedQueue(capacity);
      droppedBatches := 0;
      pushed, removed, taken := [], [], 0;
    }

    /** Accept a batch; nothing is lost silently: the oldest batch makes room and is counted. */
    method AcceptFlush(batch: Batch)
      requires Valid()
      modifies this, queue
      ensures Valid()
      ensures pushed == old(pushed) + [batch] && taken == old(taken)
      ensures WithFate(removed, Popped) == WithFate(old(removed), Popped)
      ensures droppedBatches == old(droppedBatches) + (if |old(queue.items)| == queue.capacity then 1 else 0)
    {
      ghost var before := queue.items;
      ghost var gone := Batches(removed);
      var evicted := queue.ForcePush(batch);
      assert pushed + [batch] == gone + (before + [batch]);
      pushed := pushed + [batch];
      if evicted.Some? {
        WithFateAppend(removed, Removal(evicted.value, Evicted), Evicted);
        WithFateAppend(removed, Removal(evicted.value, Evicted), Popped);
        BatchesAppend(removed, Removal(evicted.value, Evicted));
        assert before + [batch] == [evicted.value] + queue.items;
        assert gone + ([evicted.value] + queue.items) == (gone + [evicted.value]) + queue.items;
        removed := removed + [Removal(evicted.value, Evicted)];
        droppedBatches := droppedBatches + 1;
      } else {
        assert before + [batch] == queue.items;
      }
    }

    /** Take the oldest batch still in the ring. */
    method Next() returns (batch: Option<Batch>)
      requires Valid()
      modifies this, queue
      ensures Valid() && pushed == old(pushed) && taken == old(taken) && droppedBatches == old(droppedBatches)
      ensures batch.None? <==> |old(removed)| == |pushed|
      ensures batch.None? ==> removed == old(removed)
      ensures batch.Some? ==>
        |old(removed)| < |pushed| && batch.value == pushed[|old(removed)|]
        && removed == old(removed) + [Removal(batch.value, Popped)]
    {
      ghost var before := queue.items;
      batch := queue.Pop();
      if batch.Some? {
        assert before == [batch.value] + queue.items;
        WithFateAppend(removed, Removal(batch.value, Popped), Evicted);
        BatchesAppend(removed, Removal(batch.value, Popped));
        removed := removed + [Removal(batch.value, Popped)];
      } else {
        assert before == queue.items;
      }
    }

    /** The evictions since the last call. */
    method TakeDroppedBatches() returns (dropped: nat)
      requires Valid()
      modifies this
      ensures Valid() && pushed == old(pushed) && removed == old(removed)
      ensures dropped == old(droppedBatches) && droppedBatches == 0 && taken == old(taken) + dropped
    {
      dropped := droppedBatches;
      taken := taken + droppedBatches;
      droppedBatches := 0;
    }
  }
}
