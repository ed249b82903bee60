/**
 The bytes of batches and buffers over whole runs: the self-flush limit and the segment sizes are
 measured in them (dial9-core/src/encoder.rs).
 */
module RecordingBytes {
  import opened Collector
  import opened SegmentMetadata
  import opened SegmentSpec
  import opened RecordingProtocol
  import opened RecordingRuns

  /** The bytes of a thread's batches beyond the header that each of them starts with. */
  function PayloadOf(batches: seq<Batch>, thread: nat, header: nat): int {
    if |batches| == 0 then 0
    else
      var last := batches[|batches| - 1];
      PayloadOf(batches[..|batches| - 1], thread, header) + (if last.thread == thread then last.bytes - header else 0)
  }

  /** The same for everything the thread has put into batches or still holds. */
  function Payload(k: Settings, s: Sys, t: nat): int
    requires t < |s.threads|
  {
    PayloadOf(s.pushed, t, k.header) + s.threads[t].bytes - k.header
  }

  /** What the thread's calls have encoded. */
  function SizesOf(actions: seq<Action>, t: nat): nat {
    if |actions| == 0 then 0
    else
      var last := actions[|actions| - 1];
      SizesOf(actions[..|actions| - 1], t) + (if last.Encode? && last.t == t then last.size else 0)
  }

  lemma PayloadAppend(batches: seq<Batch>, b: Batch, thread: nat, header: nat)
    ensures PayloadOf(batches + [b], thread, header)
         == PayloadOf(batches, thread, header) + (if b.thread == thread then b.bytes - header else 0)
  {
    assert (batches + [b])[..|batches|] == batches;
  }

  /** Batches are those of threads that exist. */
  ghost predicate Known(s: Sys) {
    forall i :: 0 <= i < |s.pushed| ==> s.pushed[i].thread < |s.threads|
  }

  lemma {:induction false} NoneYet(batches: seq<Batch>, thread: nat, header: nat)
    requires forall i :: 0 <= i < |batches| ==> batches[i].thread < thread
    ensures PayloadOf(batches, thread, header) == 0
  {
    if |batches| != 0 {
      NoneYet(batches[..|batches| - 1], thread, header);
    }
  }

  /** From `s` to `s'` the threads' payloads stayed, but for `extra` bytes that `t` encoded; new threads have none. */
  ghost predicate Carries(k: Settings, s: Sys, s': Sys, t: nat, extra: nat) {
    && |s.threads| <= |s'.threads| && Known(s')
    && (forall u :: 0 <= u < |s.threads| ==> Payload(k, s', u) == Payload(k, s, u) + (if u == t then extra else 0))
    && (forall u :: |s.threads| <= u < |s'.threads| ==> Payload(k, s', u) == 0)
  }

  /** No batch was pushed and no buffer changed in size. */
  ghost predicate SameSizes(s: Sys, s': Sys) {
    && s'.pushed == s.pushed && |s'.threads| == |s.threads|
    && forall u :: 0 <= u < |s.threads| ==> s'.threads[u].bytes == s.threads[u].bytes
  }

  lemma SameCarries(k: Settings, s: Sys, mid: Sys, s': Sys)
    requires Known(s) && Carries(k, s, mid, 0, 0) && SameSizes(mid, s')
    ensures Carries(k, s, s', 0, 0)
  {
    assert forall u :: 0 <= u < |mid.threads| ==> Payload(k, s', u) == Payload(k, mid, u);
  }

  lemma StayCarries(k: Settings, s: Sys)
    requires Known(s)
    ensures Carries(k, s, s, 0, 0)
  {
  }

  /** Handing a buffer over moves its bytes into a batch. */
  lemma FlushCarries(k: Settings, s: Sys, t: nat)
    requires k.capacity > 0 && t < |s.threads| && Known(s)
    ensures Carries(k, s, FlushBuffer(k, s, t), 0, 0)
  {
    var s' := FlushBuffer(k, s, t);
    var b := Batch(t, s.threads[t].events, s.threads[t].bytes);
    hide ForcePushed, Full;
    forall u: nat | u < |s.threads|
      ensures Payload(k, s', u) == Payload(k, s, u)
    {
      PayloadAppend(s.pushed, b, u, k.header);
    }
  }

  lemma EncodeCarries(k: Settings, s: Sys, a: Action)
    requires k.capacity > 0 && Known(s) && ThreadEnabled(s, a) && a.Encode?
    ensures Carries(k, s, ThreadApply(k, s, a), a.t, a.size)
  {
  }

  lemma PushCarries(k: Settings, s: Sys, a: Action)
    requires k.capacity > 0 && Known(s) && ThreadEnabled(s, a) && MayPush(a)
    ensures Carries(k, s, ThreadApply(k, s, a), 0, 0)
  {
    FlushCarries(k, s, a.t);
    StayCarries(k, s);
    var s' := ThreadApply(k, s, a);
    hide Carries, Known;
    if SameSizes(s, s') {
      SameCarries(k, s, s, s');
    } else {
      hide FlushBuffer, Full;
      SameCarries(k, s, FlushBuffer(k, s, a.t), s');
    }
  }

  lemma QuietCarries(k: Settings, s: Sys, a: Action)
    requires k.capacity > 0 && Known(s) && ThreadEnabled(s, a) && !MayPush(a) && !a.Encode?
    ensures Carries(k, s, ThreadApply(k, s, a), 0, 0)
  {
    StayCarries(k, s);
    hide Carries, Known, FlushBuffer;
    SameCarries(k, s, s, ThreadApply(k, s, a));
  }

  lemma DrainCarries(k: Settings, s: Sys)
    requires k.capacity > 0 && Known(s) && DrainEnabled(s)
    ensures Carries(k, s, DrainApply(k, s), 0, 0)
  {
    StayCarries(k, s);
    hide Carries, Known, FlushBuffer, Full, Pruned, MidExit;
    if s.flusher.step.Flush? {
      var t := s.flusher.drain.handles[s.flusher.drain.at];
      FlushCarries(k, s, t);
      SameCarries(k, s, if s.threads[t].events == [] then s else FlushBuffer(k, s, t), DrainApply(k, s));
    } else {
      SameCarries(k, s, s, DrainApply(k, s));
    }
  }

  lemma FlushStepCarries(k: Settings, s: Sys, env: FlushEnv)
    requires k.capacity > 0 && Known(s) && FlushEnabled(s)
    ensures Carries(k, s, FlushApply(k, s, env), 0, 0)
  {
    StayCarries(k, s);
    FlushCarries(k, s, FLUSH_THREAD);
    hide Carries, Known, FlushBuffer, Full, Written, AfterDrain, Finalized, MetadataIfNeeded, Updated, NoteOf;
    if s.flusher.action.DrainSelf? && s.flusher.tick.drainSelf && s.threads[FLUSH_THREAD].events != [] {
      SameCarries(k, s, FlushBuffer(k, s, FLUSH_THREAD), FlushApply(k, s, env));
    } else {
      SameCarries(k, s, s, FlushApply(k, s, env));
    }
  }

  lemma ControlCarries(k: Settings, s: Sys, a: Action)
    requires k.capacity > 0 && Known(s) && ControlEnabled(s, a)
    ensures Carries(k, s, ControlApply(k, s, a), 0, 0)
  {
    StayCarries(k, s);
    if a.Spawn? {
      NoneYet(s.pushed, |s.threads|, k.header);
    } else {
      hide Carries, Known, FlushBuffer, Full, Returned;
      if a.DrainCaller? {
        var t := s.stop.caller;
        FlushCarries(k, s, t);
        SameCarries(k, s, if s.threads[t].events == [] then s else FlushBuffer(k, s, t), ControlApply(k, s, a));
      } else {
        SameCarries(k, s, s, ControlApply(k, s, a));
      }
    }
  }

  lemma LoopCarries(k: Settings, s: Sys, exit: bool, now: real, entries: seq<Entry>)
    requires Known(s)
    ensures Carries(k, s, Woken(s, exit), 0, 0)
    ensures s.flusher.Snapshotting? ==> Carries(k, s, Snapshotted(s), 0, 0)
    ensures s.flusher.Deciding? ==> Carries(k, s, Decided(s, now, entries), 0, 0)
  {
    StayCarries(k, s);
    hide Carries, Known, Updated, ShouldDrain, Returned;
    SameCarries(k, s, s, Woken(s, exit));
    if s.flusher.Snapshotting? {
      SameCarries(k, s, s, Snapshotted(s));
    }
    if s.flusher.Deciding? {
      SameCarries(k, s, s, Decided(s, now, entries));
    }
  }

  lemma ThreadCarries(k: Settings, s: Sys, a: Action)
    requires k.capacity > 0 && Known(s) && ThreadEnabled(s, a)
    ensures Carries(k, s, ThreadApply(k, s, a), if a.Encode? then a.t else 0, if a.Encode? then a.size else 0)
  {
    hide *;
    if a.Encode? {
      EncodeCarries(k, s, a);
    } else if MayPush(a) {
      PushCarries(k, s, a);
    } else {
      QuietCarries(k, s, a);
    }
  }

  lemma ControlIsNoEncode(s: Sys, a: Action)
    requires ControlEnabled(s, a)
    ensures !a.Encode?
  {
  }

  lemma NextCarries(k: Settings, s: Sys, a: Action)
    requires k.capacity > 0 && Known(s) && Allowed(s, a)
    ensures Carries(k, s, Next(k, s, a), if a.Encode? then a.t else 0, if a.Encode? then a.size else 0)
  {
    hide *;
    NextCases(k, s, a);
    if a.Wake? {
      LoopCarries(k, s, a.exit, 0.0, []);
    } else if a.Decide? {
      LoopCarries(k, s, false, a.now, a.entries);
    } else if a.Snapshot? {
      LoopCarries(k, s, false, 0.0, []);
    } else if a.DrainNext? {
      DrainCarries(k, s);
    } else if a.FlushNext? {
      FlushStepCarries(k, s, a.env);
    } else if ThreadEnabled(s, a) {
      ThreadCarries(k, s, a);
    } else {
      ControlIsNoEncode(s, a);
      ControlCarries(k, s, a);
    }
  }

  /** What threads have encoded is what their batches and buffers measure; threads that are still to come have encoded nothing. */
  ghost predicate Measured(k: Settings, s: Sys, actions: seq<Action>) {
    Known(s) && forall t: nat :: SizesOf(actions, t) == if t < |s.threads| then Payload(k, s, t) else 0
  }

  lemma EncoderExists(s: Sys, a: Action)
    requires Allowed(s, a) && a.Encode?
    ensures a.t < |s.threads|
  {
  }

  lemma MeasuredNext(k: Settings, s: Sys, actions: seq<Action>, a: Action)
    requires k.capacity > 0 && Allowed(s, a) && Measured(k, s, actions)
    ensures Measured(k, Next(k, s, a), actions + [a])
  {
    assert (actions + [a])[..|actions|] == actions;
    NextCarries(k, s, a);
    if a.Encode? {
      EncoderExists(s, a);
    }
    hide Next, Allowed, Known, Payload;
    forall t: nat
      ensures SizesOf(actions + [a], t) == if t < |Next(k, s, a).threads| then Payload(k, Next(k, s, a), t) else 0
    {
      assert SizesOf(actions, t) == if t < |s.threads| then Payload(k, s, t) else 0;
      assert SizesOf(actions + [a], t) == SizesOf(actions, t) + (if a.Encode? && a.t == t then a.size else 0);
    }
  }

  lemma {:induction false} RunMeasured(k: Settings, states: seq<Sys>, actions: seq<Action>, i: nat)
    requires Run(k, states, actions) && i < |states|
    ensures i <= |actions| && Measured(k, states[i], actions[..i])
  {
    RunLength(k, states, actions);
    if i == 0 {
      InitMeasured(k, states[0]);
      assert actions[..0] == [];
    } else {
      hide Next, Allowed, Init, Measured;
      RunMeasured(k, states, actions, i - 1);
      MeasuredNext(k, states[i - 1], actions[..i - 1], actions[i - 1]);
      assert actions[..i - 1] + [actions[i - 1]] == actions[..i];
    }
  }

  lemma InitMeasured(k: Settings, s: Sys)
    requires Init(k, s)
    ensures Measured(k, s, [])
  {
  }

  /**
   In every state of every run: the bytes of a thread's batches and of its buffer are what its
   calls encoded and one header for each of them, so a buffer's size is what it says.
   */
  lemma BytesConserved(k: Settings, states: seq<Sys>, actions: seq<Action>, i: nat, t: nat)
    requires Run(k, states, actions) && i < |states| && t < |states[i].threads|
    ensures i <= |actions|
    ensures PayloadOf(states[i].pushed, t, k.header) + (states[i].threads[t].bytes - k.header) == SizesOf(actions[..i], t)
  {
    RunMeasured(k, states, actions, i);
    hide Run;
  }
}
