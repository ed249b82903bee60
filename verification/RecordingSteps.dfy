/** Every step of a recording thread and of the shutdown keeps the invariant. */
module RecordingSteps {
  import opened Collector
  import opened SegmentSpec
  import opened RecordingProtocol
  import opened RecordingInvariant
  import opened RecordingFrames

  // ----- One thread's record -----

  /** A thread's events after a flush: everything it recorded is among the pushed batches. */
  lemma PushKeepsEvents(k: Settings, s: Sys, t: nat)
    requires t < |s.threads| && KeepsEvents(s, t) && k.capacity > 0
    ensures KeepsEvents(FlushBuffer(k, s, t), t)
  {
    OfThreadAppend(s.pushed, Batch(t, s.threads[t].events, s.threads[t].bytes), t);
    assert OfThread(s.pushed, t) + s.threads[t].events + [] == FirstEvents(t, s.threads[t].recorded);
  }

  lemma EncodeKeepsEvents(s: Sys, t: nat, n: nat, th: Thread)
    requires t < |s.threads| && KeepsEvents(s, t)
    requires th.events == s.threads[t].events + seq(n, i requires 0 <= i < n => Event(t, s.threads[t].recorded + i))
    requires th.recorded == s.threads[t].recorded + n
    ensures KeepsEvents(SetThread(s, t, th), t)
  {
    var added := seq(n, i requires 0 <= i < n => Event(t, s.threads[t].recorded + i));
    assert FirstEvents(t, s.threads[t].recorded) + added == FirstEvents(t, th.recorded);
    assert OfThread(s.pushed, t) + (s.threads[t].events + added) == (OfThread(s.pushed, t) + s.threads[t].events) + added;
  }

  /** Changes to a thread's record that keep its events and its epochs as they are. */
  lemma QuietOk(s: Sys, s': Sys, t: nat)
    requires t < |s.threads| && ThreadOk(s, t) && t < |s'.threads|
    requires s'.pushed == s.pushed && s'.drainEpoch == s.drainEpoch && s'.marks == s.marks
    requires forall u :: u in s.handles ==> u in s'.handles
    requires var th, th' := s.threads[t], s'.threads[t];
      && th'.events == th.events && th'.recorded == th.recorded && th'.flushEpoch == th.flushEpoch
      && th.returned <= th'.returned <= th'.recorded
      && (th'.pc.Loaded? || th'.pc.Pushed? || th'.pc.Stamping? ==> th'.flushEpoch <= th'.pc.current <= s'.drainEpoch)
      && (Settled(th'.pc) ==> th'.returned == th'.recorded)
      && (Emptied(th'.pc) ==> th'.events == [])
      && (th'.pc == HandedOver ==> DrainHoldsArc(s', t))
    requires Registered(s', t)
    ensures ThreadOk(s', t)
  {
    assert forall e :: Mark(s', e, t) == Mark(s, e, t);
  }

  /** Pushing a buffer leaves its thread in order, and moves everything it recorded out. */
  lemma PushOk(k: Settings, s: Sys, t: nat, pc: ThreadPc)
    requires t < |s.threads| && ThreadOk(s, t) && k.capacity > 0 && PushTo(k, s, t, pc)
    requires !DrainHoldsLock(s, t) && (DrainHoldsArc(s, t) ==> pc.Pushed?)
    ensures ThreadOk(SetPc(FlushBuffer(k, s, t), t, pc), t)
    ensures Moves(s, SetPc(FlushBuffer(k, s, t), t, pc), t)
  {
    var s' := SetPc(FlushBuffer(k, s, t), t, pc);
    PushKeepsEvents(k, s, t);
    OwnBuffer(s, t);
    assert KeepsEvents(s', t);
    assert forall e :: Mark(s', e, t) == Mark(s, e, t);
    assert EpochSound(s', t);
  }

  // ----- The steps of a recording thread -----

  lemma BeginStep(k: Settings, s: Sys, t: nat)
    requires Facts(k, s, t) && ThreadEnabled(s, Begin(t))
    ensures StepOk(k, s, ThreadApply(k, s, Begin(t)), t)
  {
    var th := s.threads[t].(pc := Checked);
    QuietOk(s, SetThread(s, t, th), t);
    hide StepOk;
    RecordStep(k, s, t, th);
  }

  lemma LockOwnStep(k: Settings, s: Sys, t: nat)
    requires Facts(k, s, t) && ThreadEnabled(s, LockOwn(t))
    ensures StepOk(k, s, ThreadApply(k, s, LockOwn(t)), t)
  {
    var th := s.threads[t].(pc := Encoding, hasCollector := true, first := !s.threads[t].hasCollector);
    QuietOk(s, SetThread(s, t, th), t);
    hide StepOk;
    RecordStep(k, s, t, th);
  }

  lemma EncodeStep(k: Settings, s: Sys, t: nat, n: nat, size: nat)
    requires Facts(k, s, t) && ThreadEnabled(s, Encode(t, n, size))
    ensures StepOk(k, s, ThreadApply(k, s, Encode(t, n, size)), t)
  {
    var s' := ThreadApply(k, s, Encode(t, n, size));
    EncodeKeepsEvents(s, t, n, s'.threads[t]);
    assert forall e :: Mark(s', e, t) == Mark(s, e, t);
    RecordStep(k, s, t, s'.threads[t]);
  }

  lemma LoadEpochStep(k: Settings, s: Sys, t: nat)
    requires Facts(k, s, t) && ThreadEnabled(s, LoadEpoch(t))
    ensures StepOk(k, s, ThreadApply(k, s, LoadEpoch(t)), t)
  {
    var th := s.threads[t].(pc := Loaded(s.drainEpoch));
    QuietOk(s, SetThread(s, t, th), t);
    hide StepOk;
    RecordStep(k, s, t, th);
  }

  /** The position a thread takes when its buffer is pushed. */
  predicate PushTo(k: Settings, s: Sys, t: nat, pc: ThreadPc)
    requires t < |s.threads|
  {
    || (s.threads[t].pc.Loaded? && pc == Pushed(s.threads[t].pc.current, Full(k, s)))
    || (s.threads[t].pc == Dying && pc == DropPushed(Full(k, s)))
  }

  lemma PushFacts(k: Settings, s: Sys, t: nat, pc: ThreadPc)
    requires Facts(k, s, t) && PushTo(k, s, t, pc)
    ensures k.capacity > 0 && MayStep(s, t) && !Busy(s, t) && ThreadOk(s, t)
    ensures !DrainHoldsLock(s, t) && (DrainHoldsArc(s, t) ==> pc.Pushed?)
    ensures ThreadFlag(s.threads[t]) == 0 && ThreadFlag(s.threads[t].(pc := pc)) == Flag(Full(k, s))
  {
  }

  /** Pushing a buffer is a step of its thread. */
  lemma FlushStepOk(k: Settings, s: Sys, t: nat, pc: ThreadPc)
    requires t < |s.threads| && Facts(k, s, t) && PushTo(k, s, t, pc)
    ensures StepOk(k, s, SetPc(FlushBuffer(k, s, t), t, pc), t)
  {
    hide *;
    PushFacts(k, s, t, pc);
    PushOk(k, s, t, pc);
    PushStep(k, s, t, pc);
  }

  lemma TestStep(k: Settings, s: Sys, t: nat)
    requires Facts(k, s, t) && ThreadEnabled(s, Test(t))
    ensures StepOk(k, s, ThreadApply(k, s, Test(t)), t)
  {
    var th := s.threads[t];
    if th.bytes >= k.batchSize || th.flushEpoch < th.pc.current {
      hide Facts, StepOk, FlushBuffer;
      FlushStepOk(k, s, t, Pushed(th.pc.current, Full(k, s)));
    } else {
      QuietOk(s, SetPc(s, t, Unlocking), t);
      hide StepOk;
      RecordStep(k, s, t, th.(pc := Unlocking));
    }
  }

  lemma CountOwnStep(k: Settings, s: Sys, t: nat)
    requires Facts(k, s, t) && ThreadEnabled(s, CountOwn(t))
    ensures StepOk(k, s, ThreadApply(k, s, CountOwn(t)), t)
  {
    var pc := Stamping(s.threads[t].pc.current);
    QuietOk(s, SetPc(CountIf(s, s.threads[t].pc.evicted), t, pc), t);
    hide StepOk;
    CountStep(k, s, t, pc);
  }

  lemma StampOwnStep(k: Settings, s: Sys, t: nat)
    requires Facts(k, s, t) && ThreadEnabled(s, StampOwn(t))
    ensures StepOk(k, s, ThreadApply(k, s, StampOwn(t)), t)
  {
    var th := s.threads[t].(pc := Unlocking, flushEpoch := s.threads[t].pc.current);
    assert forall e :: Mark(SetThread(s, t, th), e, t) == Mark(s, e, t);
    hide StepOk;
    RecordStep(k, s, t, th);
  }

  lemma UnlockStep(k: Settings, s: Sys, t: nat)
    requires Facts(k, s, t) && ThreadEnabled(s, Unlock(t))
    ensures StepOk(k, s, ThreadApply(k, s, Unlock(t)), t)
  {
    var th := s.threads[t];
    var th' := if th.first && t != FLUSH_THREAD then th.(pc := Registering)
               else th.(pc := Idle, first := false, returned := th.recorded);
    QuietOk(s, SetThread(s, t, th'), t);
    hide StepOk;
    RecordStep(k, s, t, th');
  }

  lemma RegisterStep(k: Settings, s: Sys, t: nat)
    requires Facts(k, s, t) && ThreadEnabled(s, Register(t))
    ensures StepOk(k, s, ThreadApply(k, s, Register(t)), t)
  {
    var s' := ThreadApply(k, s, Register(t));
    assert s'.handles[|s.handles|] == t;
    QuietOk(s, s', t);
    FlagsUpdate(s.threads, t, s'.threads[t]);
  }

  lemma ExitStep(k: Settings, s: Sys, t: nat)
    requires Facts(k, s, t) && ThreadEnabled(s, Exit(t))
    ensures StepOk(k, s, ThreadApply(k, s, Exit(t)), t)
  {
    var th := s.threads[t].(pc := if DrainHoldsArc(s, t) then HandedOver else Dying);
    QuietOk(s, SetThread(s, t, th), t);
    hide StepOk;
    RecordStep(k, s, t, th);
  }

  lemma DropBufferStep(k: Settings, s: Sys, t: nat)
    requires Facts(k, s, t) && ThreadEnabled(s, DropBuffer(t))
    ensures StepOk(k, s, ThreadApply(k, s, DropBuffer(t)), t)
  {
    if s.threads[t].events == [] {
      QuietOk(s, SetPc(s, t, Gone), t);
      hide StepOk;
      RecordStep(k, s, t, s.threads[t].(pc := Gone));
    } else {
      hide Facts, StepOk, FlushBuffer;
      FlushStepOk(k, s, t, DropPushed(Full(k, s)));
    }
  }

  lemma CountDropStep(k: Settings, s: Sys, t: nat)
    requires Facts(k, s, t) && ThreadEnabled(s, CountDrop(t))
    ensures StepOk(k, s, ThreadApply(k, s, CountDrop(t)), t)
  {
    QuietOk(s, SetPc(CountIf(s, s.threads[t].pc.evicted), t, Gone), t);
    hide StepOk;
    CountStep(k, s, t, Gone);
  }

  /** The thread an enabled action concerns, and what it does to it. */
  lemma ThreadActionStep(k: Settings, s: Sys, a: Action) returns (t: nat)
    requires Inv(k, s) && ThreadEnabled(s, a)
    ensures StepOk(k, s, ThreadApply(k, s, a), t)
  {
    hide Inv, Facts, StepOk;
    match a
    case Begin(u) => t := u; InvFacts(k, s, u); BeginStep(k, s, u);
    case LockOwn(u) => t := u; InvFacts(k, s, u); LockOwnStep(k, s, u);
    case Encode(u, n, size) => t := u; InvFacts(k, s, u); EncodeStep(k, s, u, n, size);
    case LoadEpoch(u) => t := u; InvFacts(k, s, u); LoadEpochStep(k, s, u);
    case Test(u) => t := u; InvFacts(k, s, u); TestStep(k, s, u);
    case CountOwn(u) => t := u; InvFacts(k, s, u); CountOwnStep(k, s, u);
    case StampOwn(u) => t := u; InvFacts(k, s, u); StampOwnStep(k, s, u);
    case Unlock(u) => t := u; InvFacts(k, s, u); UnlockStep(k, s, u);
    case Register(u) => t := u; InvFacts(k, s, u); RegisterStep(k, s, u);
    case Exit(u) => t := u; InvFacts(k, s, u); ExitStep(k, s, u);
    case DropBuffer(u) => t := u; InvFacts(k, s, u); DropBufferStep(k, s, u);
    case CountDrop(u) => t := u; InvFacts(k, s, u); CountDropStep(k, s, u);
  }

  lemma ThreadActionKeeps(k: Settings, s: Sys, a: Action)
    requires Inv(k, s) && ThreadEnabled(s, a)
    ensures Inv(k, ThreadApply(k, s, a))
  {
    var t := ThreadActionStep(k, s, a);
    InvFrame(k, s, ThreadApply(k, s, a), t);
  }
}
