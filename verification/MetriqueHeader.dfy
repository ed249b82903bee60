/**
 The header of a recorded metrique event, told from the descriptor's field names and the callbacks
 alone (dial9-metrique/src/plan.rs, writer.rs).
 */
module MetriqueHeader {
  import opened Wrappers
  import opened MetriquePlan
  import opened MetriqueCapture
  import opened MetriqueWalk
  import opened MetriqueRefinement

  /** The first context field with this base name. */
  ghost predicate FirstContext(fields: seq<Field>, base: string, i: nat) {
    && i < |fields| && fields[i].context && fields[i].baseName == base
    && forall j :: 0 <= j < i ==> !(fields[j].context && fields[j].baseName == base)
  }

  /** The value is written as a metric whose first observation is the unsigned `v`. */
  predicate WritesUnsigned(w: ValueWrite, v: nat) {
    w.One? && w.write.Metric? && |w.write.observations| > 0 && w.write.observations[0].Unsigned? && w.write.observations[0].v == v
  }

  /** The first context field with this base name wrote `v`. */
  ghost predicate ContextWrote(fields: seq<Field>, writes: seq<ValueWrite>, base: string, v: nat)
    requires |fields| == |writes|
  {
    exists i: nat :: FirstContext(fields, base, i) && WritesUnsigned(writes[i], v)
  }

  /** The first context field with this base name exists and wrote an unsigned value. */
  ghost predicate ContextGiven(fields: seq<Field>, writes: seq<ValueWrite>, base: string)
    requires |fields| == |writes|
  {
    exists v: nat :: ContextWrote(fields, writes, base, v)
  }

  /** The captured value of a role, and the field it comes from by name. */
  lemma RoleWrote(fields: seq<Field>, writes: seq<ValueWrite>, role: Role, base: string, v: Option<U64>)
    requires |fields| == |writes| && FromRole(fields, writes, role, v)
    requires forall name :: RoleOf(name) == Some(role) <==> name == base
    ensures v.Some? ==> ContextWrote(fields, writes, base, v.value)
    ensures v.None? ==> !ContextGiven(fields, writes, base)
    ensures HasRole(fields, writes, role) <==> ContextGiven(fields, writes, base)
  {
    assert forall i: nat | i < |fields| :: Routed(fields, i) && RoleOf(fields[i].baseName) == Some(role) <==> FirstContext(fields, base, i);
    hide Routed, RoleOf, FirstContext;
    if v.Some? {
      var i: nat :| i < |fields| && Routed(fields, i) && RoleOf(fields[i].baseName) == Some(role);
      assert FirstContext(fields, base, i) && WritesUnsigned(writes[i], v.value);
      assert ContextWrote(fields, writes, base, v.value);
    }
  }

  /** The last timestamp callback reported `v` nanoseconds since the epoch, within 64 bits. */
  ghost predicate ClockIs(callbacks: seq<Callback>, v: nat) {
    v < 0x1_0000_0000_0000_0000 && exists i :: LastTimestamp(callbacks, i) && callbacks[i].nanos == v
  }

  predicate LastTimestamp(callbacks: seq<Callback>, i: int) {
    0 <= i < |callbacks| && callbacks[i].Timestamp? && forall j :: i < j < |callbacks| ==> !callbacks[j].Timestamp?
  }

  lemma {:induction false} ClockIsLast(callbacks: seq<Callback>, v: nat)
    ensures ClockIs(callbacks, v) <==> LastClock(callbacks) == Some(v)
  {
    if |callbacks| != 0 {
      var n := |callbacks| - 1;
      if callbacks[n].Timestamp? {
        assert LastTimestamp(callbacks, n);
      } else {
        ClockIsLast(callbacks[..n], v);
        assert forall i :: LastTimestamp(callbacks, i) <==> LastTimestamp(callbacks[..n], i);
      }
    }
  }

  /** The timestamp and the header slots of an event, by the names of the context fields. */
  ghost predicate HeaderByName(fields: seq<Field>, writes: seq<ValueWrite>, callbacks: seq<Callback>, values: seq<FieldValue>)
    requires |fields| == |writes|
  {
    && |values| >= 5
    && (exists start: nat, end: nat ::
          && ContextWrote(fields, writes, "dial9.monotonic_ns_start", start)
          && ContextWrote(fields, writes, "dial9.monotonic_ns_end", end)
          && values[0] == Varint(end) && values[3] == Varint(if end >= start then end - start else 0))
    && (exists thread: nat :: ContextWrote(fields, writes, "dial9.thread_id", thread) && values[1] == Varint(thread))
    && (if ContextGiven(fields, writes, "dial9.tokio.task_id")
        then exists task: nat :: ContextWrote(fields, writes, "dial9.tokio.task_id", task) && values[2] == Varint(task)
        else values[2] == NoValue)
    && (if exists clock: nat :: ClockIs(callbacks, clock)
        then exists clock: nat :: ClockIs(callbacks, clock) && values[4] == Varint(clock)
        else values[4] == NoValue)
  }

  lemma CompleteRole(p: Plan, fields: seq<Field>, writes: seq<ValueWrite>, s: Walk, role: Role)
    requires Complete(p, fields, writes, s)
    ensures |fields| == |writes| && FromRole(fields, writes, role, RoleValue(s.ctx, role))
  {
  }

  /** What the four roles captured, by name. */
  lemma RolesWrote(p: Plan, fields: seq<Field>, writes: seq<ValueWrite>, s: Walk)
    requires Complete(p, fields, writes, s) && |fields| == |writes|
    ensures s.ctx.threadId.Some? ==> ContextWrote(fields, writes, "dial9.thread_id", s.ctx.threadId.value)
    ensures s.ctx.taskId.Some? ==> ContextWrote(fields, writes, "dial9.tokio.task_id", s.ctx.taskId.value)
    ensures s.ctx.monotonicStart.Some? ==> ContextWrote(fields, writes, "dial9.monotonic_ns_start", s.ctx.monotonicStart.value)
    ensures s.ctx.monotonicEnd.Some? ==> ContextWrote(fields, writes, "dial9.monotonic_ns_end", s.ctx.monotonicEnd.value)
    ensures s.ctx.threadId.Some? <==> ContextGiven(fields, writes, "dial9.thread_id")
    ensures s.ctx.taskId.Some? <==> ContextGiven(fields, writes, "dial9.tokio.task_id")
    ensures s.ctx.monotonicStart.Some? <==> ContextGiven(fields, writes, "dial9.monotonic_ns_start")
    ensures s.ctx.monotonicEnd.Some? <==> ContextGiven(fields, writes, "dial9.monotonic_ns_end")
  {
    RoleNames();
    assert RoleValue(s.ctx, ThreadId) == s.ctx.threadId;
    assert RoleValue(s.ctx, TaskId) == s.ctx.taskId;
    assert RoleValue(s.ctx, MonotonicStart) == s.ctx.monotonicStart;
    assert RoleValue(s.ctx, MonotonicEnd) == s.ctx.monotonicEnd;
    hide *;
    CompleteRole(p, fields, writes, s, ThreadId);
    CompleteRole(p, fields, writes, s, TaskId);
    CompleteRole(p, fields, writes, s, MonotonicStart);
    CompleteRole(p, fields, writes, s, MonotonicEnd);
    RoleWrote(fields, writes, ThreadId, "dial9.thread_id", s.ctx.threadId);
    RoleWrote(fields, writes, TaskId, "dial9.tokio.task_id", s.ctx.taskId);
    RoleWrote(fields, writes, MonotonicStart, "dial9.monotonic_ns_start", s.ctx.monotonicStart);
    RoleWrote(fields, writes, MonotonicEnd, "dial9.monotonic_ns_end", s.ctx.monotonicEnd);
  }

  lemma HeaderFilled(ctx: ContextValues, values: seq<FieldValue>)
    requires ctx.threadId.Some? && ctx.monotonicStart.Some? && ctx.monotonicEnd.Some?
    requires |values| >= |PLACEHOLDERS| && values[..|PLACEHOLDERS|] == HeaderValues(ctx)
    ensures var start, end := ctx.monotonicStart.value, ctx.monotonicEnd.value;
      && |values| >= 5 && values[0] == Varint(end) && values[1] == Varint(ctx.threadId.value)
      && values[2] == (if ctx.taskId.Some? then Varint(ctx.taskId.value) else NoValue)
      && values[3] == Varint(if end >= start then end - start else 0)
      && values[4] == (if ctx.wallClock.Some? then Varint(ctx.wallClock.value) else NoValue)
  {
    assert forall k :: 0 <= k < 5 ==> values[k] == values[..|PLACEHOLDERS|][k];
  }

  /**
   The header of every recorded event: its timestamp is what the first context field named
   `dial9.monotonic_ns_end` wrote, then come the thread, a tokio task if one was given, the time from
   start to end, zero if they are out of order, and the last representable wall clock.
   */
  lemma HeaderIsByName(segments: seq<Segment>, suffix: string, usedNames: set<string>, pool: seq<string>, callbacks: seq<Callback>)
    requires Outcome(segments, suffix, usedNames, pool, callbacks).Ok?
    ensures |FieldsOf(segments)| == |Writes(callbacks)|
    ensures HeaderByName(FieldsOf(segments), Writes(callbacks), callbacks, Outcome(segments, suffix, usedNames, pool, callbacks).values)
  {
    var p, fields, writes := PlanOf(segments, suffix, usedNames), FieldsOf(segments), Writes(callbacks);
    var s := AfterAll(p.actions, pool, callbacks);
    var values := Outcome(segments, suffix, usedNames, pool, callbacks).values;
    CanFinish(segments, suffix, usedNames, pool, callbacks);
    assert Finished(p, s) == Ok(values);
    hide *;
    MismatchIffCount(segments, suffix, usedNames, pool, callbacks);
    CompleteFacts(segments, suffix, usedNames, pool, callbacks);
    CompleteCanFinish(p, fields, writes, s);
    OkValues(p, s, values);
    HeaderFilled(s.ctx, values);
    RolesWrote(p, fields, writes, s);
    forall v: nat
      ensures ClockIs(callbacks, v) <==> s.ctx.wallClock == Some(v)
    {
      ClockIsLast(callbacks, v);
    }
    HeaderFromParts(fields, writes, callbacks, s.ctx, values);
  }

  lemma HeaderFromParts(fields: seq<Field>, writes: seq<ValueWrite>, callbacks: seq<Callback>, ctx: ContextValues, values: seq<FieldValue>)
    requires |fields| == |writes| && |values| >= 5
    requires ctx.threadId.Some? && ctx.monotonicStart.Some? && ctx.monotonicEnd.Some?
    requires ContextWrote(fields, writes, "dial9.thread_id", ctx.threadId.value)
    requires ContextWrote(fields, writes, "dial9.monotonic_ns_start", ctx.monotonicStart.value)
    requires ContextWrote(fields, writes, "dial9.monotonic_ns_end", ctx.monotonicEnd.value)
    requires ctx.taskId.Some? ==> ContextWrote(fields, writes, "dial9.tokio.task_id", ctx.taskId.value)
    requires ctx.taskId.Some? <==> ContextGiven(fields, writes, "dial9.tokio.task_id")
    requires forall v: nat :: ClockIs(callbacks, v) <==> ctx.wallClock == Some(v)
    requires var start, end := ctx.monotonicStart.value, ctx.monotonicEnd.value;
      && values[0] == Varint(end) && values[1] == Varint(ctx.threadId.value)
      && values[2] == (if ctx.taskId.Some? then Varint(ctx.taskId.value) else NoValue)
      && values[3] == Varint(if end >= start then end - start else 0)
      && values[4] == (if ctx.wallClock.Some? then Varint(ctx.wallClock.value) else NoValue)
    ensures HeaderByName(fields, writes, callbacks, values)
  {
    hide ContextWrote, ContextGiven, ClockIs;
    if ctx.wallClock.Some? {
      assert ClockIs(callbacks, ctx.wallClock.value);
    }
  }

  /**
   Why an entry with the right number of values, all delivered, is not recorded: the first of
   thread, start and end whose context field gave no unsigned value, by its name.
   */
  lemma MissingContextIsFirst(segments: seq<Segment>, suffix: string, usedNames: set<string>, pool: seq<string>, callbacks: seq<Callback>)
    requires |FieldsOf(segments)| == |Writes(callbacks)|
    ensures var fields, writes, outcome := FieldsOf(segments), Writes(callbacks), Outcome(segments, suffix, usedNames, pool, callbacks);
      var thread, start, end := ContextGiven(fields, writes, "dial9.thread_id"),
        ContextGiven(fields, writes, "dial9.monotonic_ns_start"), ContextGiven(fields, writes, "dial9.monotonic_ns_end");
      && (outcome.Ok? ==> thread && start && end)
      && (outcome.MissingContext? ==>
            outcome.field == (if !thread then "dial9.thread_id" else if !start then "dial9.monotonic_ns_start" else "dial9.monotonic_ns_end"))
      && (outcome.MissingContext? ==> !(thread && start && end))
  {
    var p, fields, writes := PlanOf(segments, suffix, usedNames), FieldsOf(segments), Writes(callbacks);
    var s := AfterAll(p.actions, pool, callbacks);
    hide *;
    OutcomeIs(segments, suffix, usedNames, pool, callbacks);
    CompleteFacts(segments, suffix, usedNames, pool, callbacks);
    RolesWrote(p, fields, writes, s);
    FinishedContext(p, s);
  }

  lemma FinishedContext(p: Plan, s: Walk)
    requires s.missingRequired.Some? ==> |HEADERS| + s.missingRequired.value < |p.fields|
    requires |s.values| >= |PLACEHOLDERS|
    ensures Finished(p, s).Ok? ==> s.ctx.threadId.Some? && s.ctx.monotonicStart.Some? && s.ctx.monotonicEnd.Some?
    ensures Finished(p, s).MissingContext? ==>
      && (s.ctx.threadId.None? || s.ctx.monotonicStart.None? || s.ctx.monotonicEnd.None?)
      && Finished(p, s).field == (if s.ctx.threadId.None? then "dial9.thread_id"
                                  else if s.ctx.monotonicStart.None? then "dial9.monotonic_ns_start"
                                  else "dial9.monotonic_ns_end")
  {
  }

  /** Every schema starts with these four fields, in the order in which the header slots follow the timestamp. */
  lemma SchemaStarts(segments: seq<Segment>, suffix: string, usedNames: set<string>)
    ensures var fields := PlanOf(segments, suffix, usedNames).fields;
      && |fields| >= 4
      && fields[0] == FieldDef("dial9.thread_id", FieldType(VarintType, false))
      && fields[1] == FieldDef("dial9.tokio.task_id", FieldType(VarintType, true))
      && fields[2] == FieldDef("dial9.span.duration_ns", FieldType(VarintType, false))
      && fields[3] == FieldDef("dial9.wall_clock_ns", FieldType(VarintType, true))
  {
    var fields := PlanOf(segments, suffix, usedNames).fields;
    PlanFollowsDescriptor(segments, suffix, usedNames);
    assert forall k :: 0 <= k < 4 ==> fields[k] == fields[..|HEADERS|][k];
  }

  /** A role was captured exactly if its context field, found by name, gave a value. */
  lemma HasRoleGiven(fields: seq<Field>, writes: seq<ValueWrite>, role: Role, base: string)
    requires |fields| == |writes| && (forall name :: RoleOf(name) == Some(role) <==> name == base)
    ensures HasRole(fields, writes, role) <==> ContextGiven(fields, writes, base)
  {
    assert forall i: nat | i < |fields| :: Routed(fields, i) && RoleOf(fields[i].baseName) == Some(role) <==> FirstContext(fields, base, i);
    hide Routed, RoleOf, FirstContext;
    if HasRole(fields, writes, role) {
      var i: nat :| i < |fields| && Routed(fields, i) && RoleOf(fields[i].baseName) == Some(role) && CaptureU64(writes[i]).Some?;
      assert FirstContext(fields, base, i) && WritesUnsigned(writes[i], CaptureU64(writes[i]).value);
      assert ContextWrote(fields, writes, base, CaptureU64(writes[i]).value);
    }
  }

  /**
   An event is recorded exactly if as many values are written as the descriptor has fields, every
   recorded field delivers a value or is optional, and the first context fields named for thread,
   start and end wrote unsigned values.
   */
  lemma RecordedByName(segments: seq<Segment>, suffix: string, usedNames: set<string>, pool: seq<string>, callbacks: seq<Callback>)
    ensures var fields, writes := FieldsOf(segments), Writes(callbacks);
      Outcome(segments, suffix, usedNames, pool, callbacks).Ok? <==>
        && |writes| == |fields|
        && (forall i :: 0 <= i < |fields| && Recorded(fields, i) ==> Delivers(ActionOf(fields, i), writes[i]))
        && ContextGiven(fields, writes, "dial9.thread_id")
        && ContextGiven(fields, writes, "dial9.monotonic_ns_start")
        && ContextGiven(fields, writes, "dial9.monotonic_ns_end")
  {
    var fields, writes := FieldsOf(segments), Writes(callbacks);
    RecordedIff(segments, suffix, usedNames, pool, callbacks);
    RoleNames();
    hide FieldsOf, Writes, Outcome, RoleOf, HasRole, ContextGiven, Delivers, Recorded;
    if |writes| == |fields| {
      HasRoleGiven(fields, writes, ThreadId, "dial9.thread_id");
      HasRoleGiven(fields, writes, MonotonicStart, "dial9.monotonic_ns_start");
      HasRoleGiven(fields, writes, MonotonicEnd, "dial9.monotonic_ns_end");
    }
  }
}
