/**
 The positional walk refines looking values up by name: what an event holds, when it is dropped
 and why (dial9-metrique/src/plan.rs, writer.rs).
 */
module MetriqueRefinement {
  import opened Numbers
  import opened Wrappers
  import opened MetriquePlan
  import opened MetriqueCapture
  import opened MetriqueWalk

  // ----- What the callbacks were -----

  /** The values written, in callback order. */
  function Writes(callbacks: seq<Callback>): seq<ValueWrite> {
    if |callbacks| == 0 then []
    else
      var last := callbacks[|callbacks| - 1];
      Writes(callbacks[..|callbacks| - 1]) + (if last.ValueOf? then [last.write] else [])
  }

  /** The last wall clock reported. */
  function LastClock(callbacks: seq<Callback>): Option<U64> {
    if |callbacks| == 0 then None
    else
      var last := callbacks[|callbacks| - 1];
      if last.Timestamp? then WallClockOf(last.nanos) else LastClock(callbacks[..|callbacks| - 1])
  }

  /** The positions of the payload actions. */
  function PayloadSlots(actions: seq<FieldAction>): (slots: seq<nat>)
    ensures forall k :: 0 <= k < |slots| ==> slots[k] < |actions| && actions[slots[k]].Payload?
  {
    if |actions| == 0 then []
    else
      var n := |actions| - 1;
      PayloadSlots(actions[..n]) + (if actions[n].Payload? then [n] else [])
  }

  /** What was captured for a role by the first `n` values. */
  function RoleCapture(actions: seq<FieldAction>, writes: seq<ValueWrite>, role: Role, n: nat): Option<U64>
    requires n <= |actions| && n <= |writes|
  {
    if n == 0 then None
    else if actions[n - 1] == Context(role) then CaptureU64(writes[n - 1])
    else RoleCapture(actions, writes, role, n - 1)
  }

  // ----- What the walk has done -----

  /** The value meets the payload action: it has a wire value, or may be absent. */
  predicate Delivers(a: FieldAction, w: ValueWrite)
    requires a.Payload?
  {
    a.optional || ValueMeaning(a.kind, w).Value?
  }

  /** The wire value recorded for a payload action: what was written, in range, or nothing if that is allowed. */
  predicate RecordedAs(pool: seq<string>, a: FieldAction, w: ValueWrite, v: FieldValue)
    requires a.Payload?
  {
    match ValueMeaning(a.kind, w)
    case Value(m) => MeaningIn(pool, v) == m && FitsKind(|pool|, a.kind, v)
    case _ => a.optional && v == NoValue
  }

  ghost predicate Positioned(actions: seq<FieldAction>, writes: seq<ValueWrite>, s: Walk) {
    && s.next == Min(|writes|, |actions|)
    && (s.overflowed <==> |writes| > |actions|)
    && s.payloadSeen == |PayloadSlots(actions[..s.next])|
    && |s.values| >= |PLACEHOLDERS| && s.values[..|PLACEHOLDERS|] == PLACEHOLDERS
  }

  ghost predicate RolesOk(actions: seq<FieldAction>, writes: seq<ValueWrite>, s: Walk)
    requires s.next <= |actions| && s.next <= |writes|
  {
    forall role :: RoleValue(s.ctx, role) == RoleCapture(actions, writes, role, s.next)
  }

  /** The first payload field that did not deliver, if any; while none is missing, all are recorded in order. */
  ghost predicate PayloadOk(actions: seq<FieldAction>, writes: seq<ValueWrite>, s: Walk)
    requires s.next <= |actions| && s.next <= |writes| && |s.values| >= |PLACEHOLDERS|
  {
    var slots := PayloadSlots(actions[..s.next]);
    match s.missingRequired
    case None =>
      && |s.values| == |PLACEHOLDERS| + |slots|
      && (forall k :: 0 <= k < |slots| ==>
            && Delivers(actions[slots[k]], writes[slots[k]])
            && RecordedAs(s.pool, actions[slots[k]], writes[slots[k]], s.values[|PLACEHOLDERS| + k]))
    case Some(m) =>
      && m < |slots| && !Delivers(actions[slots[m]], writes[slots[m]])
      && (forall k :: 0 <= k < m ==> Delivers(actions[slots[k]], writes[slots[k]]))
  }

  ghost predicate WalkOk(actions: seq<FieldAction>, writes: seq<ValueWrite>, s: Walk) {
    Positioned(actions, writes, s) && RolesOk(actions, writes, s) && PayloadOk(actions, writes, s)
  }

  lemma SlotsNext(actions: seq<FieldAction>, n: nat)
    requires n < |actions|
    ensures PayloadSlots(actions[..n + 1]) == PayloadSlots(actions[..n]) + (if actions[n].Payload? then [n] else [])
  {
    assert actions[..n + 1][..n] == actions[..n];
  }

  lemma {:induction false} RolePrefix(actions: seq<FieldAction>, writes: seq<ValueWrite>, w: ValueWrite, role: Role, n: nat)
    requires n <= |actions| && n <= |writes|
    ensures RoleCapture(actions, writes + [w], role, n) == RoleCapture(actions, writes, role, n)
  {
    if n != 0 {
      RolePrefix(actions, writes, w, role, n - 1);
    }
  }

  lemma ValuePositioned(actions: seq<FieldAction>, writes: seq<ValueWrite>, s: Walk, w: ValueWrite)
    requires Positioned(actions, writes, s)
    ensures Positioned(actions, writes + [w], AfterValue(actions, s, w))
  {
    if s.next < |actions| {
      SlotsNext(actions, s.next);
    }
  }

  lemma ValueRoles(actions: seq<FieldAction>, writes: seq<ValueWrite>, s: Walk, w: ValueWrite)
    requires Positioned(actions, writes, s) && RolesOk(actions, writes, s)
    requires Positioned(actions, writes + [w], AfterValue(actions, s, w))
    ensures RolesOk(actions, writes + [w], AfterValue(actions, s, w))
  {
    var s' := AfterValue(actions, s, w);
    hide Capture;
    forall role
      ensures RoleValue(s'.ctx, role) == RoleCapture(actions, writes + [w], role, s'.next)
    {
      RolePrefix(actions, writes, w, role, s.next);
      assert s.next < |actions| ==> (writes + [w])[s.next] == w;
    }
  }

  /** Recorded values keep their meaning while the pool grows. */
  lemma RecordedGrows(pool: seq<string>, grown: seq<string>, a: FieldAction, w: ValueWrite, v: FieldValue)
    requires a.Payload? && pool <= grown && RecordedAs(pool, a, w, v)
    ensures RecordedAs(grown, a, w, v)
  {
    if ValueMeaning(a.kind, w).Value? {
      FittingLasts(pool, grown, a.kind, v);
    }
  }

  /** The first slots of the longer prefix are those of the shorter one. */
  lemma PayloadPrefix(actions: seq<FieldAction>, writes: seq<ValueWrite>, w: ValueWrite, s: Walk, s': Walk)
    requires s.next < |actions| && s.next <= |writes| && |s.values| >= |PLACEHOLDERS| && PayloadOk(actions, writes, s)
    requires !actions[s.next].Payload?
    requires s' == s.(next := s.next + 1, ctx := s'.ctx)
    ensures PayloadOk(actions, writes + [w], s')
  {
    SlotsNext(actions, s.next);
  }

  /** Capturing the value of a payload action. */
  lemma PayloadStep(actions: seq<FieldAction>, writes: seq<ValueWrite>, w: ValueWrite, s: Walk)
    requires s.next < |actions| && s.next == |writes| && |s.values| >= |PLACEHOLDERS| && PayloadOk(actions, writes, s)
    requires actions[s.next].Payload? && s.payloadSeen == |PayloadSlots(actions[..s.next])|
    ensures var s' := AfterPayload(s.(next := s.next + 1), actions[s.next].optional, actions[s.next].kind, w);
      s'.next == s.next + 1 && |s'.values| >= |PLACEHOLDERS| && PayloadOk(actions, writes + [w], s')
  {
    var a := actions[s.next];
    var s' := AfterPayload(s.(next := s.next + 1), a.optional, a.kind, w);
    var slots := PayloadSlots(actions[..s.next]);
    SlotsNext(actions, s.next);
    CaptureMeans(s.pool, a.kind, w);
    hide Capture, ValueMeaning;
    if s.missingRequired.None? {
      forall k | 0 <= k < |slots|
        ensures RecordedAs(s'.pool, actions[slots[k]], writes[slots[k]], s.values[|PLACEHOLDERS| + k])
      {
        RecordedGrows(s.pool, s'.pool, actions[slots[k]], writes[slots[k]], s.values[|PLACEHOLDERS| + k]);
      }
    }
  }

  lemma ValueKeeps(actions: seq<FieldAction>, writes: seq<ValueWrite>, s: Walk, w: ValueWrite)
    requires WalkOk(actions, writes, s)
    ensures WalkOk(actions, writes + [w], AfterValue(actions, s, w))
  {
    ValuePositioned(actions, writes, s, w);
    ValueRoles(actions, writes, s, w);
    hide Positioned, RolesOk;
    var s' := AfterValue(actions, s, w);
    assert s.next == Min(|writes|, |actions|) && |s.values| >= |PLACEHOLDERS|;
    if s.next < |actions| {
      if actions[s.next].Payload? {
        PayloadStep(actions, writes, w, s);
      } else {
        PayloadPrefix(actions, writes, w, s, s');
      }
    }
  }

  /** Timestamps only set the wall clock. */
  lemma ClockKeeps(actions: seq<FieldAction>, writes: seq<ValueWrite>, s: Walk, nanos: int)
    requires WalkOk(actions, writes, s)
    ensures WalkOk(actions, writes, AfterCallback(actions, s, Timestamp(nanos)))
  {
    var s' := AfterCallback(actions, s, Timestamp(nanos));
    assert forall role :: RoleValue(s'.ctx, role) == RoleValue(s.ctx, role);
  }

  lemma ValueClock(actions: seq<FieldAction>, s: Walk, w: ValueWrite)
    ensures AfterValue(actions, s, w).ctx.wallClock == s.ctx.wallClock
  {
  }

  /** Every walk does what its callbacks and its actions call for. */
  lemma {:induction false} WalkReads(actions: seq<FieldAction>, pool: seq<string>, callbacks: seq<Callback>)
    ensures var s := AfterAll(actions, pool, callbacks);
      WalkOk(actions, Writes(callbacks), s) && s.ctx.wallClock == LastClock(callbacks)
  {
    if |callbacks| == 0 {
      assert actions[..0] == [];
    } else {
      var n := |callbacks| - 1;
      WalkReads(actions, pool, callbacks[..n]);
      var s := AfterAll(actions, pool, callbacks[..n]);
      hide WalkOk, AfterValue;
      match callbacks[n]
      case Timestamp(nanos) =>
        ClockKeeps(actions, Writes(callbacks[..n]), s, nanos);
        assert Writes(callbacks) == Writes(callbacks[..n]);
      case ValueOf(_, w) =>
        ValueKeeps(actions, Writes(callbacks[..n]), s, w);
        ValueClock(actions, s, w);
    }
  }

  // ----- By name -----

  /** What a wire value stands for under a schema field's type: absent only where the type is optional. */
  predicate Fits(size: nat, t: FieldType, v: FieldValue) {
    || (t.optional && v == NoValue)
    || (match t.base
        case I64Type => v.I64? && I64_MIN <= v.i < I64_BOUND
        case F64Type => v.F64?
        case BoolType => v.Bool?
        case StringType => v.String?
        case PooledStringType => v.PooledString? && v.id < size
        case VarintType => v.Varint? && v.u < U64_LIMIT
        case DynamicListType => v.ListValue?)
  }

  /** The field recorded under a name: the first eligible one. */
  ghost predicate NamedBy(fields: seq<Field>, name: string, i: nat) {
    i < |fields| && Recorded(fields, i) && fields[i].name == name
  }

  lemma NamedOnce(fields: seq<Field>, name: string, i: nat, j: nat)
    requires NamedBy(fields, name, i) && NamedBy(fields, name, j)
    ensures i == j
  {
  }

  /** The kind of capture determines the wire type, so a recorded value fits its schema field. */
  lemma RecordedFits(f: Field, pool: seq<string>, w: ValueWrite, v: FieldValue)
    requires ResolveShape(f.shape, f.interned).Some?
    requires var (t, kind) := ResolveShape(f.shape, f.interned).value; RecordedAs(pool, Payload(t.optional, kind), w, v)
    ensures Fits(|pool|, ResolveShape(f.shape, f.interned).value.0, v)
  {
    var (t, kind) := ResolveShape(f.shape, f.interned).value;
    hide ValueMeaning;
    if ValueMeaning(kind, w).Value? {
      assert FitsKind(|pool|, kind, v);
    }
  }

  /** The payload positions are the recorded fields' positions. */
  lemma {:induction false} SlotsAgree(fields: seq<Field>, actions: seq<FieldAction>)
    requires |actions| == |fields| && forall i :: 0 <= i < |fields| ==> actions[i] == ActionOf(fields, i)
    ensures PayloadSlots(actions) == Slots(fields)
  {
    if |fields| != 0 {
      var n := |fields| - 1;
      assert fields[..n] + [fields[n]] == fields;
      forall i: nat | i < n
        ensures actions[..n][i] == ActionOf(fields[..n], i)
      {
        PrefixActions(fields[..n], fields[n], i);
      }
      SlotsAgree(fields[..n], actions[..n]);
    }
  }

  lemma {:induction false} SlotsMonotone(actions: seq<FieldAction>, n: nat)
    requires n <= |actions|
    ensures PayloadSlots(actions[..n]) <= PayloadSlots(actions)
    decreases |actions|
  {
    if n == |actions| {
      assert actions[..n] == actions;
    } else {
      var m := |actions| - 1;
      assert actions[..m][..n] == actions[..n];
      SlotsMonotone(actions[..m], n);
    }
  }

  /** A role's capture is that of the field routed to it, and nothing without one. */
  lemma {:induction false} RoleByName(fields: seq<Field>, actions: seq<FieldAction>, writes: seq<ValueWrite>, role: Role, n: nat)
    requires |actions| == |fields| == |writes| && n <= |fields|
    requires forall i :: 0 <= i < |fields| ==> actions[i] == ActionOf(fields, i)
    ensures forall i :: 0 <= i < n && Routed(fields, i) && RoleOf(fields[i].baseName) == Some(role) ==>
      RoleCapture(actions, writes, role, n) == CaptureU64(writes[i])
    ensures (forall i :: 0 <= i < n && Routed(fields, i) ==> RoleOf(fields[i].baseName) != Some(role)) ==>
      RoleCapture(actions, writes, role, n) == None
  {
    if n != 0 {
      RoleByName(fields, actions, writes, role, n - 1);
    }
  }

  /** The captured value of the context field routed to a role. */
  ghost predicate FromRole(fields: seq<Field>, writes: seq<ValueWrite>, role: Role, v: Option<U64>)
    requires |fields| == |writes|
  {
    && (forall i :: 0 <= i < |fields| && Routed(fields, i) && RoleOf(fields[i].baseName) == Some(role) ==> v == CaptureU64(writes[i]))
    && ((forall i :: 0 <= i < |fields| && Routed(fields, i) ==> RoleOf(fields[i].baseName) != Some(role)) ==> v == None)
  }

  /** The timestamp and header slots hold the wall clock and what the routed context fields captured. */
  ghost predicate IsHeader(fields: seq<Field>, writes: seq<ValueWrite>, clock: Option<U64>, values: seq<FieldValue>)
    requires |fields| == |writes|
  {
    exists ctx: ContextValues {:trigger HeaderValues(ctx)} ::
      && ctx.wallClock == clock
      && (forall role :: FromRole(fields, writes, role, RoleValue(ctx, role)))
      && ctx.threadId.Some? && ctx.monotonicStart.Some? && ctx.monotonicEnd.Some?
      && |values| >= |PLACEHOLDERS| && values[..|PLACEHOLDERS|] == HeaderValues(ctx)
  }

  /** The wire value found under a schema field's name, which one field only is recorded under. */
  ghost predicate SlotByName(fields: seq<Field>, schema: seq<FieldDef>, writes: seq<ValueWrite>, pool: seq<string>, values: seq<FieldValue>, k: nat)
    requires |fields| == |writes| && k < |schema| && |values| == 1 + |schema|
  {
    exists i: nat ::
      && NamedBy(fields, schema[k].name, i) && RecordedAs(pool, ActionOf(fields, i), writes[i], values[1 + k])
      && (forall j: nat :: NamedBy(fields, schema[k].name, j) ==> j == i)
  }

  /** The reference event: header slots from the routed context fields, payload slots looked up by name. */
  ghost predicate IsEvent(
      fields: seq<Field>, schema: seq<FieldDef>, writes: seq<ValueWrite>, clock: Option<U64>, pool: seq<string>, values: seq<FieldValue>)
    requires |fields| == |writes| && |schema| >= |HEADERS|
  {
    && |values| == 1 + |schema|
    && IsHeader(fields, writes, clock, values)
    && (forall k: nat :: |HEADERS| <= k < |schema| ==> SlotByName(fields, schema, writes, pool, values, k))
    && (forall k :: 0 <= k < |schema| ==> Fits(|pool|, schema[k].fieldType, values[1 + k]))
  }

  /** All facts about a plan and a completed walk that the theorem below needs. */
  lemma WalkFacts(segments: seq<Segment>, suffix: string, usedNames: set<string>, pool: seq<string>, callbacks: seq<Callback>)
    ensures var p, fields := PlanOf(segments, suffix, usedNames), FieldsOf(segments);
      var s := AfterAll(p.actions, pool, callbacks);
      && |p.actions| == |fields| && (forall i :: 0 <= i < |fields| ==> p.actions[i] == ActionOf(fields, i))
      && WalkOk(p.actions, Writes(callbacks), s)
      && PayloadSlots(p.actions) == Slots(fields) && PayloadSlots(p.actions[..s.next]) <= Slots(fields)
      && |p.fields| == |HEADERS| + |Slots(fields)|
  {
    var p, fields := PlanOf(segments, suffix, usedNames), FieldsOf(segments);
    PlanFollowsDescriptor(segments, suffix, usedNames);
    hide PlanOf, FieldsOf, AfterAll;
    WalkReads(p.actions, pool, callbacks);
    SlotsAgree(fields, p.actions);
    SlotsMonotone(p.actions, AfterAll(p.actions, pool, callbacks).next);
  }

  /** Finishing is always possible: a missing field has a schema entry to be named by. */
  lemma CanFinish(segments: seq<Segment>, suffix: string, usedNames: set<string>, pool: seq<string>, callbacks: seq<Callback>)
    ensures var p := PlanOf(segments, suffix, usedNames);
      var s := AfterAll(p.actions, pool, callbacks);
      && (s.missingRequired.Some? ==> |HEADERS| + s.missingRequired.value < |p.fields|)
      && |s.values| >= |PLACEHOLDERS|
  {
    WalkFacts(segments, suffix, usedNames, pool, callbacks);
    hide PlanOf, FieldsOf, AfterAll, PayloadSlots, Slots;
  }

  /** What finishing the walk of these callbacks against the descriptor's plan gives. */
  function Outcome(segments: seq<Segment>, suffix: string, usedNames: set<string>, pool: seq<string>, callbacks: seq<Callback>): Finish {
    CanFinish(segments, suffix, usedNames, pool, callbacks);
    Finished(PlanOf(segments, suffix, usedNames), AfterAll(PlanOf(segments, suffix, usedNames).actions, pool, callbacks))
  }

  /** The walk is refused as a mismatch exactly if the number of value callbacks differs from the descriptor's. */
  lemma MismatchIffCount(segments: seq<Segment>, suffix: string, usedNames: set<string>, pool: seq<string>, callbacks: seq<Callback>)
    ensures Outcome(segments, suffix, usedNames, pool, callbacks).PlanMismatch? <==> |Writes(callbacks)| != |FieldsOf(segments)|
  {
    WalkFacts(segments, suffix, usedNames, pool, callbacks);
    hide PlanOf, FieldsOf, AfterAll, PayloadSlots, Slots, RolesOk, PayloadOk;
  }

  /** A walk that consumed as many values as the descriptor has fields, against that descriptor's plan. */
  ghost predicate Complete(p: Plan, fields: seq<Field>, writes: seq<ValueWrite>, s: Walk) {
    && |p.actions| == |fields| == |writes| == s.next && !s.overflowed
    && (forall i :: 0 <= i < |fields| ==> p.actions[i] == ActionOf(fields, i))
    && PayloadSlots(p.actions) == Slots(fields) && p.actions[..s.next] == p.actions
    && |s.values| >= |PLACEHOLDERS| && PayloadOk(p.actions, writes, s)
    && (forall role :: FromRole(fields, writes, role, RoleValue(s.ctx, role)))
    && |p.fields| == |HEADERS| + |Slots(fields)| && p.fields[..|HEADERS|] == HEADERS
    && (forall k :: 0 <= k < |Slots(fields)| ==>
          && Recorded(fields, Slots(fields)[k])
          && p.fields[|HEADERS| + k] == DefOf(fields[Slots(fields)[k]]))
  }

  /** The walk's facts once the counts agree. */
  lemma CompleteFacts(segments: seq<Segment>, suffix: string, usedNames: set<string>, pool: seq<string>, callbacks: seq<Callback>)
    requires |Writes(callbacks)| == |FieldsOf(segments)|
    ensures var p := PlanOf(segments, suffix, usedNames);
      var s := AfterAll(p.actions, pool, callbacks);
      Complete(p, FieldsOf(segments), Writes(callbacks), s) && s.ctx.wallClock == LastClock(callbacks)
  {
    var p, fields, writes := PlanOf(segments, suffix, usedNames), FieldsOf(segments), Writes(callbacks);
    WalkFacts(segments, suffix, usedNames, pool, callbacks);
    PlanFollowsDescriptor(segments, suffix, usedNames);
    hide PlanOf, FieldsOf, AfterAll, PayloadSlots, Slots, Writes, LastClock, PayloadOk, RoleCapture;
    SlotsExact(fields);
    WalkReads(p.actions, pool, callbacks);
    forall role
      ensures FromRole(fields, writes, role, RoleValue(AfterAll(p.actions, pool, callbacks).ctx, role))
    {
      RoleByName(fields, p.actions, writes, role, |fields|);
    }
  }

  lemma HeadersFit(size: nat, ctx: ContextValues, values: seq<FieldValue>)
    requires ctx.threadId.Some? && ctx.monotonicStart.Some? && ctx.monotonicEnd.Some?
    requires |values| >= |PLACEHOLDERS| && values[..|PLACEHOLDERS|] == HeaderValues(ctx)
    ensures forall k :: 0 <= k < |HEADERS| ==> Fits(size, HEADERS[k].fieldType, values[1 + k])
  {
    assert forall k :: 0 <= k < |PLACEHOLDERS| ==> values[k] == values[..|PLACEHOLDERS|][k];
  }

  /** The payload part of a completed walk, by name. */
  lemma PayloadByName(fields: seq<Field>, schema: seq<FieldDef>, writes: seq<ValueWrite>, pool: seq<string>, values: seq<FieldValue>, k: nat)
    requires |fields| == |writes| && k < |Slots(fields)| && |schema| == |HEADERS| + |Slots(fields)| == |values| - 1
    requires var i := Slots(fields)[k];
      && Recorded(fields, i) && schema[|HEADERS| + k] == DefOf(fields[i])
      && RecordedAs(pool, ActionOf(fields, i), writes[i], values[|PLACEHOLDERS| + k])
    ensures SlotByName(fields, schema, writes, pool, values, |HEADERS| + k)
    ensures Fits(|pool|, schema[|HEADERS| + k].fieldType, values[1 + (|HEADERS| + k)])
  {
    var i := Slots(fields)[k];
    hide ResolveShape, ValueMeaning, MeaningIn, FitsKind, Fits;
    var name := schema[|HEADERS| + k].name;
    assert NamedBy(fields, name, i);
    forall j: nat | NamedBy(fields, name, j)
      ensures j == i
    {
      NamedOnce(fields, name, i, j);
    }
    RecordedFits(fields[i], pool, writes[i], values[|PLACEHOLDERS| + k]);
  }

  /** The values of a successful walk. */
  lemma OkValues(p: Plan, s: Walk, values: seq<FieldValue>)
    requires s.missingRequired.Some? ==> |HEADERS| + s.missingRequired.value < |p.fields|
    requires |s.values| >= |PLACEHOLDERS| && Finished(p, s) == Ok(values)
    ensures s.missingRequired.None? && s.ctx.threadId.Some? && s.ctx.monotonicStart.Some? && s.ctx.monotonicEnd.Some?
    ensures |values| == |s.values| && values[..|PLACEHOLDERS|] == HeaderValues(s.ctx)
    ensures forall k :: |PLACEHOLDERS| <= k < |values| ==> values[k] == s.values[k]
  {
    assert |HeaderValues(s.ctx)| == |PLACEHOLDERS|;
    forall k | |PLACEHOLDERS| <= k < |values|
      ensures values[k] == s.values[k]
    {
      assert values[k] == s.values[|PLACEHOLDERS|..][k - |PLACEHOLDERS|];
    }
  }

  lemma CompleteCanFinish(p: Plan, fields: seq<Field>, writes: seq<ValueWrite>, s: Walk)
    requires Complete(p, fields, writes, s)
    ensures s.missingRequired.Some? ==> |HEADERS| + s.missingRequired.value < |p.fields|
    ensures |s.values| >= |PLACEHOLDERS| && |p.fields| >= |HEADERS| && |fields| == |writes|
  {
    hide PayloadSlots, Slots, FromRole, Recorded, RecordedAs, Delivers;
  }

  lemma CompleteSlot(p: Plan, fields: seq<Field>, writes: seq<ValueWrite>, s: Walk, values: seq<FieldValue>, k: nat)
    requires Complete(p, fields, writes, s) && s.missingRequired.None? && |fields| == |writes|
    requires |HEADERS| <= k < |p.fields| && |values| == |s.values| == 1 + |p.fields| && values[1 + k] == s.values[1 + k]
    ensures SlotByName(fields, p.fields, writes, s.pool, values, k) && Fits(|s.pool|, p.fields[k].fieldType, values[1 + k])
  {
    hide PayloadSlots, Slots, FromRole, RecordedAs, Fits, Recorded, DefOf, NamedBy, ActionOf, Delivers;
    var m := k - |HEADERS|;
    assert values[|PLACEHOLDERS| + m] == s.values[|PLACEHOLDERS| + m];
    PayloadByName(fields, p.fields, writes, s.pool, values, m);
  }

  lemma CompleteHeader(p: Plan, fields: seq<Field>, writes: seq<ValueWrite>, s: Walk, values: seq<FieldValue>)
    requires Complete(p, fields, writes, s) && |fields| == |writes|
    requires s.ctx.threadId.Some? && s.ctx.monotonicStart.Some? && s.ctx.monotonicEnd.Some?
    requires |values| >= |PLACEHOLDERS| && values[..|PLACEHOLDERS|] == HeaderValues(s.ctx)
    ensures IsHeader(fields, writes, s.ctx.wallClock, values)
    ensures forall k :: 0 <= k < |HEADERS| && k < |p.fields| ==> Fits(|s.pool|, p.fields[k].fieldType, values[1 + k])
  {
    hide PayloadSlots, Slots, FromRole, PayloadOk, Fits, Recorded, DefOf, HeaderValues;
    HeadersFit(|s.pool|, s.ctx, values);
    forall k | 0 <= k < |HEADERS| && k < |p.fields|
      ensures p.fields[k] == HEADERS[k]
    {
      assert p.fields[k] == p.fields[..|HEADERS|][k];
    }
  }

  lemma CompleteSize(p: Plan, fields: seq<Field>, writes: seq<ValueWrite>, s: Walk)
    requires Complete(p, fields, writes, s) && s.missingRequired.None?
    ensures |s.values| == 1 + |p.fields|
  {
  }

  lemma CompleteEvent(p: Plan, fields: seq<Field>, writes: seq<ValueWrite>, s: Walk, values: seq<FieldValue>)
    requires Complete(p, fields, writes, s) && |s.values| >= |PLACEHOLDERS|
    requires s.missingRequired.Some? ==> |HEADERS| + s.missingRequired.value < |p.fields|
    requires |p.fields| >= |HEADERS| && |fields| == |writes| && Finished(p, s) == Ok(values)
    ensures IsEvent(fields, p.fields, writes, s.ctx.wallClock, s.pool, values)
  {
    assert 1 + |HEADERS| == |PLACEHOLDERS|;
    hide *;
    OkValues(p, s, values);
    CompleteSize(p, fields, writes, s);
    CompleteHeader(p, fields, writes, s, values);
    forall k: nat | |HEADERS| <= k < |p.fields|
      ensures SlotByName(fields, p.fields, writes, s.pool, values, k) && Fits(|s.pool|, p.fields[k].fieldType, values[1 + k])
    {
      assert values[1 + k] == s.values[1 + k];
      CompleteSlot(p, fields, writes, s, values, k);
    }
    EventFromParts(fields, p.fields, writes, s.ctx.wallClock, s.pool, values);
  }

  lemma EventFromParts(
      fields: seq<Field>, schema: seq<FieldDef>, writes: seq<ValueWrite>, clock: Option<U64>, pool: seq<string>, values: seq<FieldValue>)
    requires |fields| == |writes| && |schema| >= |HEADERS| && |values| == 1 + |schema|
    requires IsHeader(fields, writes, clock, values)
    requires forall k: nat :: |HEADERS| <= k < |schema| ==> SlotByName(fields, schema, writes, pool, values, k)
    requires forall k :: 0 <= k < |schema| ==> Fits(|pool|, schema[k].fieldType, values[1 + k])
    ensures IsEvent(fields, schema, writes, clock, pool, values)
  {
    hide IsHeader, SlotByName, Fits;
  }

  /**
   If the walk succeeds, the event is the one that looking the descriptor's fields up by name
   gives: first eligible field of each name, skipped and colliding ones left out, every value in
   range for its schema field and absent only where that is optional.
   */
  lemma EventIsByName(segments: seq<Segment>, suffix: string, usedNames: set<string>, pool: seq<string>, callbacks: seq<Callback>)
    requires Outcome(segments, suffix, usedNames, pool, callbacks).Ok?
    ensures var p, fields := PlanOf(segments, suffix, usedNames), FieldsOf(segments);
      var s := AfterAll(p.actions, pool, callbacks);
      && |Writes(callbacks)| == |fields| && |p.fields| >= |HEADERS|
      && IsEvent(fields, p.fields, Writes(callbacks), LastClock(callbacks), s.pool,
                 Outcome(segments, suffix, usedNames, pool, callbacks).values)
  {
    var p, fields := PlanOf(segments, suffix, usedNames), FieldsOf(segments);
    var s := AfterAll(p.actions, pool, callbacks);
    var values := Outcome(segments, suffix, usedNames, pool, callbacks).values;
    CanFinish(segments, suffix, usedNames, pool, callbacks);
    assert Finished(p, s) == Ok(values);
    hide *;
    MismatchIffCount(segments, suffix, usedNames, pool, callbacks);
    CompleteFacts(segments, suffix, usedNames, pool, callbacks);
    CompleteCanFinish(p, fields, Writes(callbacks), s);
    CompleteEvent(p, fields, Writes(callbacks), s, values);
  }

  // ----- By callback name -----

  /** The names the value callbacks were given, in callback order. */
  function Names(callbacks: seq<Callback>): seq<string> {
    if |callbacks| == 0 then []
    else
      var last := callbacks[|callbacks| - 1];
      Names(callbacks[..|callbacks| - 1]) + (if last.ValueOf? then [last.name] else [])
  }

  /** The value callbacks name the descriptor's fields, in the descriptor's order. */
  ghost predicate FollowsDescriptor(segments: seq<Segment>, callbacks: seq<Callback>) {
    var fields, names := FieldsOf(segments), Names(callbacks);
    |names| == |fields| && forall i :: 0 <= i < |fields| ==> names[i] == fields[i].name
  }

  /** The wire value is that of the only recorded callback with this name. */
  ghost predicate FromCallback(
      fields: seq<Field>, names: seq<string>, writes: seq<ValueWrite>, pool: seq<string>, name: string, v: FieldValue)
    requires |fields| == |names| == |writes|
  {
    exists i: nat ::
      && i < |names| && names[i] == name && Recorded(fields, i) && RecordedAs(pool, ActionOf(fields, i), writes[i], v)
      && (forall j :: 0 <= j < |names| && names[j] == name && Recorded(fields, j) ==> j == i)
  }

  lemma {:induction false} NamesAndWrites(callbacks: seq<Callback>)
    ensures |Names(callbacks)| == |Writes(callbacks)|
  {
    if |callbacks| != 0 {
      NamesAndWrites(callbacks[..|callbacks| - 1]);
    }
  }

  lemma SlotFromCallback(
      fields: seq<Field>, names: seq<string>, schema: seq<FieldDef>, writes: seq<ValueWrite>, pool: seq<string>, values: seq<FieldValue>, k: nat)
    requires |fields| == |names| == |writes| && (forall i :: 0 <= i < |fields| ==> names[i] == fields[i].name)
    requires k < |schema| && |values| == 1 + |schema| && SlotByName(fields, schema, writes, pool, values, k)
    ensures FromCallback(fields, names, writes, pool, schema[k].name, values[1 + k])
  {
    hide RecordedAs;
    var name := schema[k].name;
    var i: nat :| NamedBy(fields, name, i) && RecordedAs(pool, ActionOf(fields, i), writes[i], values[1 + k])
      && (forall j: nat :: NamedBy(fields, name, j) ==> j == i);
    forall j: nat | j < |names| && names[j] == name && Recorded(fields, j)
      ensures j == i
    {
      assert NamedBy(fields, name, j);
    }
  }

  /**
   When the callbacks name the descriptor's fields in order, a recorded event is found by the
   callbacks' names: under each payload field's name stands the value of the one recorded callback
   of that name, and every recorded callback's name is a payload field.
   */
  lemma EventFromCallbackNames(segments: seq<Segment>, suffix: string, usedNames: set<string>, pool: seq<string>, callbacks: seq<Callback>)
    requires Outcome(segments, suffix, usedNames, pool, callbacks).Ok? && FollowsDescriptor(segments, callbacks)
    ensures var p, fields := PlanOf(segments, suffix, usedNames), FieldsOf(segments);
      var s := AfterAll(p.actions, pool, callbacks);
      var values := Outcome(segments, suffix, usedNames, pool, callbacks).values;
      && |Names(callbacks)| == |Writes(callbacks)| == |fields| && |values| == 1 + |p.fields|
      && (forall k: nat :: |HEADERS| <= k < |p.fields| ==>
            FromCallback(fields, Names(callbacks), Writes(callbacks), s.pool, p.fields[k].name, values[1 + k]))
      && (forall i :: 0 <= i < |fields| && Recorded(fields, i) ==>
            exists k :: |HEADERS| <= k < |p.fields| && p.fields[k].name == Names(callbacks)[i])
  {
    var p, fields := PlanOf(segments, suffix, usedNames), FieldsOf(segments);
    var s := AfterAll(p.actions, pool, callbacks);
    var names, writes := Names(callbacks), Writes(callbacks);
    var values := Outcome(segments, suffix, usedNames, pool, callbacks).values;
    assert forall i :: 0 <= i < |fields| ==> names[i] == fields[i].name;
    hide *;
    NamesAndWrites(callbacks);
    EventIsByName(segments, suffix, usedNames, pool, callbacks);
    EventParts(fields, p.fields, writes, LastClock(callbacks), s.pool, values);
    forall k: nat | |HEADERS| <= k < |p.fields|
      ensures FromCallback(fields, names, writes, s.pool, p.fields[k].name, values[1 + k])
    {
      SlotFromCallback(fields, names, p.fields, writes, s.pool, values, k);
    }
    forall i | 0 <= i < |fields| && Recorded(fields, i)
      ensures exists k :: |HEADERS| <= k < |p.fields| && p.fields[k].name == names[i]
    {
      RecordedInSchema(segments, suffix, usedNames, i);
    }
  }

  lemma EventParts(
      fields: seq<Field>, schema: seq<FieldDef>, writes: seq<ValueWrite>, clock: Option<U64>, pool: seq<string>, values: seq<FieldValue>)
    requires |fields| == |writes| && |schema| >= |HEADERS| && IsEvent(fields, schema, writes, clock, pool, values)
    ensures |values| == 1 + |schema|
    ensures forall k: nat :: |HEADERS| <= k < |schema| ==> SlotByName(fields, schema, writes, pool, values, k)
  {
    hide SlotByName, IsHeader, Fits;
  }

  /** Every recorded field is in the schema, under its name. */
  lemma RecordedInSchema(segments: seq<Segment>, suffix: string, usedNames: set<string>, i: nat)
    requires i < |FieldsOf(segments)| && Recorded(FieldsOf(segments), i)
    ensures var p := PlanOf(segments, suffix, usedNames);
      exists k :: |HEADERS| <= k < |p.fields| && p.fields[k].name == FieldsOf(segments)[i].name
  {
    var p, fields := PlanOf(segments, suffix, usedNames), FieldsOf(segments);
    PlanFollowsDescriptor(segments, suffix, usedNames);
    SlotsExact(fields);
    hide PlanOf, FieldsOf, Slots, Recorded;
    var k :| 0 <= k < |Slots(fields)| && Slots(fields)[k] == i;
    assert p.fields[|HEADERS| + k] == DefOf(fields[i]);
  }

  /** A context value was captured for the role. */
  ghost predicate HasRole(fields: seq<Field>, writes: seq<ValueWrite>, role: Role)
    requires |fields| == |writes|
  {
    exists i :: 0 <= i < |fields| && Routed(fields, i) && RoleOf(fields[i].baseName) == Some(role) && CaptureU64(writes[i]).Some?
  }

  lemma HasRoleIff(fields: seq<Field>, writes: seq<ValueWrite>, role: Role, v: Option<U64>)
    requires |fields| == |writes| && FromRole(fields, writes, role, v)
    ensures v.Some? <==> HasRole(fields, writes, role)
  {
  }

  /** No required field is missing exactly if every recorded field delivers. */
  lemma AllDeliver(p: Plan, fields: seq<Field>, writes: seq<ValueWrite>, s: Walk)
    requires Complete(p, fields, writes, s)
    ensures s.missingRequired.None? <==>
      forall i :: 0 <= i < |fields| && Recorded(fields, i) ==> Delivers(ActionOf(fields, i), writes[i])
  {
    SlotsExact(fields);
    var slots := Slots(fields);
    hide PayloadSlots, Slots, FromRole, RecordedAs, Delivers;
    if s.missingRequired.Some? {
      assert Recorded(fields, slots[s.missingRequired.value]);
    } else {
      forall i | 0 <= i < |fields| && Recorded(fields, i)
        ensures Delivers(ActionOf(fields, i), writes[i])
      {
        var k :| 0 <= k < |slots| && slots[k] == i;
      }
    }
  }

  /** The roles without which no event is recorded. */
  lemma RequiredRoles(p: Plan, fields: seq<Field>, writes: seq<ValueWrite>, s: Walk)
    requires Complete(p, fields, writes, s)
    ensures s.ctx.threadId.Some? <==> HasRole(fields, writes, ThreadId)
    ensures s.ctx.monotonicStart.Some? <==> HasRole(fields, writes, MonotonicStart)
    ensures s.ctx.monotonicEnd.Some? <==> HasRole(fields, writes, MonotonicEnd)
  {
    assert RoleValue(s.ctx, ThreadId) == s.ctx.threadId;
    assert RoleValue(s.ctx, MonotonicStart) == s.ctx.monotonicStart;
    assert RoleValue(s.ctx, MonotonicEnd) == s.ctx.monotonicEnd;
    hide PayloadSlots, Slots, FromRole, HasRole, PayloadOk, Recorded, RoleValue;
    HasRoleIff(fields, writes, ThreadId, s.ctx.threadId);
    HasRoleIff(fields, writes, MonotonicStart, s.ctx.monotonicStart);
    HasRoleIff(fields, writes, MonotonicEnd, s.ctx.monotonicEnd);
  }

  lemma FinishedOk(p: Plan, s: Walk)
    requires s.missingRequired.Some? ==> |HEADERS| + s.missingRequired.value < |p.fields|
    requires |s.values| >= |PLACEHOLDERS| && s.next == |p.actions| && !s.overflowed
    ensures Finished(p, s).Ok? <==>
      s.missingRequired.None? && s.ctx.threadId.Some? && s.ctx.monotonicStart.Some? && s.ctx.monotonicEnd.Some?
  {
  }

  lemma CompleteCounts(p: Plan, fields: seq<Field>, writes: seq<ValueWrite>, s: Walk)
    requires Complete(p, fields, writes, s)
    ensures s.next == |p.actions| && !s.overflowed
  {
  }

  lemma OutcomeIs(segments: seq<Segment>, suffix: string, usedNames: set<string>, pool: seq<string>, callbacks: seq<Callback>)
    ensures var p := PlanOf(segments, suffix, usedNames);
      var s := AfterAll(p.actions, pool, callbacks);
      && (s.missingRequired.Some? ==> |HEADERS| + s.missingRequired.value < |p.fields|)
      && |s.values| >= |PLACEHOLDERS|
      && Outcome(segments, suffix, usedNames, pool, callbacks) == Finished(p, s)
  {
    CanFinish(segments, suffix, usedNames, pool, callbacks);
    hide PlanOf, AfterAll, Finished;
  }

  /**
   As many values as descriptor fields, every recorded field delivers a value or is optional, and
   thread, start and end were captured.
   */
  ghost predicate Deliverable(fields: seq<Field>, writes: seq<ValueWrite>) {
    && |writes| == |fields|
    && (forall i :: 0 <= i < |fields| && Recorded(fields, i) ==> Delivers(ActionOf(fields, i), writes[i]))
    && HasRole(fields, writes, ThreadId) && HasRole(fields, writes, MonotonicStart) && HasRole(fields, writes, MonotonicEnd)
  }

  /**
   An event is recorded exactly if there are as many value callbacks as descriptor fields, every
   recorded field delivers a value or is optional, and thread, start and end were captured.
   */
  lemma RecordedIff(segments: seq<Segment>, suffix: string, usedNames: set<string>, pool: seq<string>, callbacks: seq<Callback>)
    ensures Outcome(segments, suffix, usedNames, pool, callbacks).Ok? <==> Deliverable(FieldsOf(segments), Writes(callbacks))
  {
    var p, fields, writes := PlanOf(segments, suffix, usedNames), FieldsOf(segments), Writes(callbacks);
    var s := AfterAll(p.actions, pool, callbacks);
    assert Deliverable(fields, writes) <==>
      && |writes| == |fields|
      && (forall i :: 0 <= i < |fields| && Recorded(fields, i) ==> Delivers(ActionOf(fields, i), writes[i]))
      && HasRole(fields, writes, ThreadId) && HasRole(fields, writes, MonotonicStart) && HasRole(fields, writes, MonotonicEnd);
    hide *;
    MismatchIffCount(segments, suffix, usedNames, pool, callbacks);
    OutcomeIs(segments, suffix, usedNames, pool, callbacks);
    if |writes| == |fields| {
      CompleteFacts(segments, suffix, usedNames, pool, callbacks);
      CompleteCounts(p, fields, writes, s);
      FinishedOk(p, s);
      RequiredRoles(p, fields, writes, s);
      AllDeliver(p, fields, writes, s);
    }
  }

  /** The first recorded field that delivered nothing. */
  ghost predicate FirstMissing(fields: seq<Field>, writes: seq<ValueWrite>, name: string)
    requires |fields| == |writes|
  {
    exists i: nat ::
      && NamedBy(fields, name, i) && !Delivers(ActionOf(fields, i), writes[i])
      && (forall j :: 0 <= j < i && Recorded(fields, j) ==> Delivers(ActionOf(fields, j), writes[j]))
  }

  lemma CompleteMissing(p: Plan, fields: seq<Field>, writes: seq<ValueWrite>, s: Walk)
    requires Complete(p, fields, writes, s) && s.missingRequired.Some?
    ensures |HEADERS| + s.missingRequired.value < |p.fields|
    ensures FirstMissing(fields, writes, p.fields[|HEADERS| + s.missingRequired.value].name)
  {
    SlotsExact(fields);
    var slots, m := Slots(fields), s.missingRequired.value;
    hide PayloadSlots, Slots, FromRole, RecordedAs, Delivers;
    assert NamedBy(fields, p.fields[|HEADERS| + m].name, slots[m]);
    forall j | 0 <= j < slots[m] && Recorded(fields, j)
      ensures Delivers(ActionOf(fields, j), writes[j])
    {
      var k :| 0 <= k < |slots| && slots[k] == j;
      assert k < m;
    }
  }

  lemma FinishedMissing(p: Plan, s: Walk)
    requires s.missingRequired.Some? ==> |HEADERS| + s.missingRequired.value < |p.fields|
    requires |s.values| >= |PLACEHOLDERS| && Finished(p, s).MissingRequired?
    ensures s.missingRequired.Some? && Finished(p, s).field == p.fields[|HEADERS| + s.missingRequired.value].name
  {
  }

  /** A missing field is reported by name, and it is the first recorded field that delivered nothing. */
  lemma MissingIsFirst(segments: seq<Segment>, suffix: string, usedNames: set<string>, pool: seq<string>, callbacks: seq<Callback>)
    requires Outcome(segments, suffix, usedNames, pool, callbacks).MissingRequired?
    ensures |Writes(callbacks)| == |FieldsOf(segments)|
    ensures FirstMissing(FieldsOf(segments), Writes(callbacks), Outcome(segments, suffix, usedNames, pool, callbacks).field)
  {
    var p, fields, writes := PlanOf(segments, suffix, usedNames), FieldsOf(segments), Writes(callbacks);
    var s := AfterAll(p.actions, pool, callbacks);
    hide *;
    MismatchIffCount(segments, suffix, usedNames, pool, callbacks);
    OutcomeIs(segments, suffix, usedNames, pool, callbacks);
    CompleteFacts(segments, suffix, usedNames, pool, callbacks);
    FinishedMissing(p, s);
    CompleteMissing(p, fields, writes, s);
  }
}
