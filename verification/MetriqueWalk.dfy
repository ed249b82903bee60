/**
 Walking one entry's value callbacks by position against its plan (dial9-metrique/src/writer.rs),
 and why the result is what looking the fields up by name would give.
 */
module MetriqueWalk {
  import opened Wrappers
  import opened MetriquePlan
  import opened MetriqueCapture

  const U64_LIMIT: nat := 0x1_0000_0000_0000_0000

  /** The event-header values captured so far. */
  datatype ContextValues = ContextValues(
    threadId: Option<U64>, taskId: Option<U64>, monotonicStart: Option<U64>, monotonicEnd: Option<U64>,
    wallClock: Option<U64>)

  datatype Walk = Walk(
    values: seq<FieldValue>, ctx: ContextValues, next: nat, payloadSeen: nat,
    missingRequired: Option<nat>, overflowed: bool, pool: seq<string>)

  datatype Callback = Timestamp(nanos: int) | ValueOf(name: string, write: ValueWrite)

  datatype Finish = Ok(values: seq<FieldValue>) | PlanMismatch | MissingRequired(field: string) | MissingContext(field: string)

  // ----- The walk as a function -----

  const PLACEHOLDERS: seq<FieldValue> := [NoValue, NoValue, NoValue, NoValue, NoValue]

  function NewWalk(pool: seq<string>): Walk {
    Walk(PLACEHOLDERS, ContextValues(None, None, None, None, None), 0, 0, None, false, pool)
  }

  /** A wall clock before the epoch or beyond 64 bits is left out. */
  function WallClockOf(nanos: int): Option<U64> {
    if 0 <= nanos < U64_LIMIT then Some(nanos) else None
  }

  /** Context fields write one unsigned observation; anything else leaves the slot empty. */
  function CaptureU64(w: ValueWrite): Option<U64> {
    if w.One? && w.write.Metric? && |w.write.observations| > 0 && w.write.observations[0].Unsigned?
    then Some(w.write.observations[0].v) else None
  }

  function RoleValue(ctx: ContextValues, role: Role): Option<U64> {
    match role
    case ThreadId => ctx.threadId
    case TaskId => ctx.taskId
    case MonotonicStart => ctx.monotonicStart
    case MonotonicEnd => ctx.monotonicEnd
  }

  function WithRole(ctx: ContextValues, role: Role, v: Option<U64>): ContextValues {
    match role
    case ThreadId => ctx.(threadId := v)
    case TaskId => ctx.(taskId := v)
    case MonotonicStart => ctx.(monotonicStart := v)
    case MonotonicEnd => ctx.(monotonicEnd := v)
  }

  /** A payload field's value: absent and mismatched are alike, legal if optional. */
  function AfterPayload(s: Walk, optional: bool, kind: ValueKind, w: ValueWrite): Walk {
    var (grown, c) := Capture(s.pool, kind, w);
    var s' := s.(payloadSeen := s.payloadSeen + 1, pool := grown);
    if c.Value? then s'.(values := s.values + [c.value])
    else if optional then s'.(values := s.values + [NoValue])
    else s'.(missingRequired := if s.missingRequired.Some? then s.missingRequired else Some(s.payloadSeen))
  }

  function AfterValue(actions: seq<FieldAction>, s: Walk, w: ValueWrite): Walk {
    if s.next >= |actions| then s.(overflowed := true)
    else
      var s' := s.(next := s.next + 1);
      match actions[s.next]
      case Skip => s'
      case Context(role) => s'.(ctx := WithRole(s.ctx, role, CaptureU64(w)))
      case Payload(optional, kind) => AfterPayload(s', optional, kind, w)
  }

  function AfterCallback(actions: seq<FieldAction>, s: Walk, c: Callback): Walk {
    match c
    case Timestamp(nanos) => s.(ctx := s.ctx.(wallClock := WallClockOf(nanos)))
    case ValueOf(_, w) => AfterValue(actions, s, w)
  }

  function AfterAll(actions: seq<FieldAction>, pool: seq<string>, callbacks: seq<Callback>): Walk {
    if |callbacks| == 0 then NewWalk(pool)
    else AfterCallback(actions, AfterAll(actions, pool, callbacks[..|callbacks| - 1]), callbacks[|callbacks| - 1])
  }

  function Maybe(v: Option<U64>): FieldValue {
    if v.Some? then Varint(v.value) else NoValue
  }

  /** The timestamp and the header values, in schema order. */
  function HeaderValues(ctx: ContextValues): seq<FieldValue>
    requires ctx.threadId.Some? && ctx.monotonicStart.Some? && ctx.monotonicEnd.Some?
  {
    var start, end := ctx.monotonicStart.value, ctx.monotonicEnd.value;
    [Varint(end), Varint(ctx.threadId.value), Maybe(ctx.taskId), Varint(if end >= start then end - start else 0), Maybe(ctx.wallClock)]
  }

  function Finished(p: Plan, s: Walk): Finish
    requires s.missingRequired.Some? ==> |HEADERS| + s.missingRequired.value < |p.fields|
    requires |s.values| >= |PLACEHOLDERS|
  {
    if s.overflowed || s.next != |p.actions| then PlanMismatch
    else if s.missingRequired.Some? then MissingRequired(p.fields[|HEADERS| + s.missingRequired.value].name)
    else if s.ctx.threadId.None? then MissingContext("dial9.thread_id")
    else if s.ctx.monotonicStart.None? then MissingContext("dial9.monotonic_ns_start")
    else if s.ctx.monotonicEnd.None? then MissingContext("dial9.monotonic_ns_end")
    else Ok(HeaderValues(s.ctx) + s.values[|PLACEHOLDERS|..])
  }

  // ----- The walk as an object -----

  class EntryWalk {
    const plan: Plan
    var values: seq<FieldValue>
    var ctx: ContextValues
    var next: nat
    var payloadSeen: nat
    var missingRequired: Option<nat>
    var overflowed: bool
    var pool: seq<string>

    ghost function State(): Walk
      reads this
    {
      Walk(values, ctx, next, payloadSeen, missingRequired, overflowed, pool)
    }

    constructor (plan: Plan, pool: seq<string>)
      ensures this.plan == plan && State() == NewWalk(pool)
    {
      this.plan := plan;
      this.pool := pool;
      values := [NoValue, NoValue, NoValue, NoValue, NoValue];
      ctx := ContextValues(None, None, None, None, None);
      next, payloadSeen, missingRequired, overflowed := 0, 0, None, false;
    }

    method OnTimestamp(nanos: int)
      modifies this`ctx
      ensures State() == AfterCallback(plan.actions, old(State()), Timestamp(nanos))
    {
      ctx := ctx.(wallClock := WallClockOf(nanos));
    }

    /** Capture the elements of a list one after another; a mismatch poisons the whole field. */
    method CaptureItems(kind: ScalarKind, writes: seq<ScalarWrite>) returns (items: Option<seq<FieldValue>>)
      modifies this`pool
      ensures (pool, items) == CaptureList(old(pool), kind, writes)
    {
      var captured := [];
      for i := 0 to |writes|
        invariant (pool, Some(captured)) == CaptureList(old(pool), kind, writes[..i])
      {
        assert writes[..i + 1][..i] == writes[..i];
        var (grown, item) := CaptureScalar(pool, kind, writes[i]);
        pool := grown;
        match item {
          case Value(v) => captured := captured + [v];
          case Absent =>
          case Mismatched =>
            MismatchStays(old(pool), kind, writes, i + 1);
            return None;
        }
      }
      assert writes[..|writes|] == writes;
      return Some(captured);
    }

    method CaptureValue(kind: ValueKind, w: ValueWrite) returns (c: Captured<FieldValue>)
      modifies this`pool
      ensures (pool, c) == Capture(old(pool), kind, w)
    {
      match w
      case One(write) =>
        if kind.Scalar? {
          var grown, captured := CaptureScalar(pool, kind.kind, write).0, CaptureScalar(pool, kind.kind, write).1;
          pool := grown;
          return captured;
        }
        return if write.Nothing? || write.Invalid? then Absent else Mismatched;
      case Values(writes) =>
        if kind.Scalar? {
          return Mismatched;
        }
        var items := CaptureItems(kind.kind, writes);
        return if items.Some? then Value(ListValue(items.value)) else Mismatched;
    }

    /** One value callback takes the next action. */
    method OnValue(w: ValueWrite)
      modifies this
      ensures State() == AfterValue(plan.actions, old(State()), w)
    {
      if next >= |plan.actions| {
        overflowed := true;
        return;
      }
      var action := plan.actions[next];
      next := next + 1;
      match action
      case Skip =>
      case Context(role) =>
        ctx := WithRole(ctx, role, CaptureU64(w));
      case Payload(optional, kind) =>
        var index := payloadSeen;
        payloadSeen := payloadSeen + 1;
        var c := CaptureValue(kind, w);
        if c.Value? {
          values := values + [c.value];
        } else if optional {
          values := values + [NoValue];
        } else if missingRequired.None? {
          missingRequired := Some(index);
        }
    }

    /** Validate the walk and fill the timestamp and header placeholders. */
    method Complete() returns (result: Finish)
      requires missingRequired.Some? ==> |HEADERS| + missingRequired.value < |plan.fields|
      requires |values| >= |PLACEHOLDERS|
      modifies this`values
      ensures result == Finished(plan, old(State()))
      ensures result.Ok? ==> values == result.values
    {
      if overflowed || next != |plan.actions| {
        return PlanMismatch;
      }
      if missingRequired.Some? {
        return MissingRequired(plan.fields[|HEADERS| + missingRequired.value].name);
      }
      if ctx.threadId.None? {
        return MissingContext("dial9.thread_id");
      }
      if ctx.monotonicStart.None? {
        return MissingContext("dial9.monotonic_ns_start");
      }
      if ctx.monotonicEnd.None? {
        return MissingContext("dial9.monotonic_ns_end");
      }
      var start, end := ctx.monotonicStart.value, ctx.monotonicEnd.value;
      var duration := if end >= start then end - start else 0;
      values := values[0 := Varint(end)];
      values := values[1 := Varint(ctx.threadId.value)];
      values := values[2 := Maybe(ctx.taskId)];
      values := values[3 := Varint(duration)];
      values := values[4 := Maybe(ctx.wallClock)];
      return Ok(values);
    }
  }

  /** Once an element did not match, the list stays poisoned and the pool stays as it was. */
  lemma {:induction false} MismatchStays(pool: seq<string>, kind: ScalarKind, writes: seq<ScalarWrite>, n: nat)
    requires n <= |writes| && CaptureList(pool, kind, writes[..n]).1.None?
    ensures CaptureList(pool, kind, writes) == CaptureList(pool, kind, writes[..n])
    decreases |writes|
  {
    if n == |writes| {
      assert writes[..n] == writes;
    } else {
      var m := |writes| - 1;
      assert writes[..m][..n] == writes[..n];
      MismatchStays(pool, kind, writes[..m], n);
    }
  }
}
