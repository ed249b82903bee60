/**
 Compiling a metrique entry's descriptor into an encode plan: a schema and one action per value
 callback (dial9-metrique/src/plan.rs).
 */
module MetriquePlan {
  import opened Wrappers

  // ----- Descriptors -----

  datatype Known = KBool | KU8 | KU16 | KU32 | KU64 | KI8 | KI16 | KI32 | KI64 | KF32 | KF64 | KString | KBytes | KOther

  datatype Shape = Known(known: Known) | Optional(inner: Shape) | List(elem: Shape) | Flex | Opaque | Other

  /** One field of a descriptor segment; `unit` is the annotation value of its unit, if it has one. */
  datatype Field = Field(
    baseName: string, name: string, shape: Shape, unit: Option<string>,
    context: bool, skip: bool, spanName: bool, interned: bool)

  datatype Segment = Segment(name: string, fields: seq<Field>)

  // ----- Plans -----

  datatype BaseType = I64Type | F64Type | BoolType | StringType | PooledStringType | VarintType | DynamicListType

  /** A wire type and its optional bit. */
  datatype FieldType = FieldType(base: BaseType, optional: bool)

  datatype ScalarKind = BoolKind | UintKind | IntKind | FloatKind | StrKind(interned: bool)
  datatype ValueKind = Scalar(kind: ScalarKind) | ListOf(kind: ScalarKind)

  datatype Role = ThreadId | TaskId | MonotonicStart | MonotonicEnd

  datatype FieldAction = Skip | Context(role: Role) | Payload(optional: bool, kind: ValueKind)

  datatype FieldDef = FieldDef(name: string, fieldType: FieldType)
  datatype Annotation = Annotation(index: nat, key: string, value: string)

  datatype Plan = Plan(
    schemaName: string, fields: seq<FieldDef>, annotations: seq<Annotation>,
    actions: seq<FieldAction>, inert: bool, entryName: string)

  const ROLE_KEY: string := "dial9.role"
  const SPAN_NAME_ROLE: string := "span.name"
  const UNIT_KEY: string := "unit"
  const MAX_INDEX: nat := 0xFFFF

  /** The header fields every schema starts with, in order. */
  const HEADERS: seq<FieldDef> := [
    FieldDef("dial9.thread_id", FieldType(VarintType, false)),
    FieldDef("dial9.tokio.task_id", FieldType(VarintType, true)),
    FieldDef("dial9.span.duration_ns", FieldType(VarintType, false)),
    FieldDef("dial9.wall_clock_ns", FieldType(VarintType, true))]

  const HEADER_ANNOTATIONS: seq<Annotation> := [
    Annotation(0, ROLE_KEY, "thread_id"),
    Annotation(1, ROLE_KEY, "tokio.task_id"),
    Annotation(2, ROLE_KEY, "span.duration"),
    Annotation(2, "dial9.span.type", "metrique"),
    Annotation(2, UNIT_KEY, "ns")]

  // ----- Resolving shapes -----

  function ResolveKnown(known: Known, interned: bool): Option<(BaseType, ScalarKind)> {
    match known
    case KBool => Some((BoolType, BoolKind))
    case KU8 => Some((VarintType, UintKind))
    case KU16 => Some((VarintType, UintKind))
    case KU32 => Some((VarintType, UintKind))
    case KU64 => Some((VarintType, UintKind))
    case KI8 => Some((I64Type, IntKind))
    case KI16 => Some((I64Type, IntKind))
    case KI32 => Some((I64Type, IntKind))
    case KI64 => Some((I64Type, IntKind))
    case KF32 => Some((F64Type, FloatKind))
    case KF64 => Some((F64Type, FloatKind))
    case KString => if interned then Some((PooledStringType, StrKind(true))) else Some((StringType, StrKind(false)))
    case KBytes => None
    case KOther => None
  }

  /** An element may be optional any number of times, but not a list. */
  function ResolveElement(shape: Shape, interned: bool): Option<ScalarKind> {
    match shape
    case Known(known) => (match ResolveKnown(known, interned) case Some(pair) => Some(pair.1) case None => None)
    case Optional(inner) => ResolveElement(inner, interned)
    case _ => None
  }

  function ResolveInner(shape: Shape, interned: bool): Option<(BaseType, ValueKind)> {
    match shape
    case Known(known) =>
      (match ResolveKnown(known, interned) case Some(pair) => Some((pair.0, Scalar(pair.1))) case None => None)
    case List(elem) =>
      (match ResolveElement(elem, interned) case Some(kind) => Some((DynamicListType, ListOf(kind))) case None => None)
    case _ => None
  }

  /** The wire type and the kind of capture, unless the field cannot be a payload field. */
  function ResolveShape(shape: Shape, interned: bool): Option<(FieldType, ValueKind)> {
    var inner := if shape.Optional? then shape.inner else shape;
    match ResolveInner(inner, interned)
    case None => None
    case Some((base, kind)) =>
      if interned && !kind.kind.StrKind? then None
      else Some((FieldType(base, shape.Optional?), kind))
  }

  // ----- Building -----

  function RoleOf(baseName: string): Option<Role> {
    if baseName == "dial9.thread_id" then Some(ThreadId)
    else if baseName == "dial9.tokio.task_id" then Some(TaskId)
    else if baseName == "dial9.monotonic_ns_start" then Some(MonotonicStart)
    else if baseName == "dial9.monotonic_ns_end" then Some(MonotonicEnd)
    else None
  }

  /** Each role is claimed by exactly one base name. */
  lemma RoleNames()
    ensures forall name :: RoleOf(name) == Some(ThreadId) <==> name == "dial9.thread_id"
    ensures forall name :: RoleOf(name) == Some(TaskId) <==> name == "dial9.tokio.task_id"
    ensures forall name :: RoleOf(name) == Some(MonotonicStart) <==> name == "dial9.monotonic_ns_start"
    ensures forall name :: RoleOf(name) == Some(MonotonicEnd) <==> name == "dial9.monotonic_ns_end"
  {
    assert "dial9.monotonic_ns_start"[19] != "dial9.monotonic_ns_end"[19];
  }

  predicate Collides(fields: seq<FieldDef>, name: string) {
    exists i :: 0 <= i < |fields| && fields[i].name == name
  }

  /** A plan under construction. */
  datatype Builder = Builder(
    actions: seq<FieldAction>, fields: seq<FieldDef>, annotations: seq<Annotation>,
    rolesSeen: set<Role>, spanNameClaimed: bool)

  const EMPTY: Builder := Builder([], HEADERS, HEADER_ANNOTATIONS, {}, false)

  function Annotations(f: Field, index: nat, spanName: bool, kind: ValueKind): seq<Annotation> {
    if index > MAX_INDEX then []
    else
      (if f.unit.Some? then [Annotation(index, UNIT_KEY, f.unit.value)] else [])
      + (if spanName && kind.Scalar? && kind.kind.StrKind? then [Annotation(index, ROLE_KEY, SPAN_NAME_ROLE)] else [])
  }

  function Added(b: Builder, f: Field): Builder {
    if f.context then
      var role := RoleOf(f.baseName);
      if role.Some? && role.value !in b.rolesSeen
      then b.(actions := b.actions + [Context(role.value)], rolesSeen := b.rolesSeen + {role.value})
      else b.(actions := b.actions + [Skip])
    else
      var spanName := f.spanName && !b.spanNameClaimed;
      var b' := b.(spanNameClaimed := b.spanNameClaimed || f.spanName);
      if f.skip || Collides(b.fields, f.name) then b'.(actions := b.actions + [Skip])
      else
        match ResolveShape(f.shape, f.interned)
        case None => b'.(actions := b.actions + [Skip])
        case Some((fieldType, kind)) =>
          b'.(actions := b.actions + [Payload(fieldType.optional, kind)],
              fields := b.fields + [FieldDef(f.name, fieldType)],
              annotations := b.annotations + Annotations(f, |b.fields|, spanName, kind))
  }

  function Built(fields: seq<Field>): Builder {
    if |fields| == 0 then EMPTY else Added(Built(fields[..|fields| - 1]), fields[|fields| - 1])
  }

  /** All fields of the segments, in order. */
  function FieldsOf(segments: seq<Segment>): seq<Field> {
    if |segments| == 0 then [] else FieldsOf(segments[..|segments| - 1]) + segments[|segments| - 1].fields
  }

  function EntryName(segments: seq<Segment>): string {
    if |segments| == 0 then "<unnamed>" else segments[0].name
  }

  /** `metrique:` and the entry name, with a layout-dependent suffix if another live plan has that name. */
  function SchemaName(entryName: string, inert: bool, suffix: string, usedNames: set<string>): (string, set<string>) {
    var base := "metrique:" + entryName;
    if inert then (base, usedNames)
    else if base !in usedNames then (base, usedNames + {base})
    else (base + "#" + suffix, usedNames)
  }

  /** Context and payload are told apart by the descriptor alone; `suffix` is the hash of the layout. */
  function PlanOf(segments: seq<Segment>, suffix: string, usedNames: set<string>): Plan {
    var b := Built(FieldsOf(segments));
    var inert := b.rolesSeen == {};
    Plan(SchemaName(EntryName(segments), inert, suffix, usedNames).0, b.fields, b.annotations, b.actions, inert, EntryName(segments))
  }

  lemma BuiltNext(before: seq<Field>, f: Field)
    ensures Built(before + [f]) == Added(Built(before), f)
  {
    assert (before + [f])[..|before|] == before;
  }

  lemma FieldsNext(segments: seq<Segment>, i: nat)
    requires i < |segments|
    ensures FieldsOf(segments[..i + 1]) == FieldsOf(segments[..i]) + segments[i].fields
  {
    assert segments[..i + 1][..i] == segments[..i];
  }

  /** Classify one context field; a role routes at most once. */
  method ContextAction(f: Field, rolesSeen: set<Role>) returns (action: FieldAction, seen: set<Role>)
    ensures action == Context(ThreadId) <==> f.baseName == "dial9.thread_id" && ThreadId !in rolesSeen
    ensures action == Context(TaskId) <==> f.baseName == "dial9.tokio.task_id" && TaskId !in rolesSeen
    ensures action == Context(MonotonicStart) <==> f.baseName == "dial9.monotonic_ns_start" && MonotonicStart !in rolesSeen
    ensures action == Context(MonotonicEnd) <==> f.baseName == "dial9.monotonic_ns_end" && MonotonicEnd !in rolesSeen
    ensures var role := RoleOf(f.baseName);
      if role.Some? && role.value !in rolesSeen
      then action == Context(role.value) && seen == rolesSeen + {role.value}
      else action == Skip && seen == rolesSeen
  {
    var role := RoleOf(f.baseName);
    RoleNames();
    if role.Some? && role.value !in rolesSeen {
      return Context(role.value), rolesSeen + {role.value};
    }
    return Skip, rolesSeen;
  }

  /** What the builder does with a context field, and with a field that it leaves out. */
  lemma AddedSkips(b: Builder, f: Field)
    ensures f.context ==>
      var role := RoleOf(f.baseName);
      Added(b, f) == if role.Some? && role.value !in b.rolesSeen
                     then b.(actions := b.actions + [Context(role.value)], rolesSeen := b.rolesSeen + {role.value})
                     else b.(actions := b.actions + [Skip])
    ensures !f.context && (f.skip || Collides(b.fields, f.name) || ResolveShape(f.shape, f.interned).None?) ==>
      Added(b, f) == b.(actions := b.actions + [Skip], spanNameClaimed := b.spanNameClaimed || f.spanName)
  {
  }

  /** What it does with a field that it records. */
  lemma AddedRecords(b: Builder, f: Field)
    requires !f.context && !f.skip && !Collides(b.fields, f.name) && ResolveShape(f.shape, f.interned).Some?
    ensures var (fieldType, kind) := ResolveShape(f.shape, f.interned).value;
      Added(b, f) == b.(
        actions := b.actions + [Payload(fieldType.optional, kind)],
        fields := b.fields + [FieldDef(f.name, fieldType)],
        annotations := b.annotations + Annotations(f, |b.fields|, f.spanName && !b.spanNameClaimed, kind),
        spanNameClaimed := b.spanNameClaimed || f.spanName)
  {
  }

  lemma OneMore(before: seq<Field>, seg: seq<Field>, j: nat)
    requires j < |seg|
    ensures before + seg[..j + 1] == before + seg[..j] + [seg[j]]
  {
  }

  lemma BuiltNothing()
    ensures Built(FieldsOf([])) == Builder([], HEADERS, HEADER_ANNOTATIONS, {}, false)
  {
  }

  /** Walk the descriptor segments once and build the plan. */
  method BuildPlan(segments: seq<Segment>, suffix: string, usedNames: set<string>) returns (plan: Plan, names: set<string>)
    ensures plan == PlanOf(segments, suffix, usedNames)
    ensures names == SchemaName(plan.entryName, plan.inert, suffix, usedNames).1
  {
    hide Built, FieldsOf, SchemaName, ResolveShape, Collides, Annotations, RoleOf, Added;
    BuiltNothing();
    assert segments[..0] == [];
    var entryName := if |segments| == 0 then "<unnamed>" else segments[0].name;
    var actions: seq<FieldAction> := [];
    var fields := HEADERS;
    var annotations := HEADER_ANNOTATIONS;
    var hasContext, spanNameClaimed := false, false;
    var rolesSeen: set<Role> := {};
    for i := 0 to |segments|
      invariant Builder(actions, fields, annotations, rolesSeen, spanNameClaimed) == Built(FieldsOf(segments[..i]))
      invariant hasContext <==> rolesSeen != {}
    {
      ghost var before := FieldsOf(segments[..i]);
      var seg := segments[i].fields;
      FieldsNext(segments, i);
      assert before + seg[..0] == before;
      for j := 0 to |seg|
        invariant Builder(actions, fields, annotations, rolesSeen, spanNameClaimed) == Built(before + seg[..j])
        invariant hasContext <==> rolesSeen != {}
      {
        var f := seg[j];
        BuiltNext(before + seg[..j], f);
        OneMore(before, seg, j);
        ghost var b := Built(before + seg[..j]);
        AddedSkips(b, f);
        if f.context {
          var action, seen := ContextAction(f, rolesSeen);
          hasContext := hasContext || action.Context?;
          rolesSeen := seen;
          actions := actions + [action];
          continue;
        }
        var spanName := f.spanName;
        if spanName && spanNameClaimed {
          spanName := false;
        } else if spanName {
          spanNameClaimed := true;
        }
        if f.skip || Collides(fields, f.name) {
          actions := actions + [Skip];
          continue;
        }
        var resolved := ResolveShape(f.shape, f.interned);
        if resolved.None? {
          actions := actions + [Skip];
          continue;
        }
        AddedRecords(b, f);
        var (fieldType, kind) := resolved.value;
        annotations := annotations + Annotations(f, |fields|, spanName, kind);
        fields := fields + [FieldDef(f.name, fieldType)];
        actions := actions + [Payload(fieldType.optional, kind)];
      }
      assert seg[..|seg|] == seg;
    }
    assert segments[..|segments|] == segments;
    var inert := !hasContext;
    var schemaName, used := SchemaName(entryName, inert, suffix, usedNames).0, SchemaName(entryName, inert, suffix, usedNames).1;
    plan := Plan(schemaName, fields, annotations, actions, inert, entryName);
    names := used;
  }

  // ----- What a plan does with each field -----

  /** The field could be recorded: it is no context field, not skipped, has a wire type and no header's name. */
  predicate Eligible(f: Field) {
    !f.context && !f.skip && !Collides(HEADERS, f.name) && ResolveShape(f.shape, f.interned).Some?
  }

  /** The first eligible field of its name. */
  predicate Recorded(fields: seq<Field>, i: nat)
    requires i < |fields|
  {
    Eligible(fields[i]) && forall j :: 0 <= j < i ==> !(Eligible(fields[j]) && fields[j].name == fields[i].name)
  }

  /** The first context field with the base name of a role. */
  predicate Routed(fields: seq<Field>, i: nat)
    requires i < |fields|
  {
    && fields[i].context && RoleOf(fields[i].baseName).Some?
    && forall j :: 0 <= j < i ==> !(fields[j].context && RoleOf(fields[j].baseName) == RoleOf(fields[i].baseName))
  }

  /** What happens to the `i`-th value, told from the descriptor alone. */
  function ActionOf(fields: seq<Field>, i: nat): FieldAction
    requires i < |fields|
  {
    if Routed(fields, i) then Context(RoleOf(fields[i].baseName).value)
    else if Recorded(fields, i) then
      var (fieldType, kind) := ResolveShape(fields[i].shape, fields[i].interned).value;
      Payload(fieldType.optional, kind)
    else Skip
  }

  /** The indices of the recorded fields, in order. */
  function Slots(fields: seq<Field>): (slots: seq<nat>)
    ensures forall k :: 0 <= k < |slots| ==> slots[k] < |fields|
  {
    if |fields| == 0 then []
    else
      var n := |fields| - 1;
      Slots(fields[..n]) + (if Recorded(fields, n) then [n] else [])
  }

  /** The schema field of a recorded field. */
  function DefOf(f: Field): FieldDef
    requires Eligible(f)
  {
    FieldDef(f.name, ResolveShape(f.shape, f.interned).value.0)
  }

  /** The builder's state, read off the descriptor. */
  ghost predicate Reads(b: Builder, fields: seq<Field>) {
    && |b.actions| == |fields|
    && (forall i :: 0 <= i < |fields| ==> b.actions[i] == ActionOf(fields, i))
    && |b.fields| == |HEADERS| + |Slots(fields)|
    && b.fields[..|HEADERS|] == HEADERS
    && (forall k :: 0 <= k < |Slots(fields)| ==>
          Eligible(fields[Slots(fields)[k]]) && b.fields[|HEADERS| + k] == DefOf(fields[Slots(fields)[k]]))
    && (forall r :: r in b.rolesSeen <==> exists i :: 0 <= i < |fields| && fields[i].context && RoleOf(fields[i].baseName) == Some(r))
  }

  lemma PrefixActions(fields: seq<Field>, f: Field, i: nat)
    requires i < |fields|
    ensures Recorded(fields + [f], i) == Recorded(fields, i)
    ensures Routed(fields + [f], i) == Routed(fields, i)
    ensures ActionOf(fields + [f], i) == ActionOf(fields, i)
  {
    assert forall j :: 0 <= j <= i ==> (fields + [f])[j] == fields[j];
  }

  /** A name is taken by a header, or by an eligible field that is recorded. */
  lemma NamesTaken(b: Builder, fields: seq<Field>, name: string)
    requires Reads(b, fields)
    ensures Collides(b.fields, name) <==>
      Collides(HEADERS, name) || exists i :: 0 <= i < |fields| && Eligible(fields[i]) && fields[i].name == name
  {
    if i :| 0 <= i < |fields| && Eligible(fields[i]) && fields[i].name == name {
      var k := SlotFound(fields, i);
      assert b.fields[|HEADERS| + k].name == name;
    }
    if Collides(HEADERS, name) {
      var h :| 0 <= h < |HEADERS| && HEADERS[h].name == name;
      assert b.fields[h] == b.fields[..|HEADERS|][h];
    }
    if j :| 0 <= j < |b.fields| && b.fields[j].name == name {
      if j < |HEADERS| {
        assert b.fields[j] == b.fields[..|HEADERS|][j];
      } else {
        var k := j - |HEADERS|;
        assert b.fields[|HEADERS| + k] == DefOf(fields[Slots(fields)[k]]);
      }
    }
  }

  /** The slot of the first eligible field with the name of the `i`-th. */
  lemma {:induction false} SlotFound(fields: seq<Field>, i: nat) returns (k: nat)
    requires i < |fields| && Eligible(fields[i])
    ensures k < |Slots(fields)| && fields[Slots(fields)[k]].name == fields[i].name
  {
    var n := |fields| - 1;
    if i < n {
      k := SlotFound(fields[..n], i);
    } else if j :| 0 <= j < n && Eligible(fields[j]) && fields[j].name == fields[n].name {
      k := SlotFound(fields[..n], j);
    } else {
      k := |Slots(fields)| - 1;
    }
  }

  lemma AddedReads(b: Builder, fields: seq<Field>, f: Field)
    requires Reads(b, fields)
    ensures Reads(Added(b, f), fields + [f])
  {
    var grown := fields + [f];
    var n := |fields|;
    assert grown[..n] == fields;
    NamesTaken(b, fields, f.name);
    hide ResolveShape;
    forall i: nat | i < n
      ensures grown[i] == fields[i] && ActionOf(grown, i) == ActionOf(fields, i)
    {
      PrefixActions(fields, f, i);
    }
    assert Recorded(grown, n) <==> Eligible(f) && !Collides(b.fields, f.name);
    assert Routed(grown, n) <==> f.context && RoleOf(f.baseName).Some? && RoleOf(f.baseName).value !in b.rolesSeen;
    assert Slots(grown) == Slots(fields) + (if Recorded(grown, n) then [n] else []);
  }

  /** The builder's actions and schema, for every descriptor, are those read off the descriptor. */
  lemma {:induction false} BuiltReads(fields: seq<Field>)
    ensures Reads(Built(fields), fields)
  {
    if |fields| != 0 {
      var n := |fields| - 1;
      BuiltReads(fields[..n]);
      AddedReads(Built(fields[..n]), fields[..n], fields[n]);
      assert fields[..n] + [fields[n]] == fields;
    }
  }

  // ----- What every plan satisfies -----

  /** The slots are exactly the recorded fields, in order. */
  lemma {:induction false} SlotsExact(fields: seq<Field>)
    ensures forall k :: 0 <= k < |Slots(fields)| ==> Recorded(fields, Slots(fields)[k])
    ensures forall k, l :: 0 <= k < l < |Slots(fields)| ==> Slots(fields)[k] < Slots(fields)[l]
    ensures forall i :: 0 <= i < |fields| && Recorded(fields, i) ==> i in Slots(fields)
  {
    if |fields| != 0 {
      var n := |fields| - 1;
      SlotsExact(fields[..n]);
      assert fields[..n] + [fields[n]] == fields;
      forall i: nat | i < n
        ensures Recorded(fields, i) == Recorded(fields[..n], i)
      {
        PrefixActions(fields[..n], fields[n], i);
      }
    }
  }

  /**
   For every descriptor: there is one action per field and it is the one its descriptor calls for,
   the schema is the headers followed by the recorded fields with their types, field names are
   pairwise distinct, and the plan is inert exactly if no field is routed to the event header.
   */
  lemma PlanFollowsDescriptor(segments: seq<Segment>, suffix: string, usedNames: set<string>)
    ensures var p, fields := PlanOf(segments, suffix, usedNames), FieldsOf(segments);
      && |p.actions| == |fields|
      && (forall i :: 0 <= i < |fields| ==> p.actions[i] == ActionOf(fields, i))
      && |p.fields| == |HEADERS| + |Slots(fields)| && p.fields[..|HEADERS|] == HEADERS
      && (forall k :: 0 <= k < |Slots(fields)| ==>
            Eligible(fields[Slots(fields)[k]]) && p.fields[|HEADERS| + k] == DefOf(fields[Slots(fields)[k]]))
      && (forall k, l :: 0 <= k < l < |p.fields| ==> p.fields[k].name != p.fields[l].name)
      && (p.inert <==> forall i :: 0 <= i < |fields| ==> !Routed(fields, i))
  {
    var fields := FieldsOf(segments);
    var b := Built(fields);
    BuiltReads(fields);
    SlotsExact(fields);
    forall k, l | 0 <= k < l < |b.fields|
      ensures b.fields[k].name != b.fields[l].name
    {
      if l < |HEADERS| {
        assert b.fields[k] == b.fields[..|HEADERS|][k] && b.fields[l] == b.fields[..|HEADERS|][l];
      } else {
        var f := fields[Slots(fields)[l - |HEADERS|]];
        assert b.fields[|HEADERS| + (l - |HEADERS|)] == DefOf(f);
        if k < |HEADERS| {
          assert b.fields[k] == b.fields[..|HEADERS|][k] == HEADERS[k];
        } else {
          assert b.fields[|HEADERS| + (k - |HEADERS|)] == DefOf(fields[Slots(fields)[k - |HEADERS|]]);
        }
      }
    }
    if i :| 0 <= i < |fields| && fields[i].context && RoleOf(fields[i].baseName).Some? {
      var r := FirstRouted(fields, i);
    }
  }

  /** Some field is routed to the role of a context field: the first one. */
  lemma {:induction false} FirstRouted(fields: seq<Field>, i: nat) returns (r: nat)
    requires i < |fields| && fields[i].context && RoleOf(fields[i].baseName).Some?
    ensures r <= i && Routed(fields, r) && RoleOf(fields[r].baseName) == RoleOf(fields[i].baseName)
    decreases i
  {
    if j :| 0 <= j < i && fields[j].context && RoleOf(fields[j].baseName) == RoleOf(fields[i].baseName) {
      r := FirstRouted(fields, j);
    } else {
      r := i;
    }
  }

  predicate IsSpanName(a: Annotation) {
    a.key == ROLE_KEY && a.value == SPAN_NAME_ROLE
  }

  /** At most one annotation names the span, and it sits on a scalar string field of the schema. */
  ghost predicate SpanNameOk(b: Builder) {
    && (forall i, j :: 0 <= i < j < |b.annotations| ==> !(IsSpanName(b.annotations[i]) && IsSpanName(b.annotations[j])))
    && (!b.spanNameClaimed ==> forall i :: 0 <= i < |b.annotations| ==> !IsSpanName(b.annotations[i]))
    && (forall i :: 0 <= i < |b.annotations| && IsSpanName(b.annotations[i]) ==>
          && b.annotations[i].index < |b.fields|
          && (var base := b.fields[b.annotations[i].index].fieldType.base; base == StringType || base == PooledStringType))
  }

  lemma ScalarStringType(shape: Shape, interned: bool)
    requires ResolveShape(shape, interned).Some?
    ensures var (fieldType, kind) := ResolveShape(shape, interned).value;
      kind.Scalar? && kind.kind.StrKind? ==> fieldType.base == StringType || fieldType.base == PooledStringType
  {
  }

  lemma AddedSpanName(b: Builder, f: Field)
    requires SpanNameOk(b)
    ensures SpanNameOk(Added(b, f))
  {
    if ResolveShape(f.shape, f.interned).Some? {
      ScalarStringType(f.shape, f.interned);
    }
  }

  /** However many fields ask for it, at most one becomes the span's name, and only a scalar string. */
  lemma {:induction false} SpanNameOnce(fields: seq<Field>)
    ensures SpanNameOk(Built(fields))
  {
    if |fields| != 0 {
      SpanNameOnce(fields[..|fields| - 1]);
      AddedSpanName(Built(fields[..|fields| - 1]), fields[|fields| - 1]);
    }
  }
}
