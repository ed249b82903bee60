/**
 The schema of a metrique plan: its wire types, annotations and name, told from the descriptors
 alone (dial9-metrique/src/plan.rs).
 */
module MetriqueSchema {
  import opened Wrappers
  import opened MetriquePlan
  import opened MetriqueStream

  // ----- Wire types -----

  /** The wire type and capture kind of a known type; opaque bytes and unknown types have none. */
  predicate TypeIs(known: Known, interned: bool, base: BaseType, kind: ScalarKind) {
    || (known in {KU8, KU16, KU32, KU64} && base == VarintType && kind == UintKind)
    || (known in {KI8, KI16, KI32, KI64} && base == I64Type && kind == IntKind)
    || (known in {KF32, KF64} && base == F64Type && kind == FloatKind)
    || (known == KBool && base == BoolType && kind == BoolKind)
    || (known == KString && !interned && base == StringType && kind == StrKind(false))
    || (known == KString && interned && base == PooledStringType && kind == StrKind(true))
  }

  /** A list's element type under any number of optionals. */
  function Bare(shape: Shape): Shape {
    if shape.Optional? then Bare(shape.inner) else shape
  }

  /**
   The field is a known type or a list of one, optional at most once outside the list and any
   number of times within, and only strings are interned.
   */
  ghost predicate ShapeIs(shape: Shape, interned: bool, t: FieldType, kind: ValueKind) {
    var inside := if shape.Optional? then shape.inner else shape;
    && t.optional == shape.Optional?
    && (interned ==> kind.kind == StrKind(true))
    && ((inside.Known? && kind.Scalar? && TypeIs(inside.known, interned, t.base, kind.kind))
        || (inside.List? && kind.ListOf? && t.base == DynamicListType && Bare(inside.elem).Known?
            && exists base :: TypeIs(Bare(inside.elem).known, interned, base, kind.kind)))
  }

  lemma KnownIs(known: Known, interned: bool, base: BaseType, kind: ScalarKind)
    ensures ResolveKnown(known, interned) == Some((base, kind)) <==> TypeIs(known, interned, base, kind)
  {
  }

  lemma {:induction false} ElementIs(shape: Shape, interned: bool, kind: ScalarKind)
    ensures ResolveElement(shape, interned) == Some(kind)
       <==> Bare(shape).Known? && exists base :: TypeIs(Bare(shape).known, interned, base, kind)
  {
    hide TypeIs, ResolveKnown;
    match shape
    case Optional(inner) => ElementIs(inner, interned, kind);
    case Known(known) =>
      forall base
        ensures ResolveKnown(known, interned) == Some((base, kind)) <==> TypeIs(known, interned, base, kind)
      {
        KnownIs(known, interned, base, kind);
      }
    case _ =>
  }

  /** Every shape resolves to exactly the wire type and kind its structure calls for. */
  lemma ShapeResolves(shape: Shape, interned: bool, t: FieldType, kind: ValueKind)
    ensures ResolveShape(shape, interned) == Some((t, kind)) <==> ShapeIs(shape, interned, t, kind)
  {
    var inside := if shape.Optional? then shape.inner else shape;
    match inside
    case Known(known) =>
      KnownIs(known, interned, t.base, kind.kind);
    case List(elem) =>
      ElementIs(elem, interned, kind.kind);
      var element := ResolveElement(elem, interned);
      if element.Some? {
        ElementIs(elem, interned, element.value);
        var base :| TypeIs(Bare(elem).known, interned, base, element.value);
      }
      if ShapeIs(shape, interned, t, kind) {
        assert exists base :: TypeIs(Bare(inside.elem).known, interned, base, kind.kind);
        assert element == Some(kind.kind) && t == FieldType(DynamicListType, shape.Optional?);
      }
    case _ =>
  }

  // ----- Annotations -----

  /** The first field that asks to name the span, context fields aside. */
  ghost predicate NamesSpan(fields: seq<Field>, i: nat) {
    && i < |fields| && !fields[i].context && fields[i].spanName
    && forall j :: 0 <= j < i ==> fields[j].context || !fields[j].spanName
  }

  predicate ScalarString(f: Field) {
    var resolved := ResolveShape(f.shape, f.interned);
    resolved.Some? && resolved.value.1.Scalar? && resolved.value.1.kind.StrKind?
  }

  /** The annotations of the `k`-th recorded field: its unit, and the span name if it is a scalar string. */
  ghost predicate OfField(fields: seq<Field>, k: nat, a: Annotation)
    requires k < |Slots(fields)|
  {
    var i := Slots(fields)[k];
    && a.index == 4 + k <= 0xFFFF
    && ((a.key == "unit" && fields[i].unit == Some(a.value))
        || (a.key == "dial9.role" && a.value == "span.name" && NamesSpan(fields, i) && ScalarString(fields[i])))
  }

  /** The header's own annotations. */
  predicate OfHeader(a: Annotation) {
    || a == Annotation(0, "dial9.role", "thread_id")
    || a == Annotation(1, "dial9.role", "tokio.task_id")
    || a == Annotation(2, "dial9.role", "span.duration")
    || a == Annotation(2, "dial9.span.type", "metrique")
    || a == Annotation(2, "unit", "ns")
  }

  /** Some field has asked to name the span. */
  ghost predicate Asked(fields: seq<Field>) {
    exists i :: 0 <= i < |fields| && !fields[i].context && fields[i].spanName
  }

  /** An annotation of a plan: one of the header's or of a recorded field. */
  ghost predicate IsAnnotation(fields: seq<Field>, a: Annotation) {
    OfHeader(a) || exists k: nat :: k < |Slots(fields)| && OfField(fields, k, a)
  }

  ghost predicate Annotated(b: Builder, fields: seq<Field>) {
    (b.spanNameClaimed <==> Asked(fields)) && forall a :: a in b.annotations <==> IsAnnotation(fields, a)
  }

  lemma SlotsGrow(fields: seq<Field>, f: Field)
    ensures Slots(fields + [f]) == Slots(fields) + (if Recorded(fields + [f], |fields|) then [|fields|] else [])
  {
    assert (fields + [f])[..|fields|] == fields;
  }

  lemma AskedGrows(fields: seq<Field>, f: Field)
    ensures Asked(fields + [f]) <==> Asked(fields) || (!f.context && f.spanName)
    ensures NamesSpan(fields + [f], |fields|) <==> !f.context && f.spanName && !Asked(fields)
  {
    var grown, n := fields + [f], |fields|;
    assert grown[n] == f && forall j :: 0 <= j < n ==> grown[j] == fields[j];
  }

  /** The annotations of fields recorded before stay as they were. */
  lemma FieldStays(fields: seq<Field>, f: Field, k: nat, a: Annotation)
    requires k < |Slots(fields)| && k < |Slots(fields + [f])| && Slots(fields + [f])[k] == Slots(fields)[k]
    ensures OfField(fields + [f], k, a) == OfField(fields, k, a)
  {
    var i := Slots(fields)[k];
    hide Slots, ResolveShape;
    assert forall j :: 0 <= j <= i ==> (fields + [f])[j] == fields[j];
  }

  /** The annotations the builder adds for a recorded field are those of its slot. */
  lemma FieldAdds(fields: seq<Field>, f: Field, index: nat, spanName: bool, a: Annotation)
    requires Recorded(fields + [f], |fields|) && Slots(fields + [f]) == Slots(fields) + [|fields|]
    requires index == 4 + |Slots(fields)| && ResolveShape(f.shape, f.interned).Some?
    requires spanName <==> NamesSpan(fields + [f], |fields|)
    ensures a in Annotations(f, index, spanName, ResolveShape(f.shape, f.interned).value.1)
       <==> OfField(fields + [f], |Slots(fields)|, a)
  {
    hide Slots, Recorded, ResolveShape, NamesSpan;
  }

  /** What one more field adds to the annotations. */
  lemma AnnotationsGrow(fields: seq<Field>, f: Field, a: Annotation)
    requires var grown := fields + [f];
      Slots(grown) == Slots(fields) + (if Recorded(grown, |fields|) then [|fields|] else [])
    ensures var grown := fields + [f];
      IsAnnotation(grown, a)
      <==> IsAnnotation(fields, a) || (Recorded(grown, |fields|) && OfField(grown, |Slots(fields)|, a))
  {
    var grown := fields + [f];
    hide Slots, Recorded, OfHeader, OfField;
    if IsAnnotation(grown, a) && !OfHeader(a) {
      var k: nat :| k < |Slots(grown)| && OfField(grown, k, a);
      if k < |Slots(fields)| {
        FieldStays(fields, f, k, a);
      }
    }
    if IsAnnotation(fields, a) && !OfHeader(a) {
      var k: nat :| k < |Slots(fields)| && OfField(fields, k, a);
      FieldStays(fields, f, k, a);
    }
  }

  /** What one more field does to the builder, in the descriptor's terms. */
  lemma AddedParts(b: Builder, fields: seq<Field>, f: Field)
    requires Reads(b, fields) && (b.spanNameClaimed <==> Asked(fields))
    ensures var grown, b' := fields + [f], Added(b, f);
      && |b.fields| == 4 + |Slots(fields)|
      && (b'.spanNameClaimed <==> b.spanNameClaimed || (!f.context && f.spanName))
      && (Recorded(grown, |fields|) ==> ResolveShape(f.shape, f.interned).Some?)
      && b'.annotations
         == b.annotations
            + (if Recorded(grown, |fields|)
               then Annotations(f, |b.fields|, f.spanName && !b.spanNameClaimed, ResolveShape(f.shape, f.interned).value.1) else [])
  {
    var grown, n := fields + [f], |fields|;
    NamesTaken(b, fields, f.name);
    assert grown[n] == f && forall j :: 0 <= j < n ==> grown[j] == fields[j];
    assert Recorded(grown, n) <==> Eligible(f) && !Collides(b.fields, f.name);
  }

  lemma AddedAnnotates(b: Builder, fields: seq<Field>, f: Field)
    requires Reads(b, fields) && Annotated(b, fields)
    ensures Annotated(Added(b, f), fields + [f])
  {
    var grown, n := fields + [f], |fields|;
    AddedParts(b, fields, f);
    hide Reads, Slots, ResolveShape, Added, Asked, IsAnnotation, Recorded, OfField, Annotations, NamesSpan;
    SlotsGrow(fields, f);
    AskedGrows(fields, f);
    forall a
      ensures a in Added(b, f).annotations <==> IsAnnotation(grown, a)
    {
      AnnotationsGrow(fields, f, a);
      if Recorded(grown, n) {
        RecordedIsPayload(grown, n);
        FieldAdds(fields, f, |b.fields|, f.spanName && !b.spanNameClaimed, a);
      }
    }
  }

  lemma RecordedIsPayload(fields: seq<Field>, i: nat)
    requires i < |fields| && Recorded(fields, i)
    ensures !fields[i].context
  {
  }

  lemma EmptyAnnotates()
    ensures Annotated(EMPTY, [])
  {
  }

  lemma {:induction false} BuiltAnnotates(fields: seq<Field>)
    ensures Annotated(Built(fields), fields)
  {
    if |fields| == 0 {
      EmptyAnnotates();
    } else {
      var n := |fields| - 1;
      BuiltAnnotates(fields[..n]);
      BuiltReads(fields[..n]);
      hide Annotated, Reads, Added;
      AddedAnnotates(Built(fields[..n]), fields[..n], fields[n]);
      assert fields[..n] + [fields[n]] == fields;
    }
  }

  /**
   A plan's annotations are the header's five, the unit of every recorded field that has one, and
   the span name of the first field that asks for it if that field is recorded and a scalar string;
   fields beyond the 16-bit index range have none.
   */
  lemma PlanAnnotations(segments: seq<Segment>, suffix: string, usedNames: set<string>, a: Annotation)
    ensures a in PlanOf(segments, suffix, usedNames).annotations
      <==> OfHeader(a) || exists k: nat :: k < |Slots(FieldsOf(segments))| && OfField(FieldsOf(segments), k, a)
  {
    BuiltAnnotates(FieldsOf(segments));
    hide Slots, FieldsOf, OfField, OfHeader, Built;
    assert a in Built(FieldsOf(segments)).annotations <==> IsAnnotation(FieldsOf(segments), a);
  }

  // ----- Schema names -----

  /** Some field of the descriptor is routed to the event header. */
  ghost predicate Live(d: Described) {
    exists i: nat :: i < |FieldsOf(d.segments)| && Routed(FieldsOf(d.segments), i)
  }

  /** The entry's name: its first segment's. */
  function NameOf(d: Described): string {
    if d.segments == [] then "<unnamed>" else d.segments[0].name
  }

  lemma LiveIs(d: Described, used: set<string>)
    ensures var p := PlanOf(d.segments, d.suffix, used);
      && (p.inert <==> !Live(d)) && EntryName(d.segments) == NameOf(d)
      && p.schemaName == SchemaName(NameOf(d), p.inert, d.suffix, used).0
  {
    PlanFollowsDescriptor(d.segments, d.suffix, used);
    hide FieldsOf, Slots, Routed, Built, SchemaName, ActionOf, Eligible;
  }

  /** A live plan with this bare schema name. */
  ghost predicate Bears(d: Described, name: string) {
    Live(d) && name == "metrique:" + NameOf(d)
  }

  /** A live plan takes its bare name; an inert one takes none. */
  lemma NamesNext(describe: Key -> Described, keys: seq<Key>, name: string)
    requires |keys| > 0
    ensures var n := |keys| - 1;
      name in NamesAfter(describe, keys) <==> name in NamesAfter(describe, keys[..n]) || Bears(describe(keys[n]), name)
  {
    var n := |keys| - 1;
    LiveIs(describe(keys[n]), NamesAfter(describe, keys[..n]));
    hide Live, NameOf, PlanOf;
  }

  /** The schema names taken by live plans: the bare ones of their entries. */
  lemma {:induction false} NamesAre(describe: Key -> Described, keys: seq<Key>, name: string)
    ensures name in NamesAfter(describe, keys) <==> exists i :: 0 <= i < |keys| && Bears(describe(keys[i]), name)
  {
    hide Bears;
    if |keys| != 0 {
      var n := |keys| - 1;
      NamesAre(describe, keys[..n], name);
      NamesNext(describe, keys, name);
      hide *;
      assert forall i :: 0 <= i < n ==> keys[..n][i] == keys[i];
    }
  }

  /** An earlier live plan is for an entry of the same name. */
  ghost predicate NameTaken(describe: Key -> Described, keys: seq<Key>, i: nat)
    requires i < |keys|
  {
    exists j :: 0 <= j < i && Live(describe(keys[j])) && NameOf(describe(keys[j])) == NameOf(describe(keys[i]))
  }

  lemma PrefixedOnce(name: string, other: string)
    ensures "metrique:" + name == "metrique:" + other <==> name == other
  {
    assert ("metrique:" + name)[9..] == name && ("metrique:" + other)[9..] == other;
  }

  /** A bare schema name is in use exactly if an earlier live plan has the entry's name. */
  lemma TakenIs(describe: Key -> Described, keys: seq<Key>, i: nat)
    requires i < |keys|
    ensures "metrique:" + NameOf(describe(keys[i])) in NamesAfter(describe, keys[..i]) <==> NameTaken(describe, keys, i)
  {
    var name := NameOf(describe(keys[i]));
    NamesAre(describe, keys[..i], "metrique:" + name);
    hide NamesAfter, Live, NameOf;
    forall j | 0 <= j < i
      ensures keys[..i][j] == keys[j]
      ensures "metrique:" + name == "metrique:" + NameOf(describe(keys[j])) <==> name == NameOf(describe(keys[j]))
    {
      PrefixedOnce(name, NameOf(describe(keys[j])));
    }
  }

  /**
   The schema name of the `i`-th distinct key: `metrique:` and the entry's name for the first live
   plan of that name and for every inert one; every later live plan has its layout's suffix appended.
   */
  lemma PlanName(describe: Key -> Described, keys: seq<Key>, i: nat)
    requires i < |keys|
    ensures var d := describe(keys[i]);
      && (PlanAt(describe, keys, i).inert <==> !Live(d))
      && PlanAt(describe, keys, i).schemaName
         == "metrique:" + NameOf(d) + (if Live(d) && NameTaken(describe, keys, i) then "#" + d.suffix else "")
  {
    var d, used := describe(keys[i]), NamesAfter(describe, keys[..i]);
    var base := "metrique:" + NameOf(d);
    LiveIs(d, used);
    TakenIs(describe, keys, i);
    hide NamesAfter, Live, NameOf, PlanOf, NameTaken;
    assert base + "" == base && base + "#" + d.suffix == base + ("#" + d.suffix);
  }

  /** Live plans for entries of one name have different schema names if their layouts hash differently. */
  lemma NamesDiffer(describe: Key -> Described, keys: seq<Key>, i: nat, j: nat)
    requires i < j < |keys| && Live(describe(keys[i])) && Live(describe(keys[j]))
    requires NameOf(describe(keys[i])) == NameOf(describe(keys[j])) && describe(keys[i]).suffix != describe(keys[j]).suffix
    ensures PlanAt(describe, keys, i).schemaName != PlanAt(describe, keys, j).schemaName
  {
    PlanName(describe, keys, i);
    PlanName(describe, keys, j);
    hide PlanAt, Live, NameOf;
    assert NameTaken(describe, keys, j);
    var base, n := "metrique:" + NameOf(describe(keys[j])), |NameOf(describe(keys[j]))| + 9;
    var long := base + ("#" + describe(keys[j]).suffix);
    assert base + "#" + describe(keys[j]).suffix == long && |long| > n;
    assert long[n + 1..] == describe(keys[j]).suffix;
    if NameTaken(describe, keys, i) {
      var other := base + ("#" + describe(keys[i]).suffix);
      assert other[n + 1..] == describe(keys[i]).suffix;
    } else {
      assert base + "" == base;
    }
  }
}
