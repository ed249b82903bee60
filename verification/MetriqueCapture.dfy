/**
 Capturing one metrique value as a wire value, according to the kind its plan gives it
 (dial9-metrique/src/writer.rs). A double is a real or one of the non-finite values; its
 rounding is not modelled. The encoder is its string pool.
 */
module MetriqueCapture {
  import opened Wrappers
  import opened LocationCache
  import opened MetriquePlan

  type U64 = n: nat | n < 0x1_0000_0000_0000_0000

  const I64_MIN: int := -0x8000_0000_0000_0000
  const I64_BOUND: int := 0x8000_0000_0000_0000

  datatype Float = Finite(value: real) | NotANumber | Infinite(positive: bool)

  datatype Observation = Unsigned(v: U64) | Floating(f: Float) | Repeated(total: Float, occurrences: U64)

  /** The one callback through which a scalar writes itself, or none. */
  datatype ScalarWrite = Nothing | Text(s: string) | Metric(observations: seq<Observation>) | Invalid

  /** The one callback through which a value writes itself. */
  datatype ValueWrite = One(write: ScalarWrite) | Values(writes: seq<ScalarWrite>)

  datatype FieldValue =
    | I64(i: int) | F64(f: Float) | Bool(b: bool) | String(s: string) | PooledString(id: nat)
    | Varint(u: nat) | ListValue(items: seq<FieldValue>) | NoValue

  datatype Captured<V> = Absent | Value(value: V) | Mismatched

  // ----- Capturing -----

  /** The wire value of an observation under a planned kind, if it has one. */
  function Mapped(kind: ScalarKind, o: Observation): Option<FieldValue> {
    match o
    case Unsigned(v) =>
      (match kind
       case BoolKind => Some(Bool(v != 0))
       case UintKind => Some(Varint(v))
       case IntKind => if v < I64_BOUND then Some(I64(v)) else None
       case FloatKind => Some(F64(Finite(v as real)))
       case StrKind(_) => None)
    case Floating(f) =>
      (match kind
       case IntKind =>
         if f.Finite? && f.value.Floor as real == f.value && I64_MIN as real <= f.value < I64_BOUND as real
         then Some(I64(f.value.Floor)) else None
       case FloatKind => Some(F64(f))
       case _ => None)
    case Repeated(total, _) => if kind.FloatKind? then Some(F64(total)) else None
  }

  function CaptureScalar(pool: seq<string>, kind: ScalarKind, w: ScalarWrite): (seq<string>, Captured<FieldValue>) {
    match w
    case Nothing => (pool, Absent)
    case Invalid => (pool, Absent)
    case Text(s) =>
      if kind == StrKind(true) then
        var (grown, id) := Interned(pool, s);
        (grown, Value(PooledString(id)))
      else if kind == StrKind(false) then (pool, Value(String(s)))
      else (pool, Mismatched)
    case Metric(observations) =>
      if |observations| == 0 then (pool, Mismatched)
      else match Mapped(kind, observations[0])
        case Some(v) => (pool, Value(v))
        case None => (pool, Mismatched)
  }

  /** Capture elements in order; absent ones are left out and a mismatch ends the list for good. */
  function CaptureList(pool: seq<string>, kind: ScalarKind, writes: seq<ScalarWrite>): (seq<string>, Option<seq<FieldValue>>) {
    if |writes| == 0 then (pool, Some([]))
    else
      var n := |writes| - 1;
      var (before, items) := CaptureList(pool, kind, writes[..n]);
      if items.None? then (before, None)
      else
        var (after, item) := CaptureScalar(before, kind, writes[n]);
        match item
        case Value(v) => (after, Some(items.value + [v]))
        case Absent => (after, items)
        case Mismatched => (after, None)
  }

  function Capture(pool: seq<string>, kind: ValueKind, w: ValueWrite): (seq<string>, Captured<FieldValue>) {
    match w
    case One(write) =>
      if kind.Scalar? then CaptureScalar(pool, kind.kind, write)
      else if write.Nothing? || write.Invalid? then (pool, Absent)
      else (pool, Mismatched)
    case Values(writes) =>
      if kind.Scalar? then (pool, Mismatched)
      else
        var (grown, items) := CaptureList(pool, kind.kind, writes);
        (grown, if items.Some? then Value(ListValue(items.value)) else Mismatched)
  }

  // ----- What a captured value means -----

  /** A value without reference to any pool: pooled and plain strings both carry their text. */
  datatype Meaning =
    | Integer(i: int) | Number(f: Float) | Truth(b: bool) | Plain(s: string) | Pooled(s: string)
    | Natural(u: nat) | Items(items: seq<Meaning>) | Nowhere

  function MeaningIn(pool: seq<string>, v: FieldValue): Meaning {
    match v
    case I64(i) => Integer(i)
    case F64(f) => Number(f)
    case Bool(b) => Truth(b)
    case String(s) => Plain(s)
    case PooledString(id) => if id < |pool| then Pooled(pool[id]) else Nowhere
    case Varint(u) => Natural(u)
    case ListValue(items) => Items(MeaningsIn(pool, items))
    case NoValue => Nowhere
  }

  function MeaningsIn(pool: seq<string>, items: seq<FieldValue>): (meanings: seq<Meaning>)
    ensures |meanings| == |items|
    ensures forall i :: 0 <= i < |items| ==> meanings[i] == MeaningIn(pool, items[i])
  {
    if |items| == 0 then []
    else [MeaningIn(pool, items[0])] + MeaningsIn(pool, items[1..])
  }

  /**
   What an observation stands for in a field of this kind, told from the kind: a boolean is an
   unsigned that is not zero; a natural is an unsigned; an integer is an unsigned or a floating
   one of that very value, within 64 signed bits; a number is any observation's, a repeated one's
   total; a string is none.
   */
  predicate StandsFor(kind: ScalarKind, o: Observation, m: Meaning) {
    match kind
    case BoolKind => m.Truth? && o.Unsigned? && (m.b <==> o.v > 0)
    case UintKind => m.Natural? && o.Unsigned? && o.v == m.u
    case IntKind =>
      && m.Integer? && -0x8000_0000_0000_0000 <= m.i <= 0x7FFF_FFFF_FFFF_FFFF
      && ((o.Unsigned? && o.v == m.i) || o == Floating(Finite(m.i as real)))
    case FloatKind =>
      m.Number? && m.f == (if o.Unsigned? then Finite(o.v as real) else if o.Floating? then o.f else o.total)
    case StrKind(_) => false
  }

  /** The one meaning an observation has in a field of this kind, if any. */
  function ObservedMeaning(kind: ScalarKind, o: Observation): Option<Meaning> {
    match kind
    case BoolKind => if o.Unsigned? then Some(Truth(o.v != 0)) else None
    case UintKind => if o.Unsigned? then Some(Natural(o.v)) else None
    case IntKind =>
      if o.Unsigned? then if o.v <= 0x7FFF_FFFF_FFFF_FFFF then Some(Integer(o.v)) else None
      else if o.Floating? && o.f.Finite? then
        var i := o.f.value.Floor;
        if i as real == o.f.value && -0x8000_0000_0000_0000 <= i <= 0x7FFF_FFFF_FFFF_FFFF then Some(Integer(i)) else None
      else None
    case FloatKind =>
      (match o
       case Unsigned(v) => Some(Number(Finite(v as real)))
       case Floating(f) => Some(Number(f))
       case Repeated(total, _) => Some(Number(total)))
    case StrKind(_) => None
  }

  /** An observation has at most one meaning in a field, and that is what it stands for. */
  lemma OneMeaning(kind: ScalarKind, o: Observation, m: Meaning)
    ensures ObservedMeaning(kind, o) == Some(m) <==> StandsFor(kind, o, m)
  {
    if kind.IntKind? && m.Integer? && o == Floating(Finite(m.i as real)) {
      assert (m.i as real).Floor == m.i;
    }
  }

  /** An observation is captured exactly if it stands for something in its field, and as that. */
  lemma MappedMeans(kind: ScalarKind, o: Observation)
    ensures Mapped(kind, o).Some? <==> exists m :: StandsFor(kind, o, m)
    ensures Mapped(kind, o).Some? ==> StandsFor(kind, o, MeaningIn([], Mapped(kind, o).value))
    ensures ObservedMeaning(kind, o) == (if Mapped(kind, o).Some? then Some(MeaningIn([], Mapped(kind, o).value)) else None)
  {
    if m :| StandsFor(kind, o, m) {
      OneMeaning(kind, o, m);
    }
    if ObservedMeaning(kind, o).Some? {
      OneMeaning(kind, o, ObservedMeaning(kind, o).value);
    }
  }

  /** What a scalar should come out as, without pools. */
  function ScalarMeaning(kind: ScalarKind, w: ScalarWrite): Captured<Meaning> {
    match w
    case Nothing => Absent
    case Invalid => Absent
    case Text(s) => if kind.StrKind? then Value(if kind.interned then Pooled(s) else Plain(s)) else Mismatched
    case Metric(observations) =>
      if |observations| > 0 && ObservedMeaning(kind, observations[0]).Some?
      then Value(ObservedMeaning(kind, observations[0]).value) else Mismatched
  }

  /** The meanings of the elements that are present; none if any of them does not match. */
  function ListMeaning(kind: ScalarKind, writes: seq<ScalarWrite>): Option<seq<Meaning>> {
    if exists i :: 0 <= i < |writes| && ScalarMeaning(kind, writes[i]).Mismatched? then None
    else Some(Present(kind, writes))
  }

  function Present(kind: ScalarKind, writes: seq<ScalarWrite>): seq<Meaning> {
    if |writes| == 0 then []
    else
      var n := |writes| - 1;
      var m := ScalarMeaning(kind, writes[n]);
      Present(kind, writes[..n]) + (if m.Value? then [m.value] else [])
  }

  function ValueMeaning(kind: ValueKind, w: ValueWrite): Captured<Meaning> {
    match w
    case One(write) =>
      if kind.Scalar? then ScalarMeaning(kind.kind, write)
      else if write.Nothing? || write.Invalid? then Absent
      else Mismatched
    case Values(writes) =>
      if kind.Scalar? then Mismatched
      else
        var items := ListMeaning(kind.kind, writes);
        if items.Some? then Value(Items(items.value)) else Mismatched
  }

  /** The value is in range for a scalar of this kind, with its string in a pool of the given size. */
  predicate FitsScalar(size: nat, kind: ScalarKind, v: FieldValue) {
    match kind
    case BoolKind => v.Bool?
    case UintKind => v.Varint? && v.u < 0x1_0000_0000_0000_0000
    case IntKind => v.I64? && I64_MIN <= v.i < I64_BOUND
    case FloatKind => v.F64?
    case StrKind(interned) => if interned then v.PooledString? && v.id < size else v.String?
  }

  predicate FitsKind(size: nat, kind: ValueKind, v: FieldValue) {
    if kind.Scalar? then FitsScalar(size, kind.kind, v)
    else v.ListValue? && forall i :: 0 <= i < |v.items| ==> FitsScalar(size, kind.kind, v.items[i])
  }

  /** A captured outcome has the given meaning in a pool. */
  ghost predicate Means(pool: seq<string>, c: Captured<FieldValue>, m: Captured<Meaning>) {
    match c
    case Absent => m.Absent?
    case Mismatched => m.Mismatched?
    case Value(v) => m.Value? && MeaningIn(pool, v) == m.value
  }

  lemma FlatKeepsMeaning(pool: seq<string>, grown: seq<string>, v: FieldValue)
    requires pool <= grown && MeaningIn(pool, v) != Nowhere && !v.ListValue?
    ensures MeaningIn(grown, v) == MeaningIn(pool, v)
  {
  }

  lemma GrowthKeepsMeaning(pool: seq<string>, grown: seq<string>, v: FieldValue)
    requires pool <= grown && MeaningIn(pool, v) != Nowhere
    requires v.ListValue? ==> forall i :: 0 <= i < |v.items| ==> !v.items[i].ListValue? && MeaningIn(pool, v.items[i]) != Nowhere
    ensures MeaningIn(grown, v) == MeaningIn(pool, v)
  {
    if v.ListValue? {
      forall i | 0 <= i < |v.items|
        ensures MeaningsIn(grown, v.items)[i] == MeaningsIn(pool, v.items)[i]
      {
        FlatKeepsMeaning(pool, grown, v.items[i]);
      }
      assert MeaningsIn(grown, v.items) == MeaningsIn(pool, v.items);
    } else {
      FlatKeepsMeaning(pool, grown, v);
    }
  }

  lemma ScalarMeans(pool: seq<string>, kind: ScalarKind, w: ScalarWrite)
    ensures var (grown, c) := CaptureScalar(pool, kind, w);
      && pool <= grown && Means(grown, c, ScalarMeaning(kind, w))
      && (c.Value? ==> FitsScalar(|grown|, kind, c.value) && MeaningIn(grown, c.value) != Nowhere && !c.value.ListValue?)
  {
    if w.Metric? && |w.observations| > 0 {
      MappedMeans(kind, w.observations[0]);
    }
  }

  lemma FitsGrows(size: nat, grown: nat, kind: ScalarKind, v: FieldValue)
    requires size <= grown && FitsScalar(size, kind, v)
    ensures FitsScalar(grown, kind, v) && !v.ListValue?
  {
  }

  /** A captured list: the elements mean what was written, and fit. */
  ghost predicate ListOk(pool: seq<string>, kind: ScalarKind, items: seq<FieldValue>, meanings: seq<Meaning>) {
    && MeaningsIn(pool, items) == meanings
    && forall i :: 0 <= i < |items| ==> FitsScalar(|pool|, kind, items[i]) && MeaningIn(pool, items[i]) != Nowhere
  }

  lemma ListOkGrows(pool: seq<string>, grown: seq<string>, kind: ScalarKind, items: seq<FieldValue>, meanings: seq<Meaning>)
    requires pool <= grown && ListOk(pool, kind, items, meanings)
    ensures ListOk(grown, kind, items, meanings)
  {
    forall i | 0 <= i < |items|
      ensures FitsScalar(|grown|, kind, items[i]) && MeaningIn(grown, items[i]) == MeaningIn(pool, items[i])
    {
      FitsGrows(|pool|, |grown|, kind, items[i]);
      GrowthKeepsMeaning(pool, grown, items[i]);
    }
  }

  lemma {:induction false} MeaningsAppend(pool: seq<string>, items: seq<FieldValue>, v: FieldValue)
    ensures MeaningsIn(pool, items + [v]) == MeaningsIn(pool, items) + [MeaningIn(pool, v)]
  {
  }

  /** Capturing one more element of a list. */
  lemma ListOkNext(pool: seq<string>, kind: ScalarKind, items: seq<FieldValue>, meanings: seq<Meaning>, w: ScalarWrite)
    requires ListOk(pool, kind, items, meanings)
    ensures var (grown, c) := CaptureScalar(pool, kind, w);
      var m := ScalarMeaning(kind, w);
      && pool <= grown && (c.Value? <==> m.Value?) && (c.Mismatched? <==> m.Mismatched?)
      && (c.Value? ==> ListOk(grown, kind, items + [c.value], meanings + [m.value]))
      && (c.Absent? ==> ListOk(grown, kind, items, meanings))
  {
    ScalarMeans(pool, kind, w);
    var (grown, c) := CaptureScalar(pool, kind, w);
    ListOkGrows(pool, grown, kind, items, meanings);
    hide CaptureScalar, ScalarMeaning, FitsScalar;
    if c.Value? {
      MeaningsAppend(grown, items, c.value);
    }
  }

  lemma {:induction false} ListMeans(pool: seq<string>, kind: ScalarKind, writes: seq<ScalarWrite>)
    ensures var (grown, items) := CaptureList(pool, kind, writes);
      && pool <= grown
      && (items.Some? <==> ListMeaning(kind, writes).Some?)
      && (items.Some? ==> ListOk(grown, kind, items.value, ListMeaning(kind, writes).value))
  {
    if |writes| != 0 {
      var n := |writes| - 1;
      ListMeans(pool, kind, writes[..n]);
      var (before, items) := CaptureList(pool, kind, writes[..n]);
      ListMeaningNext(kind, writes);
      hide CaptureScalar, ScalarMeaning, ListMeaning, ListOk;
      if items.Some? {
        ListOkNext(before, kind, items.value, ListMeaning(kind, writes[..n]).value, writes[n]);
      }
    }
  }

  /** How one more element changes a list's meaning. */
  lemma ListMeaningNext(kind: ScalarKind, writes: seq<ScalarWrite>)
    requires |writes| > 0
    ensures var n := |writes| - 1;
      var before, last := ListMeaning(kind, writes[..n]), ScalarMeaning(kind, writes[n]);
      ListMeaning(kind, writes)
        == if before.None? || last.Mismatched? then None
           else Some(before.value + (if last.Value? then [last.value] else []))
  {
    var n := |writes| - 1;
    hide ScalarMeaning;
    if before :| 0 <= before < n && ScalarMeaning(kind, writes[before]).Mismatched? {
      assert writes[..n][before] == writes[before];
    }
    assert forall i :: 0 <= i < n ==> writes[..n][i] == writes[i];
  }

  /** Every capture grows the pool only, and what it captures means what was written and fits its kind. */
  lemma CaptureMeans(pool: seq<string>, kind: ValueKind, w: ValueWrite)
    ensures var (grown, c) := Capture(pool, kind, w);
      && pool <= grown && Means(grown, c, ValueMeaning(kind, w))
      && (c.Value? ==> FitsKind(|grown|, kind, c.value))
  {
    if kind.Scalar? && w.One? {
      ScalarMeans(pool, kind.kind, w.write);
    } else if kind.ListOf? && w.Values? {
      ListMeans(pool, kind.kind, w.writes);
    }
  }

  /** A fitting value keeps its meaning, and keeps fitting, while the pool grows. */
  lemma FittingLasts(pool: seq<string>, grown: seq<string>, kind: ValueKind, v: FieldValue)
    requires pool <= grown && FitsKind(|pool|, kind, v)
    ensures FitsKind(|grown|, kind, v) && MeaningIn(grown, v) == MeaningIn(pool, v)
  {
    GrowthKeepsMeaning(pool, grown, v);
  }
}
