/**
 What a segment writer's operations do to its state (dial9-core/src/buffer.rs).
 The outcomes of file system calls, clock readings and encoded record sizes are parameters.
 The last group of `Writer` fields is history: it records what the operations did and is never read by them.
 */
module SegmentSpec {
  import opened Wrappers
  import opened Collector
  import opened SegmentMetadata
  import opened Rotation

  const SEGMENT_COMPLETE_KEY: string := "segment.complete"
  const MAX_SEGMENT_INDEX: nat := 0xFFFF_FFFF

  /** Whether a rotation drained thread-local buffers before sealing. */
  datatype SealKind = Drained | Overflow

  /** A data record remembers the metadata in force when it was written; a torn one is what a failed write left. */
  datatype Record = Meta(entries: seq<Entry>) | Data(batch: Batch, metadata: seq<Entry>) | TornRecord(left: nat)

  /** The outcome of writing a metadata record: its size, or how much of it a failed write left. */
  datatype RecordWrite = Wrote(size: nat) | Tore(left: nat)

  /** The outcome of writing a batch. */
  datatype BatchWrite = BatchWrote | BatchTore(left: nat)

  /** The segment being written; `openBytes` is its size when it was opened. */
  datatype Active = Active(bytes: nat, openBytes: nat, needMetadata: bool, records: seq<Record>)

  /** A closed file that counts towards the byte budget. */
  datatype ClosedFile = ClosedFile(index: nat, bytes: nat)

  /** What became of a segment that stopped being active. */
  datatype SealFate = Kept | Abandoned | Lost | Discarded

  /** A segment that stopped being active; `stamp` is the `segment.complete` value it carries, if it was written. */
  datatype Sealed = Sealed(
    index: nat, bytes: nat, records: seq<Record>, metadata: seq<Entry>,
    kind: SealKind, stamp: Option<bool>, fate: SealFate)

  /** What happened to a non-empty batch offered to the writer. */
  datatype OfferFate = Accepted | Dropped | Failed
  datatype Offer = Offer(batch: Batch, fate: OfferFate)

  datatype Writer = Writer(
    active: Option<Active>,
    closed: seq<ClosedFile>,
    nextIndex: nat,
    metadata: seq<Entry>,
    droppedEvents: nat,
    sealedClean: nat,
    sealedUndrained: nat,
    hasRealEvents: bool,
    metadataChanged: bool,
    currentPeriod: real,
    segmentStartedAt: real,
    nextRotation: Option<real>,
    nextDrain: real,
    priorSeal: SealKind,
    // history
    log: seq<Sealed>,
    found: seq<ClosedFile>,
    evicted: seq<ClosedFile>,
    offers: seq<Offer>)

  /** The environment of one rotation; `None` stands for a failed open. */
  datatype RotateEnv = RotateEnv(now: real, sealMeta: RecordWrite, seal: IoResult, open: Option<nat>)

  /** The environment of one batch write. */
  datatype WriteEnv = WriteEnv(meta: RecordWrite, batch: BatchWrite, rotate: RotateEnv)

  /** A new state and whether the call returned `Ok`. */
  datatype Outcome = Outcome(writer: Writer, ok: bool)

  // ----- Sizes and eviction -----

  function Total(closed: seq<ClosedFile>): nat {
    if |closed| == 0 then 0 else closed[0].bytes + Total(closed[1..])
  }

  function ActiveBytes(w: Writer): nat {
    if w.active.Some? then w.active.value.bytes else 0
  }

  /** How many of the oldest closed files go so that the rest fits the budget beside the active segment. */
  function EvictCount(closed: seq<ClosedFile>, activeBytes: nat, budget: nat): (n: nat)
    ensures n <= |closed|
  {
    if |closed| == 0 || Total(closed) + activeBytes <= budget then 0
    else 1 + EvictCount(closed[1..], activeBytes, budget)
  }

  /** Evict oldest-first; stop writing if even the active segment alone exceeds the budget. */
  function Evict(c: Config, w: Writer): Writer {
    if !c.isDisk then w
    else
      var n := EvictCount(w.closed, ActiveBytes(w), c.maxTotalSize);
      var w' := w.(closed := w.closed[n..], evicted := w.evicted + w.closed[..n]);
      if Total(w'.closed) + ActiveBytes(w') > c.maxTotalSize then w'.(active := None) else w'
  }

  // ----- Metadata records -----

  function WithMeta(a: Active, entries: seq<Entry>, size: nat): Active {
    a.(bytes := a.bytes + size, records := a.records + [Meta(entries)])
  }

  /** What a failed write leaves in the segment, and in its byte count. */
  function WithTorn(a: Active, left: nat): Active {
    a.(bytes := a.bytes + left, records := a.records + [TornRecord(left)])
  }

  function Torn(w: Writer, left: nat): Writer {
    if w.active.Some? then w.(active := Some(WithTorn(w.active.value, left))) else w
  }

  function MetadataIfNeeded(w: Writer, write: RecordWrite): Outcome {
    if w.active.None? || !w.active.value.needMetadata then Outcome(w, true)
    else
      match write
      case Wrote(size) => Outcome(w.(active := Some(WithMeta(w.active.value, w.metadata, size).(needMetadata := false))), true)
      case Tore(left) => Outcome(w.(active := Some(WithTorn(w.active.value, left))), false)
  }

  function Complete(w: Writer, kind: SealKind): bool {
    kind == Drained && w.priorSeal == Drained
  }

  function StampEntry(complete: bool): Entry {
    (SEGMENT_COMPLETE_KEY, if complete then "true" else "false")
  }

  /** Stamp the active segment; a failed write leaves it without the key. */
  function SealMetadata(w: Writer, kind: SealKind, write: RecordWrite): Writer {
    if w.active.None? then w
    else
      match write
      case Wrote(size) => w.(active := Some(WithMeta(w.active.value, w.metadata + [StampEntry(Complete(w, kind))], size)))
      case Tore(left) => w.(active := Some(WithTorn(w.active.value, left)))
  }

  function CountSeal(w: Writer, kind: SealKind): Writer {
    if kind == Drained then w.(sealedClean := w.sealedClean + 1)
    else w.(sealedUndrained := w.sealedUndrained + 1)
  }

  // ----- Rotation -----

  function FateOf(seal: IoResult): SealFate {
    match seal
    case IoOk => Kept
    case IoNotFound => Abandoned
    case IoError => Lost
  }

  /** The log entry for the active segment of `stamped`, sealed as `kind`. */
  function SealEntry(stamped: Writer, kind: SealKind, stamp: Option<bool>, fate: SealFate): Sealed
    requires stamped.active.Some?
  {
    var a := stamped.active.value;
    Sealed(if stamped.nextIndex == 0 then 0 else stamped.nextIndex - 1, a.bytes, a.records, stamped.metadata, kind, stamp, fate)
  }

  function Timed(c: Config, w: Writer, now: real): Writer {
    var period := Adapt(c, w.currentPeriod, ActiveBytes(w), Max(0.0, now - w.segmentStartedAt));
    w.(currentPeriod := period,
       segmentStartedAt := now,
       nextRotation := NextRotation(now, period),
       nextDrain := now + DrainInterval(period))
  }

  /** Close the active segment: it joins the log, and the closed files if its seal succeeded on disk. */
  function Closed(c: Config, w: Writer, entry: Sealed): Writer {
    w.(active := None,
       log := w.log + [entry],
       closed := if entry.fate == Kept && c.isDisk then w.closed + [ClosedFile(entry.index, entry.bytes)] else w.closed)
  }

  function StampOf(w: Writer, kind: SealKind, write: RecordWrite): Option<bool> {
    if write.Wrote? then Some(Complete(w, kind)) else None
  }

  /** Stamp the active segment, advance all timers, then close it with the outcome of its seal. */
  function SealedActive(c: Config, w: Writer, kind: SealKind, env: RotateEnv): Writer
    requires w.active.Some?
  {
    var stamped := SealMetadata(w, kind, env.sealMeta);
    var timed := Timed(c, CountSeal(stamped.(priorSeal := kind), kind), env.now);
    Closed(c, timed, SealEntry(timed, kind, StampOf(w, kind, env.sealMeta), FateOf(env.seal)))
  }

  /** Start a fresh segment and enforce the budget. */
  function Reopened(c: Config, w: Writer, openBytes: nat): Writer {
    Evict(c, w.(active := Some(Active(openBytes, openBytes, true, [])), hasRealEvents := false, metadataChanged := false))
  }

  function Rotated(c: Config, w: Writer, kind: SealKind, env: RotateEnv): Outcome {
    if w.active.None? then Outcome(w, true)
    else
      var sealed := SealedActive(c, w, kind, env);
      if env.seal == IoError then Outcome(sealed, false)
      else
        var advanced := sealed.(nextIndex := sealed.nextIndex + 1);
        if env.open.None? then Outcome(advanced, false)
        else Outcome(Reopened(c, advanced, env.open.value), true)
  }

  // ----- Public operations -----

  /** A new writer on an opened first segment; files of earlier lifetimes count towards the budget at once. */
  function Created(c: Config, found: seq<ClosedFile>, firstIndex: nat, metadata: seq<Entry>, now: real, openBytes: nat): Writer {
    var period := FirstPeriod(c);
    Evict(c, Writer(
      Some(Active(openBytes, openBytes, true, [])),
      found, firstIndex + 1, metadata, 0, 0, 0, false, false,
      period, now, NextRotation(now, period), now + DrainInterval(period), Drained,
      [], found, [], []))
  }

  function Updated(w: Writer, incoming: seq<Entry>): Writer {
    var merged := Merged(w.metadata, incoming);
    if merged == w.metadata then w
    else
      var w' := w.(metadata := merged, metadataChanged := true);
      if w.active.Some? then w'.(active := Some(w.active.value.(needMetadata := true))) else w'
  }

  /** Seal the active segment if it outgrew the file limit. */
  function MaybeRotated(c: Config, w: Writer, env: RotateEnv): Outcome {
    if w.active.Some? && w.active.value.bytes > c.maxFileSize then Rotated(c, w, Overflow, env) else Outcome(w, true)
  }

  function Offered(w: Writer, b: Batch, fate: OfferFate): Writer {
    if |b.events| == 0 then w else w.(offers := w.offers + [Offer(b, fate)])
  }

  /** Append a batch to the active segment. */
  function Appended(w: Writer, b: Batch): Writer
    requires w.active.Some?
  {
    var a := w.active.value;
    Offered(w, b, Accepted).(
      active := Some(a.(bytes := a.bytes + b.bytes, records := a.records + [Data(b, w.metadata)])),
      hasRealEvents := true)
  }

  function Written(c: Config, w: Writer, b: Batch, env: WriteEnv): Outcome {
    var ready := MetadataIfNeeded(w, env.meta);
    if !ready.ok then Outcome(Offered(ready.writer, b, Failed), false)
    else if ready.writer.active.None? then
      Outcome(Offered(ready.writer, b, Dropped).(droppedEvents := w.droppedEvents + |b.events|), true)
    else if |b.events| == 0 then ready
    else if env.batch.BatchTore? then Outcome(Offered(Torn(ready.writer, env.batch.left), b, Failed), false)
    else MaybeRotated(c, Appended(ready.writer, b), env.rotate)
  }

  /** Every file operation that a batch write may need succeeds. */
  predicate Succeeds(env: WriteEnv) {
    env.meta.Wrote? && env.batch.BatchWrote? && env.rotate.seal != IoError && env.rotate.open.Some?
  }

  /** A batch write whose file operations succeed is reported as a success, whatever the writer's state. */
  lemma SuccessIsOk(c: Config, w: Writer, b: Batch, env: WriteEnv)
    requires Succeeds(env)
    ensures Written(c, w, b, env).ok
  {
    hide SealedActive, Reopened;
  }

  /** The batch is appended to the active segment. */
  predicate Takes(w: Writer, b: Batch, env: WriteEnv) {
    w.active.Some? && MetadataIfNeeded(w, env.meta).ok && |b.events| > 0 && env.batch.BatchWrote?
  }

  lemma TakesMeans(c: Config, w: Writer, b: Batch, env: WriteEnv)
    requires Takes(w, b, env)
    ensures var ready := MetadataIfNeeded(w, env.meta).writer;
      ready.active.Some? && Written(c, w, b, env) == MaybeRotated(c, Appended(ready, b), env.rotate)
  {
    hide MaybeRotated;
  }

  /** A batch that is not taken changes the active segment's records at most, and the counts. */
  lemma RefusedKeeps(c: Config, w: Writer, b: Batch, env: WriteEnv)
    requires !Takes(w, b, env)
    ensures var w' := Written(c, w, b, env).writer;
      && w' == w.(active := w'.active, offers := w'.offers, droppedEvents := w'.droppedEvents)
      && w'.active.Some? == w.active.Some?
    ensures var w', ready := Written(c, w, b, env).writer, MetadataIfNeeded(w, env.meta);
      var left := if ready.ok && |b.events| > 0 && env.batch.BatchTore? then Torn(ready.writer, env.batch.left) else ready.writer;
      w' == left.(offers := w'.offers, droppedEvents := w'.droppedEvents)
  {
    hide MaybeRotated;
  }

  predicate ShouldDrain(w: Writer, now: real) {
    w.hasRealEvents && now >= w.nextDrain
  }

  /** The flush loop finished a drain: rotate if the period is over, else put off the next drain. */
  function AfterDrain(c: Config, w: Writer, now: real, env: RotateEnv): Outcome {
    if !w.hasRealEvents then Outcome(w, true)
    else if w.nextRotation.Some? && now >= w.nextRotation.value then Rotated(c, w, Drained, env)
    else Outcome(w.(nextDrain := now + DrainInterval(w.currentPeriod)), true)
  }

  /** Whether finalizing keeps the last segment. */
  predicate KeepsLast(w: Writer) {
    w.hasRealEvents || (w.metadataChanged && w.nextIndex > 1)
  }

  /** Stamp the last segment, then seal it if it is kept and remove it otherwise. */
  function FinalSealed(c: Config, w: Writer, sealMeta: RecordWrite, io: IoResult): Writer
    requires w.active.Some?
  {
    var stamped := CountSeal(SealMetadata(w, Drained, sealMeta), Drained);
    var fate := if KeepsLast(w) then FateOf(io) else Discarded;
    Closed(c, stamped, SealEntry(stamped, Drained, StampOf(w, Drained, sealMeta), fate))
  }

  /** Seal or discard the last segment for good; `io` is the outcome of the seal or of the removal. */
  function Finalized(c: Config, w: Writer, sealMeta: RecordWrite, io: IoResult): Outcome {
    if w.active.None? then Outcome(w, true)
    else
      var sealed := FinalSealed(c, w, sealMeta, io);
      if io == IoError then Outcome(sealed, false) else Outcome(Evict(c, sealed), true)
  }

  // ----- Runs -----

  /** One call on a writer together with its environment. */
  datatype Call =
    | WriteCall(batch: Batch, env: WriteEnv)
    | DrainedCall(now: real, rotate: RotateEnv)
    | UpdateCall(entries: seq<Entry>)
    | MetadataCall(write: RecordWrite)
    | FinalizeCall(sealMeta: RecordWrite, io: IoResult)

  function After(c: Config, w: Writer, call: Call): Outcome {
    match call
    case WriteCall(b, env) => Written(c, w, b, env)
    case DrainedCall(now, env) => AfterDrain(c, w, now, env)
    case UpdateCall(entries) => Outcome(Updated(w, entries), true)
    case MetadataCall(write) => MetadataIfNeeded(w, write)
    case FinalizeCall(sealMeta, io) => Finalized(c, w, sealMeta, io)
  }

  /** The state after a sequence of calls. */
  function AfterAll(c: Config, w: Writer, calls: seq<Call>): Writer {
    if |calls| == 0 then w
    else After(c, AfterAll(c, w, calls[..|calls| - 1]), calls[|calls| - 1]).writer
  }

  // ----- What every seal does -----

  /** From `w` to `w'` the active segment joined the log as `kind`, and a fresh one or none took its place. */
  ghost predicate Seals(w: Writer, w': Writer, kind: SealKind) {
    && w.active.Some?
    && |w'.log| == |w.log| + 1 && w'.log[..|w.log|] == w.log
    && w'.offers == w.offers && w'.droppedEvents == w.droppedEvents && w'.metadata == w.metadata
    && (var e := w'.log[|w.log|];
        && e.kind == kind && e.metadata == w.metadata
        && (w.nextIndex >= 1 ==> e.index + 1 == w.nextIndex)
        && (e.stamp.Some? ==>
              && e.stamp.value == Complete(w, kind)
              && e.records == w.active.value.records + [Meta(w.metadata + [StampEntry(e.stamp.value)])])
        && (e.stamp.None? ==> exists left {:trigger TornRecord(left)} :: e.records == w.active.value.records + [TornRecord(left)]))
    && (w'.active.Some? ==>
        && w'.active.value.records == [] && w'.active.value.needMetadata
        && w'.nextIndex == w.nextIndex + 1 && w'.priorSeal == kind)
  }

  /** Starting a segment touches neither the log nor what seals depend on. */
  lemma ReopenedKeeps(c: Config, w: Writer, openBytes: nat)
    ensures var w' := Reopened(c, w, openBytes);
      && w' == w.(closed := w'.closed, evicted := w'.evicted, active := w'.active, hasRealEvents := false, metadataChanged := false)
      && (w'.active == None || w'.active == Some(Active(openBytes, openBytes, true, [])))
  {
    hide EvictCount, Total;
  }

  lemma SealedActiveSeals(c: Config, w: Writer, kind: SealKind, env: RotateEnv)
    requires w.active.Some?
    ensures var w' := SealedActive(c, w, kind, env);
      Seals(w, w', kind) && w'.active.None? && w'.priorSeal == kind && w'.nextIndex == w.nextIndex
  {
    hide Adapt, NextRotation, DrainInterval, Max;
  }

  lemma RotatedSeals(c: Config, w: Writer, kind: SealKind, env: RotateEnv)
    requires w.active.Some?
    ensures Seals(w, Rotated(c, w, kind, env).writer, kind)
  {
    hide SealedActive, Reopened;
    SealedActiveSeals(c, w, kind, env);
    var sealed := SealedActive(c, w, kind, env);
    if env.open.Some? {
      ReopenedKeeps(c, sealed.(nextIndex := sealed.nextIndex + 1), env.open.value);
    }
  }

  lemma FinalSealedSeals(c: Config, w: Writer, sealMeta: RecordWrite, io: IoResult)
    requires w.active.Some?
    ensures Seals(w, FinalSealed(c, w, sealMeta, io), Drained) && FinalSealed(c, w, sealMeta, io).active.None?
  {
    hide KeepsLast, FateOf;
  }

  lemma EvictKeeps(c: Config, w: Writer)
    ensures var w' := Evict(c, w);
      w' == w.(closed := w'.closed, evicted := w'.evicted, active := w'.active) && (w'.active == None || w'.active == w.active)
  {
    hide EvictCount, Total;
  }

  lemma FinalizedSeals(c: Config, w: Writer, sealMeta: RecordWrite, io: IoResult)
    requires w.active.Some?
    ensures Seals(w, Finalized(c, w, sealMeta, io).writer, Drained)
    ensures Finalized(c, w, sealMeta, io).writer.active.None?
  {
    hide FinalSealed, Evict;
    FinalSealedSeals(c, w, sealMeta, io);
    EvictKeeps(c, FinalSealed(c, w, sealMeta, io));
  }
}
