/** What every sequence of calls on a segment writer keeps (dial9-core/src/buffer.rs). */
module SegmentProofs {
  import opened Wrappers
  import opened Collector
  import opened SegmentMetadata
  import opened Rotation
  import opened SegmentSpec

  // ----- Conservation of batches -----

  /** The batches among the records, in order. */
  function DataOf(records: seq<Record>): seq<Batch> {
    if |records| == 0 then []
    else
      var last := records[|records| - 1];
      DataOf(records[..|records| - 1]) + (if last.Data? then [last.batch] else [])
  }

  /** The batches of the segments that stopped being active, in index order. */
  function Contents(log: seq<Sealed>): seq<Batch> {
    if |log| == 0 then [] else Contents(log[..|log| - 1]) + DataOf(log[|log| - 1].records)
  }

  function ActiveData(w: Writer): seq<Batch> {
    if w.active.Some? then DataOf(w.active.value.records) else []
  }

  /** The offered batches with the given fate, in order. */
  function OffersWith(offers: seq<Offer>, fate: OfferFate): seq<Batch> {
    if |offers| == 0 then []
    else
      var last := offers[|offers| - 1];
      OffersWith(offers[..|offers| - 1], fate) + (if last.fate == fate then [last.batch] else [])
  }

  function EventCount(batches: seq<Batch>): nat {
    if |batches| == 0 then 0 else EventCount(batches[..|batches| - 1]) + |batches[|batches| - 1].events|
  }

  /** Segments in log order and then the active one hold exactly the accepted batches, in order, none split or repeated. */
  ghost predicate Conserved(w: Writer) {
    Contents(w.log) + ActiveData(w) == OffersWith(w.offers, Accepted)
  }

  /** Dropped events are exactly the events offered after the writer finished. */
  ghost predicate DropsCounted(w: Writer) {
    && w.droppedEvents == EventCount(OffersWith(w.offers, Dropped))
    && (w.active.Some? ==> OffersWith(w.offers, Dropped) == [])
  }

  lemma DataOfAppend(records: seq<Record>, r: Record)
    ensures DataOf(records + [r]) == DataOf(records) + (if r.Data? then [r.batch] else [])
  {
    assert (records + [r])[..|records|] == records;
  }

  lemma ContentsAppend(log: seq<Sealed>, entry: Sealed)
    ensures Contents(log + [entry]) == Contents(log) + DataOf(entry.records)
  {
    assert (log + [entry])[..|log|] == log;
  }

  lemma OffersAppend(offers: seq<Offer>, o: Offer, fate: OfferFate)
    ensures OffersWith(offers + [o], fate) == OffersWith(offers, fate) + (if o.fate == fate then [o.batch] else [])
  {
    assert (offers + [o])[..|offers|] == offers;
  }

  lemma EventCountAppend(batches: seq<Batch>, b: Batch)
    ensures EventCount(batches + [b]) == EventCount(batches) + |b.events|
  {
    assert (batches + [b])[..|batches|] == batches;
  }

  /** A seal moves the active data into the log. */
  lemma SealMoves(w: Writer, w': Writer, kind: SealKind)
    requires Seals(w, w', kind)
    ensures DataOf(w'.log[|w.log|].records) == ActiveData(w) && ActiveData(w') == []
    ensures Contents(w'.log) == Contents(w.log) + ActiveData(w)
  {
    var e := w'.log[|w.log|];
    if e.stamp.Some? {
      DataOfAppend(w.active.value.records, Meta(w.metadata + [StampEntry(e.stamp.value)]));
    } else {
      var left :| e.records == w.active.value.records + [TornRecord(left)];
      DataOfAppend(w.active.value.records, TornRecord(left));
    }
    assert w'.log == w.log + [e];
    ContentsAppend(w.log, e);
  }

  /** What happens to a non-empty batch offered to the writer. */
  function WriteFate(w: Writer, env: WriteEnv): OfferFate {
    if !MetadataIfNeeded(w, env.meta).ok then Failed
    else if w.active.None? then Dropped
    else if env.batch.BatchTore? then Failed
    else Accepted
  }

  lemma MetadataKeepsData(w: Writer, write: RecordWrite)
    ensures var w' := MetadataIfNeeded(w, write).writer;
      && ActiveData(w') == ActiveData(w) && w'.active.Some? == w.active.Some?
      && w'.log == w.log && w'.offers == w.offers && w'.droppedEvents == w.droppedEvents && w'.metadata == w.metadata
  {
    if w.active.Some? {
      DataOfAppend(w.active.value.records, if write.Wrote? then Meta(w.metadata) else TornRecord(write.left));
    }
  }

  lemma TornKeepsData(w: Writer, left: nat)
    ensures ActiveData(Torn(w, left)) == ActiveData(w)
  {
    if w.active.Some? {
      DataOfAppend(w.active.value.records, TornRecord(left));
    }
  }

  /** A batch that is not accepted, or is empty, leaves the batches in segments as they are. */
  lemma WrittenRefuses(c: Config, w: Writer, b: Batch, env: WriteEnv)
    requires |b.events| == 0 || WriteFate(w, env) != Accepted
    ensures var w' := Written(c, w, b, env).writer;
      && ActiveData(w') == ActiveData(w) && w'.active.Some? == w.active.Some? && w'.log == w.log
      && w'.offers == w.offers + (if |b.events| == 0 then [] else [Offer(b, WriteFate(w, env))])
      && w'.droppedEvents == w.droppedEvents + (if w.active.None? then |b.events| else 0)
    ensures Written(c, w, b, env).ok <==>
      MetadataIfNeeded(w, env.meta).ok && (|b.events| == 0 || WriteFate(w, env) == Dropped)
  {
    MetadataKeepsData(w, env.meta);
    if env.batch.BatchTore? {
      TornKeepsData(MetadataIfNeeded(w, env.meta).writer, env.batch.left);
    }
  }

  /** An accepted batch is appended to the active segment, which is then sealed as an overflow if it outgrew the limit. */
  lemma WrittenAccepts(c: Config, w: Writer, b: Batch, env: WriteEnv) returns (grown: Writer)
    requires |b.events| > 0 && WriteFate(w, env) == Accepted
    ensures grown.active.Some? && ActiveData(grown) == ActiveData(w) + [b] && grown.log == w.log
    ensures grown.offers == w.offers + [Offer(b, Accepted)] && grown.droppedEvents == w.droppedEvents
    ensures Written(c, w, b, env).writer == grown || Seals(grown, Written(c, w, b, env).writer, Overflow)
  {
    MetadataKeepsData(w, env.meta);
    var ready := MetadataIfNeeded(w, env.meta).writer;
    grown := Appended(ready, b);
    DataOfAppend(ready.active.value.records, Data(b, ready.metadata));
    assert Written(c, w, b, env) == MaybeRotated(c, grown, env.rotate);
    RotatedSeals(c, grown, Overflow, env.rotate);
  }

  /** A non-empty batch is offered once, and a failed one makes the call fail. */
  lemma WrittenOffers(c: Config, w: Writer, b: Batch, env: WriteEnv)
    requires |b.events| > 0
    ensures Written(c, w, b, env).writer.offers == w.offers + [Offer(b, WriteFate(w, env))]
    ensures Written(c, w, b, env).ok ==> WriteFate(w, env) != Failed
  {
    if WriteFate(w, env) == Accepted {
      var grown := WrittenAccepts(c, w, b, env);
    } else {
      WrittenRefuses(c, w, b, env);
    }
  }

  lemma SealConserves(w: Writer, w': Writer, kind: SealKind)
    requires Conserved(w) && DropsCounted(w) && Seals(w, w', kind)
    ensures Conserved(w') && DropsCounted(w')
  {
    SealMoves(w, w', kind);
  }

  /** A batch is dropped exactly if the writer is finished. */
  lemma DroppedIff(w: Writer, env: WriteEnv)
    ensures WriteFate(w, env) == Dropped <==> w.active.None?
  {
  }

  lemma RefusalConserves(c: Config, w: Writer, b: Batch, env: WriteEnv)
    requires Conserved(w) && DropsCounted(w) && (|b.events| == 0 || WriteFate(w, env) != Accepted)
    ensures Conserved(Written(c, w, b, env).writer) && DropsCounted(Written(c, w, b, env).writer)
  {
    assert w.offers + [] == w.offers;
    hide Written, WriteFate, Contents, ActiveData, MetadataIfNeeded;
    DroppedIff(w, env);
    WrittenRefuses(c, w, b, env);
    OffersAppend(w.offers, Offer(b, WriteFate(w, env)), Accepted);
    OffersAppend(w.offers, Offer(b, WriteFate(w, env)), Dropped);
    EventCountAppend(OffersWith(w.offers, Dropped), b);
  }

  lemma WrittenConserves(c: Config, w: Writer, b: Batch, env: WriteEnv)
    requires Conserved(w) && DropsCounted(w)
    ensures Conserved(Written(c, w, b, env).writer) && DropsCounted(Written(c, w, b, env).writer)
  {
    if |b.events| == 0 || WriteFate(w, env) != Accepted {
      RefusalConserves(c, w, b, env);
    } else {
      var w' := Written(c, w, b, env).writer;
      var grown := WrittenAccepts(c, w, b, env);
      OffersAppend(w.offers, Offer(b, Accepted), Accepted);
      OffersAppend(w.offers, Offer(b, Accepted), Dropped);
      assert Contents(w.log) + (ActiveData(w) + [b]) == (Contents(w.log) + ActiveData(w)) + [b];
      if w' != grown {
        SealConserves(grown, w', Overflow);
      }
    }
  }

  lemma RotatedConserves(c: Config, w: Writer, kind: SealKind, env: RotateEnv)
    requires Conserved(w) && DropsCounted(w)
    ensures Conserved(Rotated(c, w, kind, env).writer) && DropsCounted(Rotated(c, w, kind, env).writer)
  {
    if w.active.Some? {
      RotatedSeals(c, w, kind, env);
      SealConserves(w, Rotated(c, w, kind, env).writer, kind);
    }
  }

  lemma FinalizedConserves(c: Config, w: Writer, sealMeta: RecordWrite, io: IoResult)
    requires Conserved(w) && DropsCounted(w)
    ensures Conserved(Finalized(c, w, sealMeta, io).writer) && DropsCounted(Finalized(c, w, sealMeta, io).writer)
  {
    if w.active.Some? {
      FinalizedSeals(c, w, sealMeta, io);
      SealConserves(w, Finalized(c, w, sealMeta, io).writer, Drained);
    }
  }

  lemma CallConserves(c: Config, w: Writer, call: Call)
    requires Conserved(w) && DropsCounted(w)
    ensures Conserved(After(c, w, call).writer) && DropsCounted(After(c, w, call).writer)
  {
    match call
    case WriteCall(b, env) => WrittenConserves(c, w, b, env);
    case DrainedCall(now, env) => RotatedConserves(c, w, Drained, env);
    case UpdateCall(entries) =>
    case MetadataCall(write) => MetadataKeepsData(w, write);
    case FinalizeCall(sealMeta, io) => FinalizedConserves(c, w, sealMeta, io);
  }

  /**
   Over every sequence of writes, drains, updates and finalizations, with every outcome of the
   file system: what the segments hold, in index order, is what was accepted, in order.
   */
  lemma {:induction false} RunConserves(
      c: Config, found: seq<ClosedFile>, first: nat, metadata: seq<Entry>, now: real, open: nat, calls: seq<Call>)
    ensures var w := AfterAll(c, Created(c, found, first, metadata, now, open), calls);
      Conserved(w) && DropsCounted(w)
  {
    if |calls| != 0 {
      RunConserves(c, found, first, metadata, now, open, calls[..|calls| - 1]);
      CallConserves(c, AfterAll(c, Created(c, found, first, metadata, now, open), calls[..|calls| - 1]), calls[|calls| - 1]);
    }
  }

  // ----- Discarded segments -----

  /** Whether the active segment has events is known, and no segment with events was discarded. */
  ghost predicate KeepsReal(w: Writer) {
    && (w.active.Some? ==> (w.hasRealEvents <==> ActiveData(w) != []))
    && (forall i :: 0 <= i < |w.log| && w.log[i].fate == Discarded ==> DataOf(w.log[i].records) == [])
  }

  lemma SealKeepsReal(w: Writer, w': Writer, kind: SealKind)
    requires KeepsReal(w) && Seals(w, w', kind)
    requires w'.active.Some? ==> !w'.hasRealEvents
    requires w'.log[|w.log|].fate == Discarded ==> !w.hasRealEvents
    ensures KeepsReal(w')
  {
    SealMoves(w, w', kind);
    forall i | 0 <= i < |w'.log| && w'.log[i].fate == Discarded
      ensures DataOf(w'.log[i].records) == []
    {
      assert i < |w.log| ==> w'.log[i] == w'.log[..|w.log|][i] == w.log[i];
    }
  }

  /** A rotation clears the flag of a segment it opens and discards nothing. */
  lemma RotatedFlags(c: Config, w: Writer, kind: SealKind, env: RotateEnv)
    requires w.active.Some?
    ensures var w' := Rotated(c, w, kind, env).writer;
      && (w'.active.Some? ==> !w'.hasRealEvents)
      && |w'.log| == |w.log| + 1 && w'.log[|w.log|].fate != Discarded
  {
    hide Adapt, NextRotation, DrainInterval, Max, EvictCount, Total;
  }

  lemma RotatedKeepsReal(c: Config, w: Writer, kind: SealKind, env: RotateEnv)
    requires KeepsReal(w)
    ensures KeepsReal(Rotated(c, w, kind, env).writer)
  {
    if w.active.Some? {
      RotatedFlags(c, w, kind, env);
      RotatedSeals(c, w, kind, env);
      hide Rotated, KeepsReal, Seals;
      SealKeepsReal(w, Rotated(c, w, kind, env).writer, kind);
    }
  }

  lemma WrittenKeepsReal(c: Config, w: Writer, b: Batch, env: WriteEnv)
    requires KeepsReal(w)
    ensures KeepsReal(Written(c, w, b, env).writer)
  {
    if |b.events| > 0 && WriteFate(w, env) == Accepted {
      AcceptedKeepsReal(c, w, b, env);
    } else {
      WrittenRefuses(c, w, b, env);
      RefusedFlag(c, w, b, env);
      hide Written, DataOf;
    }
  }

  lemma RefusedFlag(c: Config, w: Writer, b: Batch, env: WriteEnv)
    requires |b.events| == 0 || WriteFate(w, env) != Accepted
    ensures Written(c, w, b, env).writer.hasRealEvents == w.hasRealEvents
  {
  }

  lemma AcceptedKeepsReal(c: Config, w: Writer, b: Batch, env: WriteEnv)
    requires KeepsReal(w) && |b.events| > 0 && WriteFate(w, env) == Accepted
    ensures KeepsReal(Written(c, w, b, env).writer)
  {
    hide Rotated;
    MetadataKeepsData(w, env.meta);
    var ready := MetadataIfNeeded(w, env.meta).writer;
    DataOfAppend(ready.active.value.records, Data(b, ready.metadata));
    var grown := Appended(ready, b);
    assert Written(c, w, b, env) == MaybeRotated(c, grown, env.rotate);
    hide Written, DataOf;
    assert KeepsReal(grown);
    hide KeepsReal;
    RotatedKeepsReal(c, grown, Overflow, env.rotate);
  }

  lemma CallKeepsReal(c: Config, w: Writer, call: Call)
    requires KeepsReal(w)
    ensures KeepsReal(After(c, w, call).writer)
  {
    match call
    case WriteCall(b, env) => WrittenKeepsReal(c, w, b, env);
    case DrainedCall(now, env) => RotatedKeepsReal(c, w, Drained, env);
    case UpdateCall(entries) =>
    case MetadataCall(write) => MetadataKeepsData(w, write);
    case FinalizeCall(sealMeta, io) =>
      if w.active.Some? {
        FinalizedSeals(c, w, sealMeta, io);
        SealKeepsReal(w, Finalized(c, w, sealMeta, io).writer, Drained);
      }
  }

  /** Finalizing discards the last segment only when it holds no batch, over every sequence of calls. */
  lemma {:induction false} RunKeepsReal(
      c: Config, found: seq<ClosedFile>, first: nat, metadata: seq<Entry>, now: real, open: nat, calls: seq<Call>)
    ensures KeepsReal(AfterAll(c, Created(c, found, first, metadata, now, open), calls))
  {
    if |calls| != 0 {
      RunKeepsReal(c, found, first, metadata, now, open, calls[..|calls| - 1]);
      CallKeepsReal(c, AfterAll(c, Created(c, found, first, metadata, now, open), calls[..|calls| - 1]), calls[|calls| - 1]);
    }
  }
}
