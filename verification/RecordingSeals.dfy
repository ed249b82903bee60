/**
 Seals along a run: which step sealed a segment, what the segments hold from then on, and what
 became of the batches whose write failed.
 */
module RecordingSeals {
  import opened Wrappers
  import opened Collector
  import opened SegmentMetadata
  import opened Rotation
  import opened SegmentSpec
  import opened SegmentProofs
  import opened RecordingProtocol
  import opened RecordingInvariant
  import opened RecordingFlush
  import opened RecordingRuns

  // ----- What a run only adds to -----

  ghost predicate Grows(s: Sys, s': Sys) {
    && s.removed <= s'.removed && s.notes <= s'.notes
    && s.writer.log <= s'.writer.log && s.writer.offers <= s'.writer.offers
  }

  /** A step away from the writer: at most its metadata is updated. */
  ghost predicate SparesWriter(s: Sys, s': Sys) {
    && s.removed <= s'.removed && s'.notes == s.notes && s'.writeFailed == s.writeFailed
    && s'.writer.log == s.writer.log && s'.writer.offers == s.writer.offers
    && s'.writer.active.Some? == s.writer.active.Some?
  }

  /** Handing a buffer over changes the removals at most. */
  lemma FlushSparesAll(k: Settings, s: Sys, t: nat)
    requires k.capacity > 0 && t < |s.threads|
    ensures var s' := FlushBuffer(k, s, t);
      s.removed <= s'.removed && s' == s.(threads := s'.threads, pushed := s'.pushed, ring := s'.ring, removed := s'.removed)
  {
    hide ForcePushed;
  }

  lemma PushSpares(k: Settings, s: Sys, a: Action)
    requires k.capacity > 0 && ThreadEnabled(s, a) && MayPush(a)
    ensures SparesWriter(s, ThreadApply(k, s, a)) && ThreadApply(k, s, a).writer == s.writer
  {
    FlushSparesAll(k, s, a.t);
    hide FlushBuffer, Full;
  }

  lemma ThreadSpares(k: Settings, s: Sys, a: Action)
    requires k.capacity > 0 && ThreadEnabled(s, a)
    ensures SparesWriter(s, ThreadApply(k, s, a)) && ThreadApply(k, s, a).writer == s.writer
  {
    if MayPush(a) {
      hide ThreadApply, ThreadEnabled, SparesWriter;
      PushSpares(k, s, a);
    } else {
      hide FlushBuffer;
    }
  }

  lemma ControlSpares(k: Settings, s: Sys, a: Action)
    requires k.capacity > 0 && ControlEnabled(s, a)
    ensures SparesWriter(s, ControlApply(k, s, a)) && ControlApply(k, s, a).writer == s.writer
  {
    if a.DrainCaller? {
      FlushSparesAll(k, s, s.stop.caller);
    }
    hide FlushBuffer, Full, Returned;
  }

  lemma DrainFlushSpares(k: Settings, s: Sys)
    requires k.capacity > 0 && DrainEnabled(s) && s.flusher.step.Flush?
    ensures SparesWriter(s, DrainApply(k, s)) && DrainApply(k, s).writer == s.writer
  {
    FlushSparesAll(k, s, s.flusher.drain.handles[s.flusher.drain.at]);
    hide FlushBuffer, Full, Pruned, MidExit;
  }

  lemma DrainSpares(k: Settings, s: Sys)
    requires k.capacity > 0 && DrainEnabled(s)
    ensures SparesWriter(s, DrainApply(k, s)) && DrainApply(k, s).writer == s.writer
  {
    if s.flusher.step.Flush? {
      hide *;
      DrainFlushSpares(k, s);
    } else {
      hide FlushBuffer, Full, Pruned, MidExit;
    }
  }

  lemma LoopSpares(s: Sys, exit: bool, now: real, entries: seq<Entry>)
    ensures SparesWriter(s, Woken(s, exit)) && Woken(s, exit).writer == s.writer
    ensures s.flusher.Snapshotting? ==> SparesWriter(s, Snapshotted(s)) && Snapshotted(s).writer == s.writer
    ensures s.flusher.Deciding? ==> SparesWriter(s, Decided(s, now, entries))
  {
    hide ShouldDrain, Returned, Merged;
  }

  /** Everything but popping and closing a cycle leaves the writer's segments alone. */
  lemma FlushSpares(k: Settings, s: Sys, env: FlushEnv)
    requires k.capacity > 0 && FlushEnabled(s) && !s.flusher.action.Pop? && !s.flusher.action.Close?
    ensures SparesWriter(s, FlushApply(k, s, env)) && FlushApply(k, s, env).writer == s.writer
  {
    hide ForcePushed, PopNext, ClosedCycle;
  }

  /** The steps that may offer a batch to the writer or seal a segment. */
  predicate UsesWriter(s: Sys, a: Action) {
    a.FlushNext? && s.flusher.InFlush? && (s.flusher.action.Pop? || s.flusher.action.Close?)
  }

  lemma NextSpares(k: Settings, s: Sys, a: Action)
    requires k.capacity > 0 && Allowed(s, a) && !UsesWriter(s, a)
    ensures SparesWriter(s, Next(k, s, a)) && (!a.Decide? ==> Next(k, s, a).writer == s.writer)
  {
    hide *;
    NextCases(k, s, a);
    if a.Wake? {
      LoopSpares(s, a.exit, 0.0, []);
    } else if a.Decide? {
      LoopSpares(s, false, a.now, a.entries);
    } else if a.Snapshot? {
      LoopSpares(s, false, 0.0, []);
    } else if a.DrainNext? {
      DrainSpares(k, s);
    } else if a.FlushNext? {
      InFlushOf(s);
      assert !s.flusher.action.Pop? && !s.flusher.action.Close? by {
        UsesMeans(s, a);
      }
      FlushSpares(k, s, a.env);
    } else if ThreadEnabled(s, a) {
      ThreadSpares(k, s, a);
    } else {
      ControlSpares(k, s, a);
    }
  }

  lemma InFlushOf(s: Sys)
    requires FlushEnabled(s)
    ensures s.flusher.InFlush?
  {
  }

  lemma UsesMeans(s: Sys, a: Action)
    requires s.flusher.InFlush? && a.FlushNext?
    ensures UsesWriter(s, a) <==> s.flusher.action.Pop? || s.flusher.action.Close?
  {
  }

  // ----- The steps that use the writer -----

  /** The end of a cycle that drained the threads. */
  predicate ClosesDrain(s: Sys) {
    s.flusher.InFlush? && s.flusher.action.Close? && DrainedTick(s.flusher.tick)
  }

  /** A seal: the log and the notes gain an entry. */
  ghost predicate SealsOne(s: Sys, s': Sys) {
    && s.writer.active.Some? && ActiveData(s'.writer) == []
    && |s'.writer.log| == |s.writer.log| + 1 && s.writer.log <= s'.writer.log
    && |s'.notes| == |s.notes| + 1 && s.notes <= s'.notes
    && (s'.writer.log[|s.writer.log|].kind == Drained ==>
          && ClosesDrain(s) && s'.removed == s.removed && s'.writer.offers == s.writer.offers
          && s'.notes[|s.notes|] == NoteOf(s))
  }

  /** What a step that uses the writer may change: a write that failed and left the writer active is a failed offer. */
  ghost predicate WriterStep(s: Sys, s': Sys) {
    && s.removed <= s'.removed && s.writer.offers <= s'.writer.offers
    && (s.writeFailed ==> s'.writeFailed)
    && (s'.writer.active.Some? ==> s.writer.active.Some?)
    && (s'.writeFailed && s'.writer.active.Some? ==> s.writeFailed || OffersWith(s'.writer.offers, Failed) != [])
    && ((s'.writer.log == s.writer.log && s'.notes == s.notes) || SealsOne(s, s'))
  }

  /** A batch write fails because the batch was not taken, or because the writer stopped on it. */
  lemma WrittenFails(c: Config, w: Writer, b: Batch, env: WriteEnv)
    requires |b.events| > 0
    ensures var out := Written(c, w, b, env);
      && (out.writer.active.Some? ==> w.active.Some?)
      && (!out.ok && out.writer.active.Some? ==> WriteFate(w, env) == Failed)
  {
    MetadataKeepsData(w, env.meta);
    var ready := MetadataIfNeeded(w, env.meta).writer;
    hide SealedActive, Reopened;
    if WriteFate(w, env) == Accepted {
      var grown := Appended(ready, b);
      assert Written(c, w, b, env) == MaybeRotated(c, grown, env.rotate);
      SealedActiveSeals(c, grown, Overflow, env.rotate);
    } else {
      WrittenRefuses(c, w, b, env);
    }
  }

  /** What handing a batch over does to the history. */
  lemma HandedHistory(k: Settings, s: Sys, env: WriteEnv)
    requires s.ring != [] && s.flusher.InFlush? && |s.notes| == |s.writer.log|
    ensures var s', out := Handed(k, s, env), Written(k.writer, s.writer, s.ring[0], env);
      && s'.writer == out.writer && s.removed <= s'.removed
      && s'.writeFailed == (s.writeFailed || !out.ok)
      && s.notes <= s'.notes && |s'.notes| == |s.notes| + (if |out.writer.log| == |s.writer.log| then 0 else 1)
  {
    hide Written;
  }

  lemma HandedStep(k: Settings, s: Sys, env: WriteEnv)
    requires s.ring != [] && s.flusher.InFlush? && |s.notes| == |s.writer.log| && |s.ring[0].events| > 0
    ensures WriterStep(s, Handed(k, s, env))
  {
    var b, w := s.ring[0], s.writer;
    var s' := Handed(k, s, env);
    var fate := WriteFate(w, env);
    assert fate == Accepted ==> w.active.Some?;
    hide Handed, Written, WriteFate, Taken;
    HandedHistory(k, s, env);
    WrittenFails(k.writer, w, b, env);
    WrittenOffers(k.writer, w, b, env);
    OffersAppend(w.offers, Offer(b, fate), Failed);
    if fate == Accepted {
      var grown := WrittenAccepts(k.writer, w, b, env);
      if s'.writer != grown {
        SealsShape(grown, s'.writer, Overflow);
        SealMoves(grown, s'.writer, Overflow);
        hide Seals;
        assert SealsOne(s, s');
      }
    } else {
      WrittenRefuses(k.writer, w, b, env);
    }
  }

  lemma PopStep(k: Settings, s: Sys, env: FlushEnv)
    requires k.capacity > 0 && FlushEnabled(s) && s.flusher.action.Pop? && |s.notes| == |s.writer.log|
    ensures WriterStep(s, FlushApply(k, s, env))
  {
    if s.ring != [] && |s.ring[0].events| > 0 {
      assert FlushApply(k, s, env) == Handed(k, s, env.write);
      hide FlushApply, Handed, WriterStep;
      HandedStep(k, s, env.write);
    } else {
      hide Written;
    }
  }

  lemma CloseStep(k: Settings, s: Sys, env: FlushEnv)
    requires k.capacity > 0 && FlushEnabled(s) && s.flusher.action.Close? && |s.notes| == |s.writer.log|
    ensures WriterStep(s, FlushApply(k, s, env))
  {
    var s' := FlushApply(k, s, env);
    var w := Prepared(s, env);
    CloseShape(k, s, env);
    hide FlushApply;
    PreparedSame(s, env);
    ClosedSeals(k, s, env);
    hide ClosedWriter, Prepared, Seals;
    if !SameContents(w, s'.writer) {
      SealsShape(w, s'.writer, Drained);
      SealMoves(w, s'.writer, Drained);
      SealKeepsOffers(w, s'.writer, Drained);
    }
  }

  lemma SealKeepsOffers(w: Writer, w': Writer, kind: SealKind)
    requires Seals(w, w', kind)
    ensures w'.offers == w.offers
  {
  }

  lemma NextUses(k: Settings, s: Sys, a: Action)
    requires k.capacity > 0 && Allowed(s, a) && UsesWriter(s, a) && |s.notes| == |s.writer.log|
    ensures WriterStep(s, Next(k, s, a))
  {
    hide Next, Allowed, FlushApply, WriterStep;
    NextCases(k, s, a);
    if s.flusher.action.Pop? {
      PopStep(k, s, a.env);
    } else {
      CloseStep(k, s, a.env);
    }
  }

  // ----- Along a run -----

  /** While the writer is active, a failed write shows as a failed offer. */
  predicate Blamed(s: Sys) {
    s.writeFailed && s.writer.active.Some? ==> OffersWith(s.writer.offers, Failed) != []
  }

  lemma {:induction false} OffersPrefix(offers: seq<Offer>, longer: seq<Offer>, fate: OfferFate)
    requires offers <= longer
    ensures OffersWith(offers, fate) <= OffersWith(longer, fate)
    decreases |longer|
  {
    if offers != longer {
      OffersPrefix(offers, longer[..|longer| - 1], fate);
    }
  }

  lemma SparedStep(s: Sys, s': Sys)
    requires SparesWriter(s, s')
    ensures Grows(s, s') && (Blamed(s) ==> Blamed(s'))
  {
  }

  lemma UsedStep(s: Sys, s': Sys)
    requires WriterStep(s, s')
    ensures Grows(s, s') && (Blamed(s) ==> Blamed(s'))
  {
    OffersPrefix(s.writer.offers, s'.writer.offers, Failed);
  }

  lemma NotesCount(k: Settings, s: Sys)
    requires Inv(k, s)
    ensures |s.notes| == |s.writer.log|
  {
  }

  lemma NextGrows(k: Settings, s: Sys, a: Action)
    requires Inv(k, s) && k.capacity > 0 && Allowed(s, a)
    ensures Grows(s, Next(k, s, a)) && (Blamed(s) ==> Blamed(Next(k, s, a)))
  {
    hide *;
    NotesCount(k, s);
    if UsesWriter(s, a) {
      NextUses(k, s, a);
      UsedStep(s, Next(k, s, a));
    } else {
      NextSpares(k, s, a);
      SparedStep(s, Next(k, s, a));
    }
  }

  /** Removals, offers, sealed segments and their notes are never taken back. */
  lemma {:induction false} RunGrows(k: Settings, states: seq<Sys>, actions: seq<Action>, i: nat, j: nat)
    requires Run(k, states, actions) && i <= j < |states|
    ensures Grows(states[i], states[j])
    decreases j
  {
    hide Init, Next, Allowed, Inv;
    if i < j {
      RunGrows(k, states, actions, i, j - 1);
      RunInv(k, states, actions, j - 1);
      NextGrows(k, states[j - 1], actions[j - 1]);
    }
  }

  lemma InitBlamed(k: Settings, s: Sys)
    requires Init(k, s)
    ensures Blamed(s)
  {
    hide Created;
  }

  lemma {:induction false} RunBlamed(k: Settings, states: seq<Sys>, actions: seq<Action>, j: nat)
    requires Run(k, states, actions) && j < |states|
    ensures Blamed(states[j])
  {
    hide Init, Next, Allowed, Inv, Blamed;
    if j == 0 {
      InitBlamed(k, states[0]);
    } else {
      RunBlamed(k, states, actions, j - 1);
      RunInv(k, states, actions, j - 1);
      NextGrows(k, states[j - 1], actions[j - 1]);
    }
  }

  /** The step from state `c` sealed the `n`-th segment. */
  ghost predicate SealedAt(states: seq<Sys>, c: nat, n: nat) {
    c + 1 < |states| && |states[c].writer.log| == n && |states[c + 1].writer.log| == n + 1
  }

  /** Every sealed segment was sealed by some step of the run, whose circumstances its note records. */
  lemma {:induction false} SealFound(k: Settings, states: seq<Sys>, actions: seq<Action>, j: nat, n: nat) returns (c: nat)
    requires Run(k, states, actions) && j < |states| && n < |states[j].writer.log|
    ensures c < j && SealedAt(states, c, n)
  {
    hide Init, Next, Allowed, Inv;
    if j == 0 {
      InitWriter(k, states[0]);
      assert false;
    } else {
      RunInv(k, states, actions, j - 1);
      NotesCount(k, states[j - 1]);
      if n < |states[j - 1].writer.log| {
        c := SealFound(k, states, actions, j - 1, n);
      } else {
        c := j - 1;
        OneSealAtMost(k, states[c], actions[c]);
      }
    }
  }

  lemma OneSealAtMost(k: Settings, s: Sys, a: Action)
    requires k.capacity > 0 && Allowed(s, a) && |s.notes| == |s.writer.log|
    ensures |s.writer.log| <= |Next(k, s, a).writer.log| <= |s.writer.log| + 1
  {
    hide Next, Allowed;
    if UsesWriter(s, a) {
      NextUses(k, s, a);
    } else {
      NextSpares(k, s, a);
    }
  }

  /** From its seal on, the segments up to the `n`-th hold exactly the batches accepted by then. */
  lemma SealHolds(k: Settings, states: seq<Sys>, actions: seq<Action>, c: nat, j: nat, n: nat)
    requires Run(k, states, actions) && SealedAt(states, c, n) && c < j < |states|
    ensures n < |states[j].writer.log| == |states[j].notes|
    ensures states[j].writer.log[..n + 1] == states[c + 1].writer.log
    ensures Contents(states[j].writer.log[..n + 1]) == OffersWith(states[c + 1].writer.offers, Accepted)
    ensures SealsOne(states[c], states[c + 1])
    ensures |states[c + 1].notes| == n + 1 && states[j].notes[n] == states[c + 1].notes[n]
  {
    hide *;
    RunGrows(k, states, actions, c + 1, j);
    RunInv(k, states, actions, c);
    RunInv(k, states, actions, c + 1);
    RunInv(k, states, actions, j);
    NotesCount(k, states[c]);
    NotesCount(k, states[j]);
    SealedStep(k, states, actions, c, n);
    HoldsAccepted(k, states[c], states[c + 1]);
    LogStays(states[c + 1], states[j]);
  }

  /** A step that seals is one that uses the writer, and it leaves nothing in the active segment. */
  lemma SealedStep(k: Settings, states: seq<Sys>, actions: seq<Action>, c: nat, n: nat)
    requires Run(k, states, actions) && SealedAt(states, c, n) && |states[c].notes| == |states[c].writer.log|
    ensures SealsOne(states[c], states[c + 1]) && |states[c].writer.log| == n
  {
    hide Init, Next, Allowed, SealsOne;
    if UsesWriter(states[c], actions[c]) {
      NextUses(k, states[c], actions[c]);
    } else {
      NextSpares(k, states[c], actions[c]);
    }
  }

  lemma HoldsAccepted(k: Settings, s: Sys, s': Sys)
    requires Inv(k, s') && SealsOne(s, s') && |s.notes| == |s.writer.log|
    ensures Contents(s'.writer.log) == OffersWith(s'.writer.offers, Accepted)
    ensures |s'.writer.log| == |s'.notes| == |s.writer.log| + 1
  {
    PartsOf(k, s');
    hide Inv, ThreadsOk, RingOk, DrainOk, FlushOk, NotesOk, StopOk, EvictionsOk;
    assert Conserved(s'.writer);
  }

  lemma LogStays(s: Sys, s': Sys)
    requires Grows(s, s')
    ensures s'.writer.log[..|s.writer.log|] == s.writer.log && s'.notes[..|s.notes|] == s.notes
    ensures |s.writer.log| <= |s'.writer.log|
  {
  }

  /** A segment sealed after a drain was sealed by the end of that drain's cycle, with nothing offered or popped on the way. */
  lemma DrainedSeal(k: Settings, states: seq<Sys>, actions: seq<Action>, c: nat, j: nat, n: nat)
    requires Run(k, states, actions) && SealedAt(states, c, n) && c < j < |states|
    requires n < |states[j].writer.log| && states[j].writer.log[n].kind == Drained
    ensures ClosesDrain(states[c]) && states[c].writer.active.Some?
    ensures Contents(states[j].writer.log[..n + 1]) == OffersWith(states[c].writer.offers, Accepted)
    ensures OffersWith(states[c].writer.offers, Dropped) == []
    ensures n < |states[j].notes| && states[j].notes[n] == NoteOf(states[c])
  {
    SealHolds(k, states, actions, c, j, n);
    RunInv(k, states, actions, c);
    assert DropsCounted(states[c].writer);
    assert states[c + 1].writer.log[n] == states[j].writer.log[..n + 1][n] == states[j].writer.log[n];
  }

  // ----- Failed writes -----

  lemma {:induction false} OffersFind(offers: seq<Offer>, i: nat, e: Event)
    requires i < |offers| && e in offers[i].batch.events
    ensures e in AllEvents(OffersWith(offers, offers[i].fate))
  {
    var n := |offers| - 1;
    var fate := offers[i].fate;
    var before := OffersWith(offers[..n], fate);
    if i < n {
      OffersFind(offers[..n], i, e);
    }
    if offers[n].fate == fate {
      AllEventsAppend(before, offers[n].batch);
      assert OffersWith(offers, fate) == before + [offers[n].batch];
    } else {
      assert OffersWith(offers, fate) == before;
    }
  }

  /** What was offered was accepted, dropped or failed. */
  lemma {:induction false} OffersByFate(offers: seq<Offer>, e: Event)
    ensures Occurrences(OfferedBatches(offers), e)
         == Occurrences(OffersWith(offers, Accepted), e) + Occurrences(OffersWith(offers, Dropped), e)
            + Occurrences(OffersWith(offers, Failed), e)
  {
    if |offers| != 0 {
      var n := |offers| - 1;
      var o := offers[n];
      OffersByFate(offers[..n], e);
      assert OfferedBatches(offers) == OfferedBatches(offers[..n]) + [o.batch];
      OccurrencesAppend(OfferedBatches(offers[..n]), o.batch, e);
      OffersOneMore(offers, Accepted, e);
      OffersOneMore(offers, Dropped, e);
      OffersOneMore(offers, Failed, e);
    }
  }

  lemma OffersOneMore(offers: seq<Offer>, fate: OfferFate, e: Event)
    requires |offers| > 0
    ensures var o := offers[|offers| - 1];
      Occurrences(OffersWith(offers, fate), e)
      == Occurrences(OffersWith(offers[..|offers| - 1], fate), e) + (if o.fate == fate then multiset(o.batch.events)[e] else 0)
  {
    var n := |offers| - 1;
    var before := OffersWith(offers[..n], fate);
    if offers[n].fate == fate {
      OccurrencesAppend(before, offers[n].batch, e);
      assert OffersWith(offers, fate) == before + [offers[n].batch];
    } else {
      assert OffersWith(offers, fate) == before;
    }
  }

  /** An event once offered with a fate keeps that offer. */
  lemma OfferStays(s: Sys, s': Sys, fate: OfferFate, e: Event)
    requires Grows(s, s')
    ensures Occurrences(OffersWith(s.writer.offers, fate), e) <= Occurrences(OffersWith(s'.writer.offers, fate), e)
  {
    OffersPrefix(s.writer.offers, s'.writer.offers, fate);
    var before, after := OffersWith(s.writer.offers, fate), OffersWith(s'.writer.offers, fate);
    assert after == before + after[|before|..];
    AllEventsSplit(before, after[|before|..]);
  }
}
